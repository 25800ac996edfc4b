/** A robot's whole memory record: its namespaces, the caps every write but an erase goes
    through, and the two things a parent does about one wrong line. */
module MemoryRecord {
  import opened Wrappers
  import opened Text
  import opened MemoryItems
  import opened MemoryStore

  /** One namespace: a block of entries, or something else that got stored under the name. */
  datatype Block = Fields(entries: seq<Entry>) | Foreign(body: int)
  datatype Space = Space(name: string, block: Block)

  /** Namespaces in the order they were first stored. */
  type Record = seq<Space>

  const MAX_MEMORY_ITEM_CHARS := 240
  const MAX_MEMORY_ITEMS := 25

  /** The caps of a store. `size` is the length of the record as JSON; `reduceValue` and
      `reduceBody` are what making a foreign value storable leaves of it, if anything. */
  datatype Caps = Caps(spaces: nat, items: nat, bytes: nat, size: Record -> nat,
                       reduceValue: (Option<string>, string) -> Option<(Option<string>, string)>,
                       reduceBody: int -> Option<int>)

  // ----- what can be stored -------------------------------------------------------------------

  function Clipped(s: string): string {
    if |s| > MAX_MEMORY_ITEM_CHARS then s[..MAX_MEMORY_ITEM_CHARS] else s
  }

  function SafeProvenance(p: Option<Provenance>): Option<Provenance> {
    match p
    case None => None
    case Some(q) => Some(q.(moduleId := Clipped(q.moduleId)))
  }

  function SafeValue(caps: Caps, v: Value): Option<Value> {
    match v
    case Bare(t) => Some(Bare(Clipped(t)))
    case Item(id, t, p, _, _, _) => Some(v.(id := Clipped(id), text := Clipped(t), prov := SafeProvenance(p)))
    case Other(handle, repr) =>
      match caps.reduceValue(handle, repr)
      case None => None
      case Some((h, r)) => Some(Other(h, r))
  }

  /** The elements that survive a reduction, in order. */
  function Kept<T>(reduce: T -> Option<T>, xs: seq<T>): (r: seq<T>)
    ensures |r| <= |xs|
  {
    if xs == [] then []
    else (if reduce(xs[0]).Some? then [reduce(xs[0]).value] else []) + Kept(reduce, xs[1..])
  }

  function SafeValues(caps: Caps, vs: seq<Value>): seq<Value> {
    Kept(v => SafeValue(caps, v), Take(vs, MAX_MEMORY_ITEMS))
  }

  function SafeEntry(caps: Caps, e: Entry): Option<Entry> {
    match e
    case Listed(key, vs) => Some(Listed(key, SafeValues(caps, vs)))
    case Scalar(key, body) =>
      match caps.reduceBody(body)
      case None => None
      case Some(b) => Some(Scalar(key, b))
  }

  function SafeSpace(caps: Caps, s: Space): Option<Space> {
    match s.block
    case Fields(entries) => Some(s.(block := Fields(Kept(e => SafeEntry(caps, e), entries))))
    case Foreign(body) =>
      match caps.reduceBody(body)
      case None => None
      case Some(b) => Some(s.(block := Foreign(b)))
  }

  function SafeRecord(caps: Caps, data: Record): Record {
    Kept(s => SafeSpace(caps, s), data)
  }

  // ----- the caps -------------------------------------------------------------------------------

  /** The newest namespaces. A cap of 0 drops none: slicing off the last 0 keeps the whole. */
  function Newest(data: Record, spaces: nat): (r: Record)
    ensures |r| <= |data| && r == data[|data| - |r|..]
  {
    if spaces > 0 && |data| > spaces then data[|data| - spaces..] else data
  }

  function CutEntry(e: Entry, items: nat): Entry {
    if e.Listed? then e.(values := Take(e.values, items)) else e
  }

  function CutEntries(entries: seq<Entry>, items: nat): (r: seq<Entry>)
    ensures |r| == |entries| && forall k :: 0 <= k < |r| ==> r[k] == CutEntry(entries[k], items)
  {
    seq(|entries|, k requires 0 <= k < |entries| => CutEntry(entries[k], items))
  }

  /** Every list of a block down to its head; lists are newest first. */
  function CutSpace(s: Space, items: nat): Space {
    if s.block.Fields? then s.(block := Fields(CutEntries(s.block.entries, items))) else s
  }

  function CutLists(data: Record, items: nat): (r: Record)
    ensures |r| == |data| && forall k :: 0 <= k < |r| ==> r[k] == CutSpace(data[k], items)
  {
    seq(|data|, k requires 0 <= k < |data| => CutSpace(data[k], items))
  }

  /** Whole trailing namespaces go until the record fits. */
  function Shrunk(size: Record -> nat, data: Record, bytes: nat): Record {
    if size(data) > bytes && data != [] then Shrunk(size, data[..|data| - 1], bytes) else data
  }

  function TrimmedRecord(caps: Caps, data: Record): Record {
    CutLists(Newest(SafeRecord(caps, data), caps.spaces), caps.items)
  }

  function Bounded(caps: Caps, data: Record): Record {
    Shrunk(caps.size, TrimmedRecord(caps, data), caps.bytes)
  }

  method Bound(caps: Caps, data: Record) returns (safe: Record)
    ensures safe == Bounded(caps, data)
  {
    safe := SafeRecord(caps, data);
    if caps.spaces > 0 && |safe| > caps.spaces {
      safe := safe[|safe| - caps.spaces..];
    }
    ghost var newest := safe;
    for i := 0 to |safe|
      invariant |safe| == |newest|
      invariant forall k :: 0 <= k < |safe| ==> safe[k] == if k < i then CutSpace(newest[k], caps.items) else newest[k]
    {
      safe := safe[i := CutSpace(safe[i], caps.items)];
    }
    assert safe == CutLists(newest, caps.items);
    while caps.size(safe) > caps.bytes && safe != []
      invariant Shrunk(caps.size, safe, caps.bytes) == Bounded(caps, data)
      decreases |safe|
    {
      safe := safe[..|safe| - 1];
    }
  }

  // ----- one item of one namespace ---------------------------------------------------------------

  /** The digest of a text under a namespace and a list. */
  type Digests = string -> string -> string -> Digest

  function FindSpace(data: Record, name: string): (k: nat)
    ensures k <= |data| && (k < |data| ==> data[k].name == name)
  {
    if data == [] || data[0].name == name then 0 else 1 + FindSpace(data[1..], name)
  }

  predicate HasBlock(data: Record, name: string) {
    FindSpace(data, name) < |data| && data[FindSpace(data, name)].block.Fields?
  }

  function EntriesOf(data: Record, name: string): seq<Entry>
    requires HasBlock(data, name)
  {
    data[FindSpace(data, name)].block.entries
  }

  function WithEntries(data: Record, name: string, entries: seq<Entry>): (r: Record)
    requires HasBlock(data, name)
    ensures |r| == |data|
  {
    var k := FindSpace(data, name);
    data[k := data[k].(block := Fields(entries))]
  }

  function EraseFrom(digests: Digests, data: Record, name: string, id: string): (Record, bool) {
    if !HasBlock(data, name) then (data, false)
    else
      var (entries, ok) := Erase(digests(name), EntriesOf(data, name), id);
      (if ok then WithEntries(data, name, entries) else data, ok)
  }

  /** The text a correction stores. */
  function NewText(text: string): string {
    Clipped(Strip(text))
  }

  /** The record with one item corrected, before it is bounded; None for a raised refusal. */
  function Corrections(digests: Digests, check: string -> bool, data: Record, name: string, id: string, text: string):
    Option<(Record, Value)>
  {
    if NewText(text) == "" || !check(NewText(text)) || !HasBlock(data, name) then None
    else
      match Edit(digests(name), EntriesOf(data, name), id, NewText(text))
      case (entries, None) => None
      case (entries, Some(item)) => Some((WithEntries(data, name, entries), item))
  }

  function EditIn(caps: Caps, digests: Digests, check: string -> bool, data: Record, name: string, id: string, text: string):
    (Record, Option<Value>)
  {
    match Corrections(digests, check, data, name, id, text)
    case None => (data, None)
    case Some((edited, item)) => (Bounded(caps, edited), Some(item))
  }

  /** The first list of the namespace that has the id loses it. */
  method EraseEntry(digest: string -> string -> Digest, block: seq<Entry>, id: string)
    returns (after: seq<Entry>, erased: bool)
    ensures (after, erased) == Erase(digest, block, id)
  {
    var i := 0;
    while i < |block|
      invariant 0 <= i <= |block|
      invariant forall j :: 0 <= j < i ==> !Holds(digest, block[j], id)
    {
      if IsItems(block[i]) {
        var items := NormalizeItems(digest(block[i].key), None, block[i].values);
        var kept := Dropped(items, id);
        DroppedHolds(items, id);
        if |kept| != |items| {
          return block[i := block[i].(values := kept)], true;
        }
      }
      i := i + 1;
    }
    return block, false;
  }

  /** The first item of the namespace that has the id takes the new text and is pinned. */
  method EditEntry(digest: string -> string -> Digest, block: seq<Entry>, id: string, text: string)
    returns (after: seq<Entry>, item: Option<Value>)
    ensures (after, item) == Edit(digest, block, id, text)
  {
    var i := 0;
    while i < |block|
      invariant 0 <= i <= |block|
      invariant forall j :: 0 <= j < i ==> !Holds(digest, block[j], id)
    {
      if IsItems(block[i]) {
        var items := NormalizeItems(digest(block[i].key), None, block[i].values);
        var j := FirstHolder(items, id);
        if j < |items| {
          item := Some(Corrected(items[j], id, text));
          return block[i := block[i].(values := items[j := item.value])], item;
        }
      }
      i := i + 1;
    }
    return block, None;
  }

  /** The record of one robot, under its lock. */
  class MemoryFile {
    var data: Record

    constructor (stored: Record)
      ensures data == stored
    {
      data := stored;
    }

    method EraseItem(digests: Digests, name: string, id: string) returns (erased: bool)
      modifies this
      ensures (data, erased) == EraseFrom(digests, old(data), name, id)
    {
      if !HasBlock(data, name) {
        return false;
      }
      var after, ok := EraseEntry(digests(name), EntriesOf(data, name), id);
      if ok {
        data := WithEntries(data, name, after);
      }
      erased := ok;
    }

    /** The corrected item, or None for a refusal. What is stored goes through the caps, so
        the item returned need not be stored. */
    method EditItem(caps: Caps, digests: Digests, check: string -> bool, name: string, id: string, text: string)
      returns (item: Option<Value>)
      modifies this
      ensures (data, item) == EditIn(caps, digests, check, old(data), name, id, text)
    {
      var newText := NewText(text);
      if newText == "" || !check(newText) || !HasBlock(data, name) {
        return None;
      }
      var after, found := EditEntry(digests(name), EntriesOf(data, name), id, newText);
      if found.Some? {
        data := Bound(caps, WithEntries(data, name, after));
      }
      item := found;
    }
  }
}
