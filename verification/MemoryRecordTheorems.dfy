/** What the caps of a memory record keep, and when a correction is all that a correction
    changes. */
module MemoryRecordTheorems {
  import opened Wrappers
  import opened Text
  import opened MemoryItems
  import opened MemoryStore
  import opened MemoryTheorems
  import opened MemoryRecord

  // ----- within the caps ---------------------------------------------------------------------

  predicate ShortProvenance(p: Option<Provenance>) {
    p.Some? ==> |p.value.moduleId| <= MAX_MEMORY_ITEM_CHARS
  }

  /** No text too long, and no foreign value that would be reduced. */
  predicate FitsValue(caps: Caps, v: Value) {
    match v
    case Bare(t) => |t| <= MAX_MEMORY_ITEM_CHARS
    case Item(id, t, p, _, _, _) => |id| <= MAX_MEMORY_ITEM_CHARS && |t| <= MAX_MEMORY_ITEM_CHARS && ShortProvenance(p)
    case Other(h, r) => caps.reduceValue(h, r) == Some((h, r))
  }

  predicate FitsEntry(caps: Caps, e: Entry) {
    match e
    case Listed(_, vs) =>
      |vs| <= MAX_MEMORY_ITEMS && |vs| <= caps.items && forall k :: 0 <= k < |vs| ==> FitsValue(caps, vs[k])
    case Scalar(_, body) => caps.reduceBody(body) == Some(body)
  }

  predicate FitsSpace(caps: Caps, s: Space) {
    match s.block
    case Fields(entries) => forall k :: 0 <= k < |entries| ==> FitsEntry(caps, entries[k])
    case Foreign(body) => caps.reduceBody(body) == Some(body)
  }

  /** Every namespace, list and text within its cap. */
  predicate InForm(caps: Caps, data: Record) {
    (caps.spaces > 0 ==> |data| <= caps.spaces) && forall k :: 0 <= k < |data| ==> FitsSpace(caps, data[k])
  }

  /** And the whole within its length. */
  predicate WithinCaps(caps: Caps, data: Record) {
    InForm(caps, data) && (data == [] || caps.size(data) <= caps.bytes)
  }

  // ----- reductions that leave everything ------------------------------------------------------

  lemma {:induction false} KeptAll<T>(reduce: T -> Option<T>, xs: seq<T>)
    requires forall k :: 0 <= k < |xs| ==> reduce(xs[k]) == Some(xs[k])
    ensures Kept(reduce, xs) == xs
  {
    if xs != [] {
      KeptAll(reduce, xs[1..]);
    }
  }

  /** If nothing was dropped, each element gave the one in its place. */
  lemma {:induction false} KeptWhole<T>(reduce: T -> Option<T>, xs: seq<T>)
    requires |Kept(reduce, xs)| == |xs|
    ensures forall k :: 0 <= k < |xs| ==> reduce(xs[k]) == Some(Kept(reduce, xs)[k])
  {
    if xs != [] {
      KeptWhole(reduce, xs[1..]);
      forall k | 0 <= k < |xs| ensures reduce(xs[k]) == Some(Kept(reduce, xs)[k]) {
        if k > 0 {
          assert xs[k] == xs[1..][k - 1];
        }
      }
    }
  }

  lemma ValueStays(caps: Caps, v: Value)
    ensures SafeValue(caps, v) == Some(v) <==> FitsValue(caps, v)
  {
  }

  lemma ValuesStay(caps: Caps, vs: seq<Value>)
    ensures Take(SafeValues(caps, vs), caps.items) == vs
            <==> |vs| <= MAX_MEMORY_ITEMS && |vs| <= caps.items && forall k :: 0 <= k < |vs| ==> FitsValue(caps, vs[k])
  {
    var reduce := v => SafeValue(caps, v);
    forall k | 0 <= k < |vs| ensures reduce(vs[k]) == Some(vs[k]) <==> FitsValue(caps, vs[k]) {
      ValueStays(caps, vs[k]);
    }
    if Take(SafeValues(caps, vs), caps.items) == vs {
      assert Take(vs, MAX_MEMORY_ITEMS) == vs;
      assert Kept(reduce, vs) == vs;
      KeptWhole(reduce, vs);
    }
    if |vs| <= MAX_MEMORY_ITEMS && |vs| <= caps.items && forall k :: 0 <= k < |vs| ==> FitsValue(caps, vs[k]) {
      KeptAll(reduce, vs);
    }
  }

  /** One entry through both steps. */
  lemma EntryStays(caps: Caps, e: Entry)
    ensures (SafeEntry(caps, e).Some? && CutEntry(SafeEntry(caps, e).value, caps.items) == e) <==> FitsEntry(caps, e)
  {
    if e.Listed? {
      ValuesStay(caps, e.values);
    }
  }

  lemma EntriesStay(caps: Caps, es: seq<Entry>)
    ensures CutEntries(Kept(e => SafeEntry(caps, e), es), caps.items) == es
            <==> forall k :: 0 <= k < |es| ==> FitsEntry(caps, es[k])
  {
    var reduce := e => SafeEntry(caps, e);
    var kept := Kept(reduce, es);
    forall k | 0 <= k < |es|
      ensures (reduce(es[k]).Some? && CutEntry(reduce(es[k]).value, caps.items) == es[k]) <==> FitsEntry(caps, es[k])
    {
      EntryStays(caps, es[k]);
    }
    if CutEntries(kept, caps.items) == es {
      KeptWhole(reduce, es);
    }
    if forall k :: 0 <= k < |es| ==> FitsEntry(caps, es[k]) {
      NoneDropped(reduce, es);
      KeptWhole(reduce, es);
    }
  }

  lemma {:induction false} NoneDropped<T>(reduce: T -> Option<T>, xs: seq<T>)
    requires forall k :: 0 <= k < |xs| ==> reduce(xs[k]).Some?
    ensures |Kept(reduce, xs)| == |xs|
  {
    if xs != [] {
      NoneDropped(reduce, xs[1..]);
    }
  }

  lemma SpaceStays(caps: Caps, s: Space)
    ensures (SafeSpace(caps, s).Some? && CutSpace(SafeSpace(caps, s).value, caps.items) == s) <==> FitsSpace(caps, s)
  {
    if s.block.Fields? {
      EntriesStay(caps, s.block.entries);
    }
  }

  lemma SpacesStay(caps: Caps, data: Record)
    ensures TrimmedRecord(caps, data) == data <==> InForm(caps, data)
  {
    var reduce := s => SafeSpace(caps, s);
    forall k | 0 <= k < |data|
      ensures (reduce(data[k]).Some? && CutSpace(reduce(data[k]).value, caps.items) == data[k]) <==> FitsSpace(caps, data[k])
    {
      SpaceStays(caps, data[k]);
    }
    if TrimmedRecord(caps, data) == data {
      KeptWhole(reduce, data);
    }
    if InForm(caps, data) {
      NoneDropped(reduce, data);
      KeptWhole(reduce, data);
      assert TrimmedRecord(caps, data) == CutLists(Kept(reduce, data), caps.items);
    }
  }

  lemma {:induction false} ShrunkIs(size: Record -> nat, data: Record, bytes: nat)
    ensures var r := Shrunk(size, data, bytes);
            && r <= data && (size(r) <= bytes || r == [])
            && forall n :: |r| < n <= |data| ==> size(data[..n]) > bytes
    decreases |data|
  {
    if size(data) > bytes && data != [] {
      var front := data[..|data| - 1];
      ShrunkIs(size, front, bytes);
      var r := Shrunk(size, data, bytes);
      forall n | |r| < n <= |data| ensures size(data[..n]) > bytes {
        if n == |data| {
          assert data[..n] == data;
        } else {
          assert front[..n] == data[..n];
        }
      }
    } else {
      assert data[..|data|] == data;
    }
  }

  /** Bounding changes nothing exactly when the record is within every cap. */
  lemma BoundedStays(caps: Caps, data: Record)
    ensures Bounded(caps, data) == data <==> WithinCaps(caps, data)
  {
    var t := TrimmedRecord(caps, data);
    SpacesStay(caps, data);
    TrimmedNoLonger(caps, data);
    ShrunkIs(caps.size, t, caps.bytes);
    if Bounded(caps, data) == data {
      assert t[..|data|] == data && |t| <= |data|;
      assert t == data;
    }
  }

  lemma TrimmedNoLonger(caps: Caps, data: Record)
    ensures |TrimmedRecord(caps, data)| <= |data|
  {
  }

  // ----- what bounding leaves ----------------------------------------------------------------------

  /** Reducing a foreign value twice is reducing it once. */
  ghost predicate Settles(caps: Caps) {
    && (forall h, r {:trigger caps.reduceValue(h, r)} :: caps.reduceValue(h, r).Some? ==>
          caps.reduceValue(caps.reduceValue(h, r).value.0, caps.reduceValue(h, r).value.1) == caps.reduceValue(h, r))
    && (forall b {:trigger caps.reduceBody(b)} :: caps.reduceBody(b).Some? ==>
          caps.reduceBody(caps.reduceBody(b).value) == caps.reduceBody(b))
  }

  lemma {:induction false} KeptAre<T>(reduce: T -> Option<T>, xs: seq<T>, y: T)
    requires y in Kept(reduce, xs)
    ensures exists x :: x in xs && reduce(x) == Some(y)
  {
    if reduce(xs[0]) == Some(y) {
      assert xs[0] in xs;
    } else {
      KeptAre(reduce, xs[1..], y);
      var x :| x in xs[1..] && reduce(x) == Some(y);
      assert x in xs;
    }
  }

  lemma SafeFits(caps: Caps, v: Value)
    requires Settles(caps) && SafeValue(caps, v).Some?
    ensures FitsValue(caps, SafeValue(caps, v).value)
  {
  }

  lemma EntryFits(caps: Caps, e: Entry)
    requires Settles(caps) && SafeEntry(caps, e).Some?
    ensures FitsEntry(caps, CutEntry(SafeEntry(caps, e).value, caps.items))
  {
    if e.Listed? {
      var reduce := v => SafeValue(caps, v);
      var vs := SafeValues(caps, e.values);
      forall k | 0 <= k < |vs| ensures FitsValue(caps, vs[k]) {
        KeptAre(reduce, Take(e.values, MAX_MEMORY_ITEMS), vs[k]);
        var v :| v in Take(e.values, MAX_MEMORY_ITEMS) && reduce(v) == Some(vs[k]);
        SafeFits(caps, v);
      }
    }
  }

  lemma SpaceFits(caps: Caps, s: Space)
    requires Settles(caps) && SafeSpace(caps, s).Some?
    ensures FitsSpace(caps, CutSpace(SafeSpace(caps, s).value, caps.items))
  {
    if s.block.Fields? {
      var reduce := e => SafeEntry(caps, e);
      var es := Kept(reduce, s.block.entries);
      forall k | 0 <= k < |es| ensures FitsEntry(caps, CutEntry(es[k], caps.items)) {
        KeptAre(reduce, s.block.entries, es[k]);
        var e :| e in s.block.entries && reduce(e) == Some(es[k]);
        EntryFits(caps, e);
      }
    }
  }

  lemma TrimmedFits(caps: Caps, data: Record)
    requires Settles(caps)
    ensures InForm(caps, TrimmedRecord(caps, data))
  {
    var reduce := s => SafeSpace(caps, s);
    var newest := Newest(SafeRecord(caps, data), caps.spaces);
    forall k | 0 <= k < |newest| ensures FitsSpace(caps, CutSpace(newest[k], caps.items)) {
      assert newest[k] in SafeRecord(caps, data);
      KeptAre(reduce, data, newest[k]);
      var s :| s in data && reduce(s) == Some(newest[k]);
      SpaceFits(caps, s);
    }
  }

  /** A bounded record is within every cap, is the longest start of the trimmed one that fits,
      and bounding it again changes nothing. */
  lemma BoundKeeps(caps: Caps, data: Record)
    requires Settles(caps)
    ensures var t, r := TrimmedRecord(caps, data), Bounded(caps, data);
            && r <= t && WithinCaps(caps, r) && Bounded(caps, r) == r
            && forall n :: |r| < n <= |t| ==> caps.size(t[..n]) > caps.bytes
  {
    TrimmedFits(caps, data);
    ShrunkIs(caps.size, TrimmedRecord(caps, data), caps.bytes);
    BoundedStays(caps, Bounded(caps, data));
  }

  /** A namespace of what can be stored comes from the one of its name. */
  ghost predicate ReducedFrom(caps: Caps, data: Record, s: Space) {
    exists was :: was in data && was.name == s.name && SafeSpace(caps, was) == Some(s)
  }

  lemma SafeIsReduced(caps: Caps, data: Record, s: Space)
    requires s in SafeRecord(caps, data)
    ensures ReducedFrom(caps, data, s)
  {
    var reduce := was => SafeSpace(caps, was);
    KeptAre(reduce, data, s);
    var was :| was in data && reduce(was) == Some(s);
    assert was.name == s.name;
  }

  /** A namespace as it is after trimming: under its own name, each entry reduced, and each
      list a start of what could be stored of it. */
  lemma TrimmedIs(caps: Caps, data: Record, k: nat)
    requires k < |TrimmedRecord(caps, data)|
    ensures var t, safe := TrimmedRecord(caps, data), SafeRecord(caps, data);
            && |t| == (if caps.spaces > 0 && |safe| > caps.spaces then caps.spaces else |safe|)
            && t[k] == CutSpace(safe[|safe| - |t| + k], caps.items) && t[k].name == safe[|safe| - |t| + k].name
            && ReducedFrom(caps, data, safe[|safe| - |t| + k])
  {
    var t, safe := TrimmedRecord(caps, data), SafeRecord(caps, data);
    SafeIsReduced(caps, data, safe[|safe| - |t| + k]);
  }

  // ----- correcting -----------------------------------------------------------------------------------

  /** A correction answers with the item whenever the text is acceptable and the namespace has
      the id. What it stores is the bounded record, so it changes that one item and nothing
      else if and only if the corrected record is within the caps. */
  lemma EditStoresTheCorrection(caps: Caps, digests: Digests, check: string -> bool, data: Record,
                                name: string, id: string, text: string)
    ensures var (after, item) := EditIn(caps, digests, check, data, name, id, text);
            && (item.Some? <==> NewText(text) != "" && check(NewText(text)) && HasBlock(data, name)
                                && exists e :: e in EntriesOf(data, name) && Holds(digests(name), e, id))
            && (item.None? ==> after == data)
            && (item.Some? ==>
                  var (entries, _) := Edit(digests(name), EntriesOf(data, name), id, NewText(text));
                  var edited := WithEntries(data, name, entries);
                  && item.value.Item? && item.value.id == id && item.value.text == NewText(text) && item.value.pinned
                  && (forall k :: 0 <= k < |data| && k != FindSpace(data, name) ==> edited[k] == data[k])
                  && (after == edited <==> WithinCaps(caps, edited)))
  {
    if NewText(text) != "" && check(NewText(text)) && HasBlock(data, name) {
      var entries := Edit(digests(name), EntriesOf(data, name), id, NewText(text)).0;
      EditKeepsIds(digests(name), EntriesOf(data, name), id, NewText(text));
      BoundedStays(caps, WithEntries(data, name, entries));
    }
  }

  /** Which namespaces outlive a write that is too long: the one at `k` stays if and only if
      some start of the record that reaches past it fits. */
  lemma WhoSurvives(caps: Caps, data: Record, k: nat)
    requires InForm(caps, data) && k < |data|
    ensures var r := Bounded(caps, data);
            && r <= data && (k < |r| <==> exists n :: k < n <= |data| && caps.size(data[..n]) <= caps.bytes)
  {
    SpacesStay(caps, data);
    ShrunkIs(caps.size, data, caps.bytes);
    var r := Bounded(caps, data);
    if k < |r| {
      assert data[..|r|] == r;
    }
  }

  // ----- corrections that cost more -----------------------------------------------------------------------

  /** The length of some members of a JSON list or object, two characters between them. */
  function Spelled<T>(length: T -> nat, xs: seq<T>): nat {
    if xs == [] then 0 else length(xs[0]) + (if |xs| > 1 then 2 else 0) + Spelled(length, xs[1..])
  }

  /** `{"id": "…", "text": "…"}`, with `, "pinned": true` when it is. */
  function ValueLength(v: Value): nat {
    match v
    case Bare(t) => |t| + 2
    case Item(id, t, _, _, _, pinned) => 22 + |id| + |t| + (if pinned then 16 else 0)
    case Other(_, r) => |r|
  }

  function EntryLength(e: Entry): nat {
    |e.key| + 6 + if e.Listed? then Spelled(ValueLength, e.values) else 0
  }

  function SpaceLength(s: Space): nat {
    |s.name| + 6 + if s.block.Fields? then Spelled(EntryLength, s.block.entries) else 0
  }

  /** The length of a record as JSON, for plain characters and items without provenance or
      use clock. */
  function JsonLength(data: Record): nat {
    2 + Spelled(SpaceLength, data)
  }

  function OneItem(name: string, id: string, text: string, pinned: bool): Space {
    Space(name, Fields([Listed("facts", [Item(id, text, None, 0, 0, pinned)])]))
  }

  /** Two namespaces of one item each, and a cap they just keep to. */
  const STORED: Record := [OneItem("a", "1", "x", false), OneItem("b", "2", "y", false)]

  const TIGHT := Caps(32, 25, 88, JsonLength, (h, r) => Some((h, r)), b => Some(b))

  lemma SpelledOne<T>(length: T -> nat, x: T)
    ensures Spelled(length, [x]) == length(x)
  {
    assert [x][1..] == [];
  }

  lemma LengthOfOne(name: string, id: string, text: string, pinned: bool)
    ensures SpaceLength(OneItem(name, id, text, pinned)) == 39 + |name| + |id| + |text| + (if pinned then 16 else 0)
  {
    var item := Item(id, text, None, 0, 0, pinned);
    SpelledOne(ValueLength, item);
    SpelledOne(EntryLength, Listed("facts", [item]));
  }

  lemma LengthOfTwo(a: Space, b: Space)
    ensures JsonLength([a, b]) == 4 + SpaceLength(a) + SpaceLength(b) && JsonLength([a]) == 2 + SpaceLength(a)
  {
    SpelledOne(SpaceLength, a);
    SpelledOne(SpaceLength, b);
    assert [a, b][1..] == [b];
  }

  lemma OneItemFits(name: string, id: string, text: string, pinned: bool)
    requires |id| <= MAX_MEMORY_ITEM_CHARS && |text| <= MAX_MEMORY_ITEM_CHARS
    ensures FitsSpace(TIGHT, OneItem(name, id, text, pinned))
  {
  }

  lemma OnlyFirstFits(a: Space, b: Space)
    requires FitsSpace(TIGHT, a) && FitsSpace(TIGHT, b)
    requires 2 + SpaceLength(a) <= 88 < 4 + SpaceLength(a) + SpaceLength(b)
    ensures Bounded(TIGHT, [a, b]) == [a]
  {
    LengthOfTwo(a, b);
    SpacesStay(TIGHT, [a, b]);
    assert [a, b][..1] == [a];
    assert TIGHT.size([a, b]) == JsonLength([a, b]) && TIGHT.size([a]) == JsonLength([a]);
    assert Shrunk(TIGHT.size, [a], 88) == [a];
  }

  /** A correction that loses another namespace. The record was within its caps and the new
      text is no longer than the old one; but a correction pins, which is stored too. The item
      comes back corrected, and the second namespace is gone. */
  lemma CorrectionLosesAnother(digests: Digests)
    ensures var (after, item) := EditIn(TIGHT, digests, t => true, STORED, "a", "1", "z");
            && item == Some(Item("1", "z", None, 0, 0, true))
            && after == [OneItem("a", "1", "z", true)]
            && WithinCaps(TIGHT, STORED)
  {
    var a, b := OneItem("a", "1", "z", true), STORED[1];
    TheCorrection(digests, "a", "1", "x", "z", 0);
    assert WithEntries(STORED, "a", a.block.entries) == [a, b];
    OneItemFits("a", "1", "z", true);
    OneItemFits("b", "2", "y", false);
    LengthOfOne("a", "1", "z", true);
    LengthOfOne("b", "2", "y", false);
    OnlyFirstFits(a, b);
    StoredFits();
  }

  /** And one that loses the very namespace it corrects. */
  lemma CorrectionLosesItself(digests: Digests)
    ensures var (after, item) := EditIn(TIGHT, digests, t => true, STORED, "b", "2", "z");
            && item == Some(Item("2", "z", None, 0, 0, true))
            && after == [OneItem("a", "1", "x", false)]
  {
    var a, b := STORED[0], OneItem("b", "2", "z", true);
    TheCorrection(digests, "b", "2", "y", "z", 1);
    assert WithEntries(STORED, "b", b.block.entries) == [a, b];
    OneItemFits("a", "1", "x", false);
    OneItemFits("b", "2", "z", true);
    LengthOfOne("a", "1", "x", false);
    LengthOfOne("b", "2", "z", true);
    OnlyFirstFits(a, b);
  }

  lemma StoredFits()
    ensures WithinCaps(TIGHT, STORED)
  {
    LengthOfOne("a", "1", "x", false);
    LengthOfOne("b", "2", "y", false);
    LengthOfTwo(STORED[0], STORED[1]);
    OneItemFits("a", "1", "x", false);
    OneItemFits("b", "2", "y", false);
  }

  lemma OneListEdit(digest: string -> string -> Digest, id: string, was: string, text: string)
    requires id != ""
    ensures Edit(digest, [Listed("facts", [Item(id, was, None, 0, 0, false)])], id, text)
         == ([Listed("facts", [Item(id, text, None, 0, 0, true)])], Some(Item(id, text, None, 0, 0, true)))
  {
    var e := Listed("facts", [Item(id, was, None, 0, 0, false)]);
    assert ItemsOf(digest, e) == e.values;
    assert FirstHolder(e.values, id) == 0;
    assert IsItems(e) && Holds(digest, e, id);
    assert FirstList(digest, [e], id) == 0;
    var item := Item(id, text, None, 0, 0, true);
    assert Corrected(e.values[0], id, text) == item;
    assert e.values[0 := item] == [item];
    assert [e][0 := Listed("facts", [item])] == [Listed("facts", [item])];
  }

  lemma TheCorrection(digests: Digests, name: string, id: string, was: string, text: string, k: nat)
    requires k < 2 && STORED[k] == OneItem(name, id, was, false) && FindSpace(STORED, name) == k
    requires id != "" && text != "" && Text.Trimmed(text) && |text| <= MAX_MEMORY_ITEM_CHARS
    ensures NewText(text) == text
    ensures Edit(digests(name), EntriesOf(STORED, name), id, text)
         == (OneItem(name, id, text, true).block.entries, Some(Item(id, text, None, 0, 0, true)))
  {
    StripTrimmed(text);
    OneListEdit(digests(name), id, was, text);
  }
}
