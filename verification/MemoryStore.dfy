/** One namespace of a robot's memory: merging what was learned, and erasing or correcting
    one item. */
module MemoryStore {
  import opened Basics
  import opened Wrappers
  import opened MemoryItems

  // ----- merging one list -----------------------------------------------------------------------

  /** What makes two values the same memory: the folded text of an item, or the printed form
      of anything else. The two are compared as they are, so a foreign 5 is the text "5". */
  type Key = string

  function KeyOf(fold: string -> string, v: Value): Key {
    match v
    case Bare(t) => fold(t)
    case Item(_, t, _, _, _, _) => fold(t)
    case Other(_, r) => r
  }

  /** The stored copy of each text: the first item that has it. */
  function Prior(fold: string -> string, filed: seq<Value>): map<Key, Value> {
    if filed == [] then map[]
    else
      var before, last := Prior(fold, filed[..|filed| - 1]), filed[|filed| - 1];
      if last.Item? && KeyOf(fold, last) !in before then before[KeyOf(fold, last) := last] else before
  }

  /** A value on its way into the merged list, and whether it is the stored one. */
  datatype Copy = Copy(v: Value, stored: bool)

  /** The newest copy inherits the stored copy's id, pin and use clock. */
  function Carried(item: Value, was: Value): Value
    requires item.Item? && was.Item?
  {
    Item(if was.id != "" then was.id else item.id, item.text, item.prov,
         if was.uses > 0 && item.uses == 0 then was.uses else item.uses,
         if was.lastUsed > 0 && item.lastUsed == 0 then was.lastUsed else item.lastUsed,
         item.pinned || was.pinned)
  }

  ghost predicate AllItems(m: map<Key, Value>) {
    forall k :: k in m ==> m[k].Item?
  }

  function Settle(fold: string -> string, prior: map<Key, Value>, c: Copy): Value
    requires AllItems(prior)
  {
    var k := KeyOf(fold, c.v);
    if c.v.Item? && !c.stored && k in prior then Carried(c.v, prior[k]) else c.v
  }

  function MergeFrom(fold: string -> string, prior: map<Key, Value>, order: seq<Copy>, seen: set<Key>): seq<Value>
    requires AllItems(prior)
  {
    if order == [] then []
    else
      var k := KeyOf(fold, order[0].v);
      if k in seen then MergeFrom(fold, prior, order[1..], seen)
      else [Settle(fold, prior, order[0])] + MergeFrom(fold, prior, order[1..], seen + {k})
  }

  function Copies(vs: seq<Value>, stored: bool): (r: seq<Copy>)
    ensures |r| == |vs| && forall k :: 0 <= k < |r| ==> r[k] == Copy(vs[k], stored)
  {
    seq(|vs|, k requires 0 <= k < |vs| => Copy(vs[k], stored))
  }

  /** Newest first, or newest last. An old item that gets in is the stored one itself, as the
      first value with its key. */
  function Order(filed: seq<Value>, gained: seq<Value>, prepend: bool): seq<Copy> {
    if prepend then Copies(gained, false) + Copies(filed, true) else Copies(filed, true) + Copies(gained, false)
  }

  lemma {:induction false} PriorAreItems(fold: string -> string, filed: seq<Value>)
    ensures AllItems(Prior(fold, filed))
  {
    if filed != [] {
      PriorAreItems(fold, filed[..|filed| - 1]);
    }
  }

  /** The merged list before it is cut to its cap. */
  function Full(fold: string -> string, filed: seq<Value>, gained: seq<Value>, prepend: bool): seq<Value> {
    PriorAreItems(fold, filed);
    MergeFrom(fold, Prior(fold, filed), Order(filed, gained, prepend), {})
  }

  function Take(vs: seq<Value>, n: nat): (r: seq<Value>)
    ensures r <= vs
  {
    if |vs| > n then vs[..n] else vs
  }

  function MergeList(idOf: string -> Digest, fold: string -> string, onDisk: seq<Value>, learned: seq<Value>,
                     prov: Option<Provenance>, prepend: bool, maxItems: nat): seq<Value> {
    Take(Full(fold, Normalize(idOf, None, onDisk), Normalize(idOf, prov, learned), prepend), maxItems)
  }

  method ComputePrior(fold: string -> string, filed: seq<Value>) returns (prior: map<Key, Value>)
    ensures prior == Prior(fold, filed)
  {
    prior := map[];
    for i := 0 to |filed|
      invariant prior == Prior(fold, filed[..i])
    {
      assert filed[..i + 1][..i] == filed[..i];
      if filed[i].Item? && KeyOf(fold, filed[i]) !in prior {
        prior := prior[KeyOf(fold, filed[i]) := filed[i]];
      }
    }
    assert filed[..|filed|] == filed;
  }

  method Deduplicate(fold: string -> string, prior: map<Key, Value>, order: seq<Copy>) returns (out: seq<Value>)
    requires AllItems(prior)
    ensures out == MergeFrom(fold, prior, order, {})
  {
    out := [];
    var seen: set<Key> := {};
    for i := 0 to |order|
      invariant out + MergeFrom(fold, prior, order[i..], seen) == MergeFrom(fold, prior, order, {})
    {
      var c := order[i];
      var k := KeyOf(fold, c.v);
      if k !in seen {
        seen := seen + {k};
        var item := c.v;
        if c.v.Item? && !c.stored && k in prior {
          item := Carried(c.v, prior[k]);
        }
        out := out + [item];
      }
    }
  }

  method ComputeMerge(idOf: string -> Digest, fold: string -> string, onDisk: seq<Value>, learned: seq<Value>,
                      prov: Option<Provenance>, prepend: bool, maxItems: nat) returns (out: seq<Value>)
    ensures out == MergeList(idOf, fold, onDisk, learned, prov, prepend, maxItems)
  {
    var filed := NormalizeItems(idOf, None, onDisk);
    var prior := ComputePrior(fold, filed);
    PriorAreItems(fold, filed);
    var gained := NormalizeItems(idOf, prov, learned);
    out := Deduplicate(fold, prior, Order(filed, gained, prepend));
    out := Take(out, maxItems);
  }

  // ----- one item of a namespace ------------------------------------------------------------------

  /** One key of a namespace block: a list of values, or anything else. */
  datatype Entry = Listed(key: string, values: seq<Value>) | Scalar(key: string, body: int)

  /** A list of items; keys starting with an underscore are bookkeeping. */
  predicate IsItems(e: Entry) {
    e.Listed? && !(e.key != "" && e.key[0] == '_')
  }

  predicate HasId(v: Value, id: string) {
    (v.Item? && v.id == id) || (v.Other? && v.handle == Some(id))
  }

  function ItemsOf(digest: string -> string -> Digest, e: Entry): seq<Value>
    requires e.Listed?
  {
    Normalize(digest(e.key), None, e.values)
  }

  function Holder(id: string): Value -> bool {
    (v: Value) => HasId(v, id)
  }

  function Dropped(vs: seq<Value>, id: string): (r: seq<Value>)
    ensures |r| <= |vs|
  {
    Rejecting(Holder(id), vs)
  }

  function FirstHolder(vs: seq<Value>, id: string): (k: nat)
    ensures k <= |vs| && (k < |vs| ==> HasId(vs[k], id)) && forall j :: 0 <= j < k ==> !HasId(vs[j], id)
  {
    if vs == [] || HasId(vs[0], id) then 0 else 1 + FirstHolder(vs[1..], id)
  }

  predicate Holds(digest: string -> string -> Digest, e: Entry, id: string) {
    IsItems(e) && FirstHolder(ItemsOf(digest, e), id) < |e.values|
  }

  /** The first list that has the id. */
  function FirstList(digest: string -> string -> Digest, block: seq<Entry>, id: string): (k: nat)
    ensures k <= |block| && (k < |block| ==> Holds(digest, block[k], id))
    ensures forall j :: 0 <= j < k ==> !Holds(digest, block[j], id)
  {
    if block == [] || Holds(digest, block[0], id) then 0 else 1 + FirstList(digest, block[1..], id)
  }

  function Erase(digest: string -> string -> Digest, block: seq<Entry>, id: string): (seq<Entry>, bool) {
    var k := FirstList(digest, block, id);
    if k == |block| then (block, false)
    else (block[k := block[k].(values := Dropped(ItemsOf(digest, block[k]), id))], true)
  }

  /** The corrected item: the new sentence under the old id, pinned. */
  function Corrected(v: Value, id: string, text: string): Value {
    if v.Item? then v.(text := text, pinned := true) else Item(id, text, None, 0, 0, true)
  }

  function Edit(digest: string -> string -> Digest, block: seq<Entry>, id: string, text: string): (seq<Entry>, Option<Value>) {
    var k := FirstList(digest, block, id);
    if k == |block| then (block, None)
    else
      var items := ItemsOf(digest, block[k]);
      var j := FirstHolder(items, id);
      var item := Corrected(items[j], id, text);
      (block[k := block[k].(values := items[j := item])], Some(item))
  }

  lemma {:induction false} DroppedHolds(vs: seq<Value>, id: string)
    ensures |Dropped(vs, id)| != |vs| <==> FirstHolder(vs, id) < |vs|
    ensures |Dropped(vs, id)| == |vs| ==> Dropped(vs, id) == vs
  {
    if vs != [] {
      var front, last := vs[..|vs| - 1], vs[|vs| - 1];
      DroppedHolds(front, id);
      assert vs == front + [last];
      var a, b := FirstHolder(vs, id), FirstHolder(front, id);
      assert forall j :: 0 <= j < |front| ==> front[j] == vs[j];
      if b < |front| {
        assert HasId(vs[b], id);
      }
    }
  }
}
