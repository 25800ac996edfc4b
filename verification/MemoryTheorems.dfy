/** What merging, erasing and correcting the lists of one namespace guarantee. */
module MemoryTheorems {
  import opened Basics
  import opened Wrappers
  import opened MemoryItems
  import opened MemoryStore

  // ----- the keys of a merge ---------------------------------------------------------------------

  function Keys(fold: string -> string, vs: seq<Value>): set<Key> {
    if vs == [] then {} else {KeyOf(fold, vs[0])} + Keys(fold, vs[1..])
  }

  ghost predicate DistinctKeys(fold: string -> string, vs: seq<Value>) {
    forall j, k :: 0 <= j < k < |vs| ==> KeyOf(fold, vs[j]) != KeyOf(fold, vs[k])
  }

  function CopyKeys(fold: string -> string, cs: seq<Copy>): set<Key> {
    if cs == [] then {} else {KeyOf(fold, cs[0].v)} + CopyKeys(fold, cs[1..])
  }

  lemma {:induction false} KeysHave(fold: string -> string, vs: seq<Value>, k: Key)
    ensures k in Keys(fold, vs) <==> exists i :: 0 <= i < |vs| && KeyOf(fold, vs[i]) == k
  {
    if vs != [] {
      KeysHave(fold, vs[1..], k);
      if k in Keys(fold, vs[1..]) {
        var i :| 0 <= i < |vs[1..]| && KeyOf(fold, vs[1..][i]) == k;
        assert KeyOf(fold, vs[i + 1]) == k;
      }
      if i :| 0 <= i < |vs| && KeyOf(fold, vs[i]) == k {
        if i > 0 {
          assert KeyOf(fold, vs[1..][i - 1]) == k;
        }
      }
    }
  }

  lemma {:induction false} DistinctSize(fold: string -> string, vs: seq<Value>)
    requires DistinctKeys(fold, vs)
    ensures |Keys(fold, vs)| == |vs|
  {
    if vs != [] {
      DistinctSize(fold, vs[1..]);
      KeysHave(fold, vs[1..], KeyOf(fold, vs[0]));
    }
  }

  /** The merge lets each key in once, and only keys not seen before. */
  lemma {:induction false} MergeKeys(fold: string -> string, prior: map<Key, Value>, order: seq<Copy>, seen: set<Key>)
    requires AllItems(prior)
    ensures var out := MergeFrom(fold, prior, order, seen);
            Keys(fold, out) == CopyKeys(fold, order) - seen && DistinctKeys(fold, out)
  {
    if order != [] {
      var k := KeyOf(fold, order[0].v);
      if k in seen {
        MergeKeys(fold, prior, order[1..], seen);
      } else {
        MergeKeys(fold, prior, order[1..], seen + {k});
        var rest := MergeFrom(fold, prior, order[1..], seen + {k});
        ConsKeys(fold, Settle(fold, prior, order[0]), rest);
      }
    }
  }

  lemma ConsKeys(fold: string -> string, v: Value, rest: seq<Value>)
    requires DistinctKeys(fold, rest) && KeyOf(fold, v) !in Keys(fold, rest)
    ensures DistinctKeys(fold, [v] + rest) && Keys(fold, [v] + rest) == {KeyOf(fold, v)} + Keys(fold, rest)
  {
    var all := [v] + rest;
    assert all[1..] == rest;
    forall j, k | 0 <= j < k < |all| ensures KeyOf(fold, all[j]) != KeyOf(fold, all[k]) {
      assert all[k] == rest[k - 1];
      KeysHave(fold, rest, KeyOf(fold, all[k]));
      if j > 0 { assert all[j] == rest[j - 1]; }
    }
  }

  lemma {:induction false} CopyKeysConcat(fold: string -> string, a: seq<Copy>, b: seq<Copy>)
    ensures CopyKeys(fold, a + b) == CopyKeys(fold, a) + CopyKeys(fold, b)
  {
    if a == [] {
      assert a + b == b;
    } else {
      assert (a + b)[1..] == a[1..] + b;
      CopyKeysConcat(fold, a[1..], b);
    }
  }

  lemma {:induction false} CopyKeysAre(fold: string -> string, vs: seq<Value>, stored: bool)
    ensures CopyKeys(fold, Copies(vs, stored)) == Keys(fold, vs)
  {
    if vs != [] {
      assert Copies(vs, stored)[1..] == Copies(vs[1..], stored);
      CopyKeysAre(fold, vs[1..], stored);
    }
  }

  lemma FullKeys(fold: string -> string, filed: seq<Value>, gained: seq<Value>, prepend: bool)
    ensures var full := Full(fold, filed, gained, prepend);
            Keys(fold, full) == Keys(fold, filed) + Keys(fold, gained) && DistinctKeys(fold, full)
  {
    PriorAreItems(fold, filed);
    MergeKeys(fold, Prior(fold, filed), Order(filed, gained, prepend), {});
    CopyKeysAre(fold, filed, true);
    CopyKeysAre(fold, gained, false);
    if prepend {
      CopyKeysConcat(fold, Copies(gained, false), Copies(filed, true));
    } else {
      CopyKeysConcat(fold, Copies(filed, true), Copies(gained, false));
    }
  }

  lemma {:induction false} KeysOfTake(fold: string -> string, vs: seq<Value>, n: nat)
    requires DistinctKeys(fold, vs)
    ensures Keys(fold, Take(vs, n)) <= Keys(fold, vs) && DistinctKeys(fold, Take(vs, n))
    ensures Keys(fold, Take(vs, n)) == Keys(fold, vs) <==> |vs| <= n
  {
    var t := Take(vs, n);
    forall k | k in Keys(fold, t) ensures k in Keys(fold, vs) {
      KeysHave(fold, t, k);
      KeysHave(fold, vs, k);
    }
    assert DistinctKeys(fold, t);
    DistinctSize(fold, t);
    DistinctSize(fold, vs);
  }

  /** A merged list says nothing twice, keeps to its cap, and forgets no text of either side
      exactly when all of them fit. */
  lemma MergeUnion(idOf: string -> Digest, fold: string -> string, onDisk: seq<Value>, learned: seq<Value>,
                   prov: Option<Provenance>, prepend: bool, maxItems: nat)
    ensures var out := MergeList(idOf, fold, onDisk, learned, prov, prepend, maxItems);
            var all := Keys(fold, onDisk) + Keys(fold, learned);
            && DistinctKeys(fold, out) && |out| == (if |all| > maxItems then maxItems else |all|)
            && Keys(fold, out) <= all && (Keys(fold, out) == all <==> |all| <= maxItems)
  {
    var filed, gained := Normalize(idOf, None, onDisk), Normalize(idOf, prov, learned);
    NormalizeKeys(idOf, fold, None, onDisk);
    NormalizeKeys(idOf, fold, prov, learned);
    var full := Full(fold, filed, gained, prepend);
    FullKeys(fold, filed, gained, prepend);
    KeysOfTake(fold, full, maxItems);
    DistinctSize(fold, full);
  }

  lemma {:induction false} SameKeys(fold: string -> string, prov: Option<Provenance>, was: seq<Value>, now: seq<Value>)
    requires |was| == |now| && forall k :: 0 <= k < |now| ==> SameMemory(prov, was[k], now[k])
    ensures Keys(fold, was) == Keys(fold, now)
  {
    if was != [] {
      assert SameMemory(prov, was[0], now[0]);
      SameKeys(fold, prov, was[1..], now[1..]);
    }
  }

  lemma NormalizeKeys(idOf: string -> Digest, fold: string -> string, prov: Option<Provenance>, values: seq<Value>)
    ensures Keys(fold, Normalize(idOf, prov, values)) == Keys(fold, values)
  {
    NormalizeIsDistinct(idOf, prov, values);
    SameKeys(fold, prov, values, Normalize(idOf, prov, values));
  }

  /** Where a key first appears. */
  function Place(fold: string -> string, cs: seq<Copy>, k: Key): (n: nat)
    ensures n <= |cs|
  {
    if cs == [] || KeyOf(fold, cs[0].v) == k then 0 else 1 + Place(fold, cs[1..], k)
  }

  lemma {:induction false} MergedHasKey(fold: string -> string, prior: map<Key, Value>, order: seq<Copy>, seen: set<Key>, i: nat)
    requires AllItems(prior) && i < |MergeFrom(fold, prior, order, seen)|
    ensures KeyOf(fold, MergeFrom(fold, prior, order, seen)[i]) !in seen
  {
    MergeKeys(fold, prior, order, seen);
    KeysHave(fold, MergeFrom(fold, prior, order, seen), KeyOf(fold, MergeFrom(fold, prior, order, seen)[i]));
  }

  /** A merged list keeps the order of first appearance, so with new values in front what was
      just learned comes first, and a cut keeps it. */
  lemma {:induction false} MergeOrder(fold: string -> string, prior: map<Key, Value>, order: seq<Copy>, seen: set<Key>, i: nat, j: nat)
    requires AllItems(prior) && i < j < |MergeFrom(fold, prior, order, seen)|
    ensures var out := MergeFrom(fold, prior, order, seen);
            Place(fold, order, KeyOf(fold, out[i])) < Place(fold, order, KeyOf(fold, out[j]))
  {
    var k := KeyOf(fold, order[0].v);
    MergedHasKey(fold, prior, order, seen, i);
    MergedHasKey(fold, prior, order, seen, j);
    if k in seen {
      MergeOrder(fold, prior, order[1..], seen, i, j);
    } else {
      MergedHasKey(fold, prior, order[1..], seen + {k}, j - 1);
      if i > 0 {
        MergedHasKey(fold, prior, order[1..], seen + {k}, i - 1);
        MergeOrder(fold, prior, order[1..], seen + {k}, i - 1, j - 1);
      }
    }
  }

  // ----- what a merged item carries ------------------------------------------------------------------

  /** The first value with a key. */
  function First(fold: string -> string, vs: seq<Value>, k: Key): Option<Value> {
    if vs == [] then None
    else if KeyOf(fold, vs[0]) == k then Some(vs[0])
    else First(fold, vs[1..], k)
  }

  lemma {:induction false} FirstSnoc(fold: string -> string, vs: seq<Value>, last: Value, k: Key)
    ensures First(fold, vs + [last], k)
         == if First(fold, vs, k).Some? then First(fold, vs, k) else if KeyOf(fold, last) == k then Some(last) else None
  {
    if vs == [] {
      assert vs + [last] == [last];
      assert [last][1..] == [];
    } else {
      assert (vs + [last])[1..] == vs[1..] + [last];
      FirstSnoc(fold, vs[1..], last, k);
    }
  }

  /** The items of a list, without what is foreign. */
  function ItemsOnly(vs: seq<Value>): seq<Value> {
    if vs == [] then []
    else ItemsOnly(vs[..|vs| - 1]) + (if vs[|vs| - 1].Item? then [vs[|vs| - 1]] else [])
  }

  lemma {:induction false} ItemsOnlyAre(vs: seq<Value>)
    ensures forall v :: v in ItemsOnly(vs) <==> v in vs && v.Item?
  {
    if vs != [] {
      ItemsOnlyAre(vs[..|vs| - 1]);
      assert vs == vs[..|vs| - 1] + [vs[|vs| - 1]];
    }
  }

  /** The stored item under a key: the first that has it, whatever else does. */
  function StoredItem(fold: string -> string, filed: seq<Value>, k: Key): Option<Value> {
    First(fold, ItemsOnly(filed), k)
  }

  lemma {:induction false} PriorIsStored(fold: string -> string, filed: seq<Value>, k: Key)
    ensures StoredItem(fold, filed, k) == if k in Prior(fold, filed) then Some(Prior(fold, filed)[k]) else None
  {
    if filed != [] {
      var front, last := filed[..|filed| - 1], filed[|filed| - 1];
      PriorIsStored(fold, front, k);
      if last.Item? {
        FirstSnoc(fold, ItemsOnly(front), last, k);
      } else {
        assert ItemsOnly(front) + [] == ItemsOnly(front);
      }
    }
  }

  lemma StoredItemIs(fold: string -> string, filed: seq<Value>, k: Key)
    ensures var s := StoredItem(fold, filed, k);
            s.Some? ==> s.value in filed && s.value.Item? && KeyOf(fold, s.value) == k
  {
    FirstHasKey(fold, ItemsOnly(filed), k);
    ItemsOnlyAre(filed);
  }

  /** If the first value with a key is an item, it is the stored item. */
  lemma {:induction false} FirstIsStored(fold: string -> string, filed: seq<Value>, k: Key)
    requires First(fold, filed, k).Some? && First(fold, filed, k).value.Item?
    ensures StoredItem(fold, filed, k) == First(fold, filed, k)
    decreases |filed|
  {
    var front, last := filed[..|filed| - 1], filed[|filed| - 1];
    assert filed == front + [last];
    FirstSnoc(fold, front, last, k);
    if First(fold, front, k).Some? {
      FirstIsStored(fold, front, k);
    } else {
      NoneStored(fold, front, k);
    }
    if last.Item? {
      FirstSnoc(fold, ItemsOnly(front), last, k);
    } else {
      assert ItemsOnly(front) + [] == ItemsOnly(front);
    }
  }

  lemma {:induction false} NoneStored(fold: string -> string, filed: seq<Value>, k: Key)
    requires First(fold, filed, k).None?
    ensures StoredItem(fold, filed, k).None?
  {
    StoredItemIs(fold, filed, k);
    KeysHave(fold, filed, k);
    if v :| v in filed && KeyOf(fold, v) == k {
      HasFirst(fold, filed, v);
    }
  }

  lemma {:induction false} HasFirst(fold: string -> string, vs: seq<Value>, v: Value)
    requires v in vs
    ensures First(fold, vs, KeyOf(fold, v)).Some?
  {
    if KeyOf(fold, vs[0]) != KeyOf(fold, v) {
      HasFirst(fold, vs[1..], v);
    }
  }

  function FirstCopy(fold: string -> string, cs: seq<Copy>, k: Key): Option<Copy> {
    if cs == [] then None
    else if KeyOf(fold, cs[0].v) == k then Some(cs[0])
    else FirstCopy(fold, cs[1..], k)
  }

  lemma {:induction false} FirstCopyConcat(fold: string -> string, a: seq<Copy>, b: seq<Copy>, k: Key)
    ensures FirstCopy(fold, a + b, k) == if FirstCopy(fold, a, k).Some? then FirstCopy(fold, a, k) else FirstCopy(fold, b, k)
  {
    if a == [] {
      assert a + b == b;
    } else {
      assert (a + b)[1..] == a[1..] + b;
      FirstCopyConcat(fold, a[1..], b, k);
    }
  }

  lemma {:induction false} FirstOfCopies(fold: string -> string, vs: seq<Value>, stored: bool, k: Key)
    ensures FirstCopy(fold, Copies(vs, stored), k)
         == match First(fold, vs, k) case None => None case Some(v) => Some(Copy(v, stored))
  {
    if vs != [] {
      assert Copies(vs, stored)[1..] == Copies(vs[1..], stored);
      FirstOfCopies(fold, vs[1..], stored, k);
    }
  }

  lemma {:induction false} MergedComesFrom(fold: string -> string, prior: map<Key, Value>, order: seq<Copy>, seen: set<Key>, i: nat)
    requires AllItems(prior) && i < |MergeFrom(fold, prior, order, seen)|
    ensures var v := MergeFrom(fold, prior, order, seen)[i];
            var c := FirstCopy(fold, order, KeyOf(fold, v));
            KeyOf(fold, v) !in seen && c.Some? && v == Settle(fold, prior, c.value)
  {
    var k := KeyOf(fold, order[0].v);
    if k in seen {
      MergedComesFrom(fold, prior, order[1..], seen, i);
    } else {
      if i > 0 {
        MergedComesFrom(fold, prior, order[1..], seen + {k}, i - 1);
      }
    }
  }

  /** The value that gets in under a key: the first in the order of the merge. */
  function Winner(fold: string -> string, filed: seq<Value>, gained: seq<Value>, prepend: bool, k: Key): Option<Value> {
    var stored, came := First(fold, filed, k), First(fold, gained, k);
    if came.None? || (stored.Some? && !prepend) then stored else came
  }

  /** Does what was learned under a key get in? */
  predicate NewWins(fold: string -> string, filed: seq<Value>, gained: seq<Value>, prepend: bool, k: Key) {
    First(fold, gained, k).Some? && (prepend || First(fold, filed, k).None?)
  }

  /** A learned item with what the stored item of its text earned: its id, its pin, and its use
      clock unless the learned one brings its own. */
  predicate Inherits(came: Value, was: Value, now: Value)
    requires came.Item? && was.Item?
  {
    && now.Item? && now.text == came.text && now.prov == came.prov && now.id == was.id
    && (now.pinned <==> came.pinned || was.pinned)
    && now.uses == (if came.uses == 0 then was.uses else came.uses)
    && now.lastUsed == (if came.lastUsed == 0 then was.lastUsed else came.lastUsed)
  }

  lemma FirstHasKey(fold: string -> string, vs: seq<Value>, k: Key)
    ensures First(fold, vs, k).Some? ==> KeyOf(fold, First(fold, vs, k).value) == k && First(fold, vs, k).value in vs
  {
    if vs != [] && KeyOf(fold, vs[0]) != k {
      FirstHasKey(fold, vs[1..], k);
    }
  }

  /** Re-learning resets nothing: every entry of the merged list is the newest copy of its
      text carrying what the stored copy earned, or the value that got in as it is. */
  lemma MergedIsSettled(fold: string -> string, filed: seq<Value>, gained: seq<Value>, prepend: bool, i: nat)
    requires Migrated(filed) && Migrated(gained) && i < |Full(fold, filed, gained, prepend)|
    ensures var v := Full(fold, filed, gained, prepend)[i];
            var k := KeyOf(fold, v);
            var winner, item := Winner(fold, filed, gained, prepend, k), StoredItem(fold, filed, k);
            winner.Some? && (item.Some? ==> item.value.Item?)
            && if winner.value.Item? && NewWins(fold, filed, gained, prepend, k) && item.Some?
               then Inherits(winner.value, item.value, v) else v == winner.value
  {
    var full, prior := Full(fold, filed, gained, prepend), Prior(fold, filed);
    var k := KeyOf(fold, full[i]);
    PriorAreItems(fold, filed);
    MergedComesFrom(fold, prior, Order(filed, gained, prepend), {}, i);
    FirstOfCopies(fold, filed, true, k);
    FirstOfCopies(fold, gained, false, k);
    if prepend {
      FirstCopyConcat(fold, Copies(gained, false), Copies(filed, true), k);
    } else {
      FirstCopyConcat(fold, Copies(filed, true), Copies(gained, false), k);
    }
    FirstHasKey(fold, filed, k);
    FirstHasKey(fold, gained, k);
    PriorIsStored(fold, filed, k);
    StoredItemIs(fold, filed, k);
  }

  // ----- ids after a merge --------------------------------------------------------------------------------

  /** An item gets in under this key. */
  predicate Stands(fold: string -> string, filed: seq<Value>, gained: seq<Value>, prepend: bool, k: Key) {
    var v := Winner(fold, filed, gained, prepend, k);
    v.Some? && v.value.Item?
  }

  /** The id it has: the stored item's, else its own. */
  function IdUnder(fold: string -> string, filed: seq<Value>, gained: seq<Value>, k: Key): Option<string> {
    var item, came := StoredItem(fold, filed, k), First(fold, gained, k);
    if item.Some? && item.value.Item? then Some(item.value.id)
    else if came.Some? && came.value.Item? then Some(came.value.id)
    else None
  }

  lemma MergedId(fold: string -> string, filed: seq<Value>, gained: seq<Value>, prepend: bool, i: nat)
    requires Migrated(filed) && Migrated(gained) && i < |Full(fold, filed, gained, prepend)|
    ensures var v := Full(fold, filed, gained, prepend)[i];
            var k := KeyOf(fold, v);
            (v.Item? <==> Stands(fold, filed, gained, prepend, k)) && (v.Item? ==> Some(v.id) == IdUnder(fold, filed, gained, k))
  {
    var v := Full(fold, filed, gained, prepend)[i];
    var k := KeyOf(fold, v);
    MergedIsSettled(fold, filed, gained, prepend, i);
    StoredItemIs(fold, filed, k);
    if First(fold, filed, k).Some? && First(fold, filed, k).value.Item? {
      FirstIsStored(fold, filed, k);
    } else if First(fold, filed, k).None? {
      NoneStored(fold, filed, k);
    }
  }

  /** The learned item at `i` is new to the stored items and got the id of the stored one at
      `j`, and an item gets in under either key. */
  predicate ClashAt(fold: string -> string, filed: seq<Value>, gained: seq<Value>, prepend: bool, i: int, j: int) {
    && 0 <= i < |gained| && 0 <= j < |filed| && gained[i].Item? && filed[j].Item? && gained[i].id == filed[j].id
    && StoredItem(fold, filed, KeyOf(fold, gained[i])).None?
    && First(fold, gained, KeyOf(fold, gained[i])) == Some(gained[i])
    && StoredItem(fold, filed, KeyOf(fold, filed[j])) == Some(filed[j])
    && Stands(fold, filed, gained, prepend, KeyOf(fold, gained[i]))
    && Stands(fold, filed, gained, prepend, KeyOf(fold, filed[j]))
  }

  /** Two keys of a merge that end up with one id are those of a clash. */
  lemma TwinsClash(fold: string -> string, filed: seq<Value>, gained: seq<Value>, prepend: bool, a: Key, b: Key) returns (i: int, j: int)
    requires Migrated(filed) && Migrated(gained) && DistinctIds(filed) && DistinctIds(gained) && a != b
    requires Stands(fold, filed, gained, prepend, a) && Stands(fold, filed, gained, prepend, b)
    requires IdUnder(fold, filed, gained, a).Some? && IdUnder(fold, filed, gained, a) == IdUnder(fold, filed, gained, b)
    ensures ClashAt(fold, filed, gained, prepend, i, j)
    ensures (KeyOf(fold, gained[i]) == a && KeyOf(fold, filed[j]) == b) || (KeyOf(fold, gained[i]) == b && KeyOf(fold, filed[j]) == a)
  {
    StoredItemIs(fold, filed, a);
    StoredItemIs(fold, filed, b);
    FirstHasKey(fold, gained, a);
    FirstHasKey(fold, gained, b);
    if StoredItem(fold, filed, a).Some? {
      if StoredItem(fold, filed, b).Some? {
        OneHolder(filed, StoredItem(fold, filed, a).value, StoredItem(fold, filed, b).value);
      }
      i, j := CrossClash(fold, filed, gained, prepend, a, b);
    } else {
      i, j := CrossClash(fold, filed, gained, prepend, b, a);
    }
  }

  /** With different ids, an id tells which item it is. */
  lemma OneHolder(vs: seq<Value>, v: Value, w: Value)
    requires DistinctIds(vs) && v in vs && w in vs && v.Item? && w.Item? && v.id == w.id
    ensures v == w
  {
    var i :| 0 <= i < |vs| && vs[i] == v;
    var j :| 0 <= j < |vs| && vs[j] == w;
  }

  lemma CrossClash(fold: string -> string, filed: seq<Value>, gained: seq<Value>, prepend: bool, stored: Key, recent: Key)
    returns (i: int, j: int)
    requires Stands(fold, filed, gained, prepend, stored) && Stands(fold, filed, gained, prepend, recent)
    requires StoredItem(fold, filed, stored).Some? && StoredItem(fold, filed, stored).value.Item?
    requires StoredItem(fold, filed, recent).None?
    requires First(fold, gained, recent).Some? && First(fold, gained, recent).value.Item?
    requires StoredItem(fold, filed, stored).value.id == First(fold, gained, recent).value.id
    ensures ClashAt(fold, filed, gained, prepend, i, j) && KeyOf(fold, gained[i]) == recent && KeyOf(fold, filed[j]) == stored
  {
    StoredItemIs(fold, filed, stored);
    FirstHasKey(fold, gained, recent);
    var s, n := StoredItem(fold, filed, stored).value, First(fold, gained, recent).value;
    j :| 0 <= j < |filed| && filed[j] == s;
    i :| 0 <= i < |gained| && gained[i] == n;
  }

  // ----- which texts survive the cut ------------------------------------------------------------

  /** How many different texts stand before one. */
  function Rank(fold: string -> string, order: seq<Copy>, k: Key): nat {
    |CopyKeys(fold, order[..Place(fold, order, k)])|
  }

  /** The same, counted from the front, without those seen. */
  function NewBefore(fold: string -> string, order: seq<Copy>, k: Key, seen: set<Key>): nat {
    if order == [] || KeyOf(fold, order[0].v) == k then 0
    else if KeyOf(fold, order[0].v) in seen then NewBefore(fold, order[1..], k, seen)
    else 1 + NewBefore(fold, order[1..], k, seen + {KeyOf(fold, order[0].v)})
  }

  lemma SeenAddsNone<T>(first: T, before: set<T>, seen: set<T>)
    requires first in seen
    ensures {first} + before - seen == before - seen
  {
  }

  lemma NewAddsOne<T>(first: T, before: set<T>, seen: set<T>)
    requires first !in seen
    ensures |{first} + before - seen| == 1 + |before - (seen + {first})|
  {
    assert {first} + before - seen == {first} + (before - (seen + {first}));
  }

  lemma ConsCopyKeys(fold: string -> string, order: seq<Copy>, k: Key)
    requires order != [] && KeyOf(fold, order[0].v) != k
    ensures CopyKeys(fold, order[..Place(fold, order, k)])
         == {KeyOf(fold, order[0].v)} + CopyKeys(fold, order[1..][..Place(fold, order[1..], k)])
  {
    var n := Place(fold, order[1..], k);
    assert order[..n + 1][1..] == order[1..][..n];
  }

  lemma {:induction false} NewBeforeCounts(fold: string -> string, order: seq<Copy>, k: Key, seen: set<Key>)
    ensures NewBefore(fold, order, k, seen) == |CopyKeys(fold, order[..Place(fold, order, k)]) - seen|
  {
    if order == [] || KeyOf(fold, order[0].v) == k {
      assert order[..0] == [];
      assert CopyKeys(fold, []) - seen == {};
    } else {
      var first := KeyOf(fold, order[0].v);
      var before := CopyKeys(fold, order[1..][..Place(fold, order[1..], k)]);
      ConsCopyKeys(fold, order, k);
      if first in seen {
        NewBeforeCounts(fold, order[1..], k, seen);
        SeenAddsNone(first, before, seen);
      } else {
        NewBeforeCounts(fold, order[1..], k, seen + {first});
        NewAddsOne(first, before, seen);
      }
    }
  }

  /** A key's entry stands as far down the merged list as there are new keys before it. */
  lemma {:induction false} RankIsIndex(fold: string -> string, prior: map<Key, Value>, order: seq<Copy>, seen: set<Key>, i: nat)
    requires AllItems(prior) && i < |MergeFrom(fold, prior, order, seen)|
    ensures NewBefore(fold, order, KeyOf(fold, MergeFrom(fold, prior, order, seen)[i]), seen) == i
  {
    var first := KeyOf(fold, order[0].v);
    MergedHasKey(fold, prior, order, seen, i);
    if first in seen {
      RankIsIndex(fold, prior, order[1..], seen, i);
    } else if i > 0 {
      RankIsIndex(fold, prior, order[1..], seen + {first}, i - 1);
      MergedHasKey(fold, prior, order[1..], seen + {first}, i - 1);
    }
  }

  lemma IndexIsRank(fold: string -> string, filed: seq<Value>, gained: seq<Value>, prepend: bool, i: nat)
    requires i < |Full(fold, filed, gained, prepend)|
    ensures Rank(fold, Order(filed, gained, prepend), KeyOf(fold, Full(fold, filed, gained, prepend)[i])) == i
  {
    PriorAreItems(fold, filed);
    var order, k := Order(filed, gained, prepend), KeyOf(fold, Full(fold, filed, gained, prepend)[i]);
    RankIsIndex(fold, Prior(fold, filed), order, {}, i);
    NewBeforeCounts(fold, order, k, {});
    assert CopyKeys(fold, order[..Place(fold, order, k)]) - {} == CopyKeys(fold, order[..Place(fold, order, k)]);
  }

  /** A clash both of whose texts are among the first `n` different ones. */
  predicate ClashWithin(fold: string -> string, filed: seq<Value>, gained: seq<Value>, prepend: bool, n: nat) {
    exists i, j :: 0 <= i < |gained| && 0 <= j < |filed| && ClashAt(fold, filed, gained, prepend, i, j)
      && Rank(fold, Order(filed, gained, prepend), KeyOf(fold, gained[i])) < n
      && Rank(fold, Order(filed, gained, prepend), KeyOf(fold, filed[j])) < n
  }

  /** Merging two migrated lists keeps ids apart exactly when no newly learned text has the id
      of a stored item of another text, both among those that survive the cut. */
  lemma CutIds(fold: string -> string, filed: seq<Value>, gained: seq<Value>, prepend: bool, n: nat)
    requires Migrated(filed) && Migrated(gained) && DistinctIds(filed) && DistinctIds(gained)
    ensures DistinctIds(Take(Full(fold, filed, gained, prepend), n)) <==> !ClashWithin(fold, filed, gained, prepend, n)
  {
    var full := Full(fold, filed, gained, prepend);
    var out := Take(full, n);
    if ClashWithin(fold, filed, gained, prepend, n) {
      var i, j :| 0 <= i < |gained| && 0 <= j < |filed| && ClashAt(fold, filed, gained, prepend, i, j)
        && Rank(fold, Order(filed, gained, prepend), KeyOf(fold, gained[i])) < n
        && Rank(fold, Order(filed, gained, prepend), KeyOf(fold, filed[j])) < n;
      var a, b := ClashMakesTwins(fold, filed, gained, prepend, i, j);
      IndexIsRank(fold, filed, gained, prepend, a);
      IndexIsRank(fold, filed, gained, prepend, b);
      assert out[a] == full[a] && out[b] == full[b];
    } else {
      FullKeys(fold, filed, gained, prepend);
      forall a, b | 0 <= a < b < |out| && out[a].Item? && out[b].Item? ensures out[a].id != out[b].id {
        if full[a].id == full[b].id {
          NoTwins(fold, filed, gained, prepend, n, a, b);
        }
      }
    }
  }

  lemma NoTwins(fold: string -> string, filed: seq<Value>, gained: seq<Value>, prepend: bool, n: nat, a: nat, b: nat)
    requires Migrated(filed) && Migrated(gained) && DistinctIds(filed) && DistinctIds(gained)
    requires a < b < n && b < |Full(fold, filed, gained, prepend)|
    requires Full(fold, filed, gained, prepend)[a].Item? && Full(fold, filed, gained, prepend)[b].Item?
    requires Full(fold, filed, gained, prepend)[a].id == Full(fold, filed, gained, prepend)[b].id
    ensures ClashWithin(fold, filed, gained, prepend, n)
  {
    var full := Full(fold, filed, gained, prepend);
    FullKeys(fold, filed, gained, prepend);
    MergedId(fold, filed, gained, prepend, a);
    MergedId(fold, filed, gained, prepend, b);
    var i, j := TwinsClash(fold, filed, gained, prepend, KeyOf(fold, full[a]), KeyOf(fold, full[b]));
    IndexIsRank(fold, filed, gained, prepend, a);
    IndexIsRank(fold, filed, gained, prepend, b);
  }

  /** The ids of a merged list as it is returned: pairwise different exactly when no newly
      learned item got the id of a stored item of another text, an item gets in under both,
      and the cap keeps both. */
  lemma MergeIds(idOf: string -> Digest, fold: string -> string, onDisk: seq<Value>, learned: seq<Value>,
                 prov: Option<Provenance>, prepend: bool, maxItems: nat)
    ensures DistinctIds(MergeList(idOf, fold, onDisk, learned, prov, prepend, maxItems))
            <==> !ClashWithin(fold, Normalize(idOf, None, onDisk), Normalize(idOf, prov, learned), prepend, maxItems)
  {
    NormalizeIsDistinct(idOf, None, onDisk);
    NormalizeIsDistinct(idOf, prov, learned);
    CutIds(fold, Normalize(idOf, None, onDisk), Normalize(idOf, prov, learned), prepend, maxItems);
  }

  lemma EntryOf(fold: string -> string, filed: seq<Value>, gained: seq<Value>, prepend: bool, v: Value) returns (i: nat)
    requires v in filed || v in gained
    ensures i < |Full(fold, filed, gained, prepend)| && KeyOf(fold, Full(fold, filed, gained, prepend)[i]) == KeyOf(fold, v)
  {
    var full, k := Full(fold, filed, gained, prepend), KeyOf(fold, v);
    FullKeys(fold, filed, gained, prepend);
    KeysHave(fold, filed, k);
    KeysHave(fold, gained, k);
    KeysHave(fold, full, k);
    i :| 0 <= i < |full| && KeyOf(fold, full[i]) == k;
  }

  lemma ClashMakesTwins(fold: string -> string, filed: seq<Value>, gained: seq<Value>, prepend: bool, i: int, j: int)
    returns (a: nat, b: nat)
    requires Migrated(filed) && Migrated(gained) && ClashAt(fold, filed, gained, prepend, i, j)
    ensures var full := Full(fold, filed, gained, prepend);
            && a < |full| && b < |full| && a != b && full[a].Item? && full[b].Item? && full[a].id == full[b].id
            && KeyOf(fold, full[a]) == KeyOf(fold, gained[i]) && KeyOf(fold, full[b]) == KeyOf(fold, filed[j])
  {
    a := EntryOf(fold, filed, gained, prepend, gained[i]);
    b := EntryOf(fold, filed, gained, prepend, filed[j]);
    MergedId(fold, filed, gained, prepend, a);
    MergedId(fold, filed, gained, prepend, b);
  }

  lemma {:induction false} MergeIsNoLonger(fold: string -> string, prior: map<Key, Value>, order: seq<Copy>, seen: set<Key>)
    requires AllItems(prior)
    ensures |MergeFrom(fold, prior, order, seen)| <= |order|
  {
    if order != [] {
      MergeIsNoLonger(fold, prior, order[1..], seen);
      MergeIsNoLonger(fold, prior, order[1..], seen + {KeyOf(fold, order[0].v)});
    }
  }

  lemma FirstOfOne(fold: string -> string, v: Value, k: Key)
    ensures First(fold, [v], k) == if KeyOf(fold, v) == k then Some(v) else None
  {
    assert [v][1..] == [];
  }

  lemma OneClash(id: string, was: string, corrected: string, prepend: bool, n: nat)
    requires was != corrected && id != "" && n >= 2
    ensures var filed, gained := [Item(id, corrected, None, 0, 0, true)], [Item(id, was, None, 0, 0, false)];
            !DistinctIds(Take(Full(x => x, filed, gained, prepend), n))
  {
    var fold := (x: string) => x;
    var filed, gained := [Item(id, corrected, None, 0, 0, true)], [Item(id, was, None, 0, 0, false)];
    FirstOfOne(fold, filed[0], was);
    FirstOfOne(fold, filed[0], corrected);
    FirstOfOne(fold, gained[0], was);
    FirstOfOne(fold, gained[0], corrected);
    FirstIsStored(fold, filed, corrected);
    NoneStored(fold, filed, was);
    assert ClashAt(fold, filed, gained, prepend, 0, 0);
    var a, b := ClashMakesTwins(fold, filed, gained, prepend, 0, 0);
    PriorAreItems(fold, filed);
    MergeIsNoLonger(fold, Prior(fold, filed), Order(filed, gained, prepend), {});
  }

  /** Correcting an item and then learning its old sentence again puts one id on two items,
      whenever the list has room for both. */
  lemma RelearningACorrectedText(idOf: string -> Digest, was: string, corrected: string, prepend: bool, maxItems: nat)
    requires was != corrected && maxItems >= 2
    ensures var filed := [Item(idOf(was), corrected, None, 0, 0, true)];
            !DistinctIds(MergeList(idOf, x => x, filed, [Bare(was)], None, prepend, maxItems))
  {
    var onDisk := [Item(idOf(was), corrected, None, 0, 0, true)];
    assert Normalize(idOf, None, onDisk) == onDisk;
    assert Normalize(idOf, None, [Bare(was)]) == [Item(idOf(was), was, None, 0, 0, false)];
    OneClash(idOf(was), was, corrected, prepend, maxItems);
  }

  // ----- erasing ---------------------------------------------------------------------------------------

  /** How many values of a list answer to an id. */
  function Holders(vs: seq<Value>, id: string): nat {
    if vs == [] then 0 else Holders(vs[..|vs| - 1], id) + (if HasId(vs[|vs| - 1], id) then 1 else 0)
  }

  lemma {:induction false} DroppedCounts(vs: seq<Value>, id: string)
    ensures |Dropped(vs, id)| + Holders(vs, id) == |vs|
  {
    if vs != [] {
      DroppedCounts(vs[..|vs| - 1], id);
    }
  }

  /** Dropping the one holder at `j` leaves everything else in place. */
  lemma OneDropped(vs: seq<Value>, id: string, j: nat)
    requires j < |vs| && HasId(vs[j], id) && forall k :: 0 <= k < |vs| && k != j ==> !HasId(vs[k], id)
    ensures Dropped(vs, id) == vs[..j] + vs[j + 1..] && Holders(vs, id) == 1
  {
    var a, b := vs[..j], vs[j + 1..];
    assert vs == a + ([vs[j]] + b);
    forall k | 0 <= k < |b| ensures !HasId(b[k], id) {
      assert b[k] == vs[j + 1 + k];
    }
    RejectingNone(Holder(id), a);
    RejectingNone(Holder(id), b);
    RejectingConcat(Holder(id), a, [vs[j]] + b);
    RejectingConcat(Holder(id), [vs[j]], b);
    DroppedCounts(vs, id);
    assert [vs[j]][..0] == [];
  }

  /** No foreign value of the list answers to the id. */
  predicate OnlyItems(vs: seq<Value>, id: string) {
    forall k :: 0 <= k < |vs| && HasId(vs[k], id) ==> vs[k].Item?
  }

  /** A list of remembered items that has the id; keys that start with an underscore are none. */
  ghost predicate ListHas(digest: string -> string -> Digest, e: Entry, id: string) {
    && e.Listed? && (e.key == "" || e.key[0] != '_')
    && exists k :: 0 <= k < |e.values| && HasId(ItemsOf(digest, e)[k], id)
  }

  lemma HoldsIs(digest: string -> string -> Digest, e: Entry, id: string)
    ensures Holds(digest, e, id) <==> ListHas(digest, e, id)
  {
    if Holds(digest, e, id) {
      assert HasId(ItemsOf(digest, e)[FirstHolder(ItemsOf(digest, e), id)], id);
    }
  }

  /** The list an erase or a correction touches: the first that has the id. */
  ghost predicate FirstThatHas(digest: string -> string -> Digest, block: seq<Entry>, k: nat, id: string) {
    && (k < |block| ==> ListHas(digest, block[k], id)) && forall i :: 0 <= i < |block| && i < k ==> !ListHas(digest, block[i], id)
  }

  lemma FirstListIs(digest: string -> string -> Digest, block: seq<Entry>, id: string)
    ensures FirstThatHas(digest, block, FirstList(digest, block, id), id)
  {
    forall i | 0 <= i < |block| ensures Holds(digest, block[i], id) <==> ListHas(digest, block[i], id) {
      HoldsIs(digest, block[i], id);
    }
  }

  /** Erasing an id touches only the first list that has it, and there takes away everything
      that answers to it; when those are items, that is exactly one, and nothing moves. It
      refuses exactly when no list has the id. */
  lemma EraseRemovesOne(digest: string -> string -> Digest, block: seq<Entry>, id: string)
    ensures var (after, ok) := Erase(digest, block, id);
            var k := FirstList(digest, block, id);
            && FirstThatHas(digest, block, k, id) && (ok <==> k < |block|)
            && (!ok ==> after == block)
            && (ok ==>
                  && k < |block| == |after| && (forall i :: 0 <= i < |block| && i != k ==> after[i] == block[i])
                  && after[k].Listed? && after[k].key == block[k].key
                  && var items, j := ItemsOf(digest, block[k]), FirstHolder(ItemsOf(digest, block[k]), id);
                     && |after[k].values| == |items| - Holders(items, id) && Holders(items, id) >= 1
                     && j < |items|
                     && (OnlyItems(items, id) ==> Holders(items, id) == 1 && after[k].values == items[..j] + items[j + 1..]))
  {
    var k := FirstList(digest, block, id);
    FirstListIs(digest, block, id);
    if k < |block| {
      var items := ItemsOf(digest, block[k]);
      DroppedCounts(items, id);
      DroppedHolds(items, id);
      if OnlyItems(items, id) {
        OnlyOneHolder(digest, block[k], id);
        OneDropped(items, id, FirstHolder(items, id));
      }
    }
  }

  /** The ids of a migrated list differ, so an id has one item. */
  lemma OnlyOneHolder(digest: string -> string -> Digest, e: Entry, id: string)
    requires Holds(digest, e, id) && OnlyItems(ItemsOf(digest, e), id)
    ensures var items, j := ItemsOf(digest, e), FirstHolder(ItemsOf(digest, e), id);
            j < |items| && forall k :: 0 <= k < |items| && k != j ==> !HasId(items[k], id)
  {
    var items, j := ItemsOf(digest, e), FirstHolder(ItemsOf(digest, e), id);
    NormalizeIsDistinct(digest(e.key), None, e.values);
    forall k | 0 <= k < |items| && k != j ensures !HasId(items[k], id) {
    }
  }

  /** A foreign record that carries the id goes with the item. */
  lemma EraseTakesForeignValues(digest: string -> string -> Digest)
    ensures var block := [Listed("facts", [Item("a", "x", None, 0, 0, false), Other(Some("a"), "{'id': 'a'}")])];
            Erase(digest, block, "a") == ([Listed("facts", [])], true)
  {
    var vs := [Item("a", "x", None, 0, 0, false), Other(Some("a"), "{'id': 'a'}")];
    var e := Listed("facts", vs);
    DistinctIsKept(digest("facts"), vs, {});
    assert ItemsOf(digest, e) == vs;
    assert Holds(digest, e, "a");
    assert [e][0 := Listed("facts", [])] == [Listed("facts", [])];
  }

  // ----- correcting ------------------------------------------------------------------------------------

  /** A list with one item corrected is still migrated. */
  lemma CorrectedStays(idOf: string -> Digest, items: seq<Value>, id: string, text: string)
    requires Migrated(items) && DistinctIds(items) && OnlyItems(items, id) && FirstHolder(items, id) < |items|
    ensures var now := items[FirstHolder(items, id) := Corrected(items[FirstHolder(items, id)], id, text)];
            Normalize(idOf, None, now) == now
  {
    DistinctIsKept(idOf, items[FirstHolder(items, id) := Corrected(items[FirstHolder(items, id)], id, text)], {});
  }

  /** Correcting an item keeps its place, id, provenance and use clock, and every other id, text
      and list. */
  lemma EditKeepsIds(digest: string -> string -> Digest, block: seq<Entry>, id: string, text: string)
    ensures var (after, item) := Edit(digest, block, id, text);
            var k := FirstList(digest, block, id);
            && FirstThatHas(digest, block, k, id) && (item.Some? <==> k < |block|)
            && (item.None? ==> after == block)
            && (item.Some? ==>
                  && item.value.Item? && item.value.id == id && item.value.text == text && item.value.pinned
                  && k < |block| == |after| && (forall i :: 0 <= i < |block| && i != k ==> after[i] == block[i])
                  && after[k].Listed?
                  && var items, j := ItemsOf(digest, block[k]), FirstHolder(ItemsOf(digest, block[k]), id);
                     && j < |items| == |after[k].values| && after[k].values[j] == item.value
                     && (items[j].Item? ==> item.value.prov == items[j].prov && item.value.uses == items[j].uses
                                            && item.value.lastUsed == items[j].lastUsed)
                     && (forall i :: 0 <= i < |items| && i != j ==> after[k].values[i] == items[i])
                     && (OnlyItems(items, id) ==> ItemsOf(digest, after[k]) == after[k].values))
  {
    var k := FirstList(digest, block, id);
    FirstListIs(digest, block, id);
    if k < |block| {
      var items := ItemsOf(digest, block[k]);
      NormalizeIsDistinct(digest(block[k].key), None, block[k].values);
      if OnlyItems(items, id) {
        CorrectedStays(digest(block[k].key), items, id, text);
      }
    }
  }
}
