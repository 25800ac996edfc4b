/** Remembered items and their ids. */
module MemoryItems {
  import opened Basics
  import opened Wrappers

  datatype Provenance = Provenance(at: int, moduleId: string)

  /** A stored value of a list: a bare sentence from an older file, an item record (`id` is
      empty when it has none), or anything else, which may be a record with an `id` of its own. */
  datatype Value =
    | Bare(sentence: string)
    | Item(id: string, text: string, prov: Option<Provenance>, uses: nat, lastUsed: nat, pinned: bool)
    | Other(handle: Option<string>, repr: string)

  /** A text's id: some hexadecimal characters of a hash. */
  type Digest = s: string | s != "" witness "0"

  // ----- ids -----------------------------------------------------------------------------

  function HexDigit(d: nat): char
    requires d < 16
  {
    "0123456789abcdef"[d]
  }

  function Hex(n: nat): (s: string)
    ensures s != ""
  {
    if n < 16 then [HexDigit(n)] else Hex(n / 16) + [HexDigit(n % 16)]
  }

  lemma DigitsDiffer(c: nat, d: nat)
    requires c < 16 && d < 16 && HexDigit(c) == HexDigit(d)
    ensures c == d
  {
  }

  lemma {:induction false} HexInjective(m: nat, n: nat)
    requires Hex(m) == Hex(n)
    ensures m == n
    decreases m
  {
    assert Hex(m)[|Hex(m)| - 1] == HexDigit(m % 16) && Hex(n)[|Hex(n)| - 1] == HexDigit(n % 16);
    DigitsDiffer(m % 16, n % 16);
    assert |Hex(m)| > 1 <==> m >= 16;
    assert |Hex(n)| > 1 <==> n >= 16;
    if m >= 16 {
      assert Hex(m)[..|Hex(m)| - 1] == Hex(m / 16) && Hex(n)[..|Hex(n)| - 1] == Hex(n / 16);
      HexInjective(m / 16, n / 16);
    }
  }

  function Widened(candidate: string, n: nat): string {
    candidate + Hex(n)
  }

  lemma WidenedDiffer(candidate: string, m: nat, n: nat)
    requires Widened(candidate, m) == Widened(candidate, n)
    ensures m == n
  {
    assert Widened(candidate, m)[|candidate|..] == Hex(m);
    assert Widened(candidate, n)[|candidate|..] == Hex(n);
    HexInjective(m, n);
  }

  /** The taken ids a widening from `n` on could still meet. */
  ghost function Ahead(candidate: string, taken: set<string>, n: nat): set<string> {
    set s | s in taken && exists k: nat :: n <= k && s == Widened(candidate, k)
  }

  lemma AheadShrinks(candidate: string, taken: set<string>, n: nat)
    requires Widened(candidate, n) in taken
    ensures |Ahead(candidate, taken, n + 1)| < |Ahead(candidate, taken, n)|
  {
    var w := Widened(candidate, n);
    var now, next := Ahead(candidate, taken, n), Ahead(candidate, taken, n + 1);
    assert w in now;
    forall s | s in next ensures s in now - {w} {
      var k: nat :| n + 1 <= k && s == Widened(candidate, k);
      if s == w {
        WidenedDiffer(candidate, k, n);
      }
    }
    SubsetSize(next, now - {w});
  }

  /** The first free number: found, because each one taken uses up an id. */
  function FirstFree(candidate: string, taken: set<string>, n: nat): nat
    decreases |Ahead(candidate, taken, n)|
  {
    if Widened(candidate, n) in taken then
      AheadShrinks(candidate, taken, n);
      FirstFree(candidate, taken, n + 1)
    else n
  }

  function UniqueId(candidate: string, taken: set<string>): string {
    if candidate !in taken then candidate else Widened(candidate, FirstFree(candidate, taken, 1))
  }

  method ComputeUniqueId(candidate: string, taken: set<string>) returns (id: string)
    ensures id == UniqueId(candidate, taken)
  {
    if candidate !in taken {
      return candidate;
    }
    var n := 1;
    while Widened(candidate, n) in taken
      invariant n >= 1 && FirstFree(candidate, taken, n) == FirstFree(candidate, taken, 1)
      decreases |Ahead(candidate, taken, n)|
    {
      AheadShrinks(candidate, taken, n);
      n := n + 1;
    }
    return Widened(candidate, n);
  }

  lemma {:induction false} FirstFreeIs(candidate: string, taken: set<string>, n: nat)
    ensures var r := FirstFree(candidate, taken, n);
            r >= n && Widened(candidate, r) !in taken && forall k :: n <= k < r ==> Widened(candidate, k) in taken
    decreases |Ahead(candidate, taken, n)|
  {
    if Widened(candidate, n) in taken {
      AheadShrinks(candidate, taken, n);
      FirstFreeIs(candidate, taken, n + 1);
    }
  }

  /** Widening always ends, on an id nobody has; a free candidate is kept. */
  lemma UniqueIdIsFree(candidate: string, taken: set<string>)
    ensures UniqueId(candidate, taken) !in taken
    ensures UniqueId(candidate, taken) == candidate <==> candidate !in taken
    ensures candidate in taken ==>
              exists n: nat :: n >= 1 && UniqueId(candidate, taken) == candidate + Hex(n)
                               && forall k :: 1 <= k < n ==> candidate + Hex(k) in taken
  {
    FirstFreeIs(candidate, taken, 1);
    assert forall k: nat :: Widened(candidate, k) == candidate + Hex(k);
    var w := FirstFree(candidate, taken, 1);
    assert |Widened(candidate, w)| > |candidate|;
  }

  // ----- migration -------------------------------------------------------------------------

  function WithProvenance(v: Value, prov: Option<Provenance>): Value
    requires v.Item?
  {
    if v.prov.None? then v.(prov := prov) else v
  }

  /** One value as an item; `idOf` is the digest of a text under this namespace and list. */
  function NormalizeOne(idOf: string -> Digest, prov: Option<Provenance>, v: Value, taken: set<string>): Value {
    match v
    case Other(_, _) => v
    case Bare(t) => Item(UniqueId(idOf(t), taken), t, prov, 0, 0, false)
    case Item(id, t, _, _, _, _) =>
      WithProvenance(v.(id := UniqueId(if id != "" then id else idOf(t), taken)), prov)
  }

  function IdOf(v: Value): set<string> {
    if v.Item? then {v.id} else {}
  }

  function NormalizeFrom(idOf: string -> Digest, prov: Option<Provenance>, values: seq<Value>,
                         taken: set<string>): (r: seq<Value>)
    ensures |r| == |values|
  {
    if values == [] then []
    else
      var v := NormalizeOne(idOf, prov, values[0], taken);
      [v] + NormalizeFrom(idOf, prov, values[1..], taken + IdOf(v))
  }

  function Normalize(idOf: string -> Digest, prov: Option<Provenance>, values: seq<Value>): (r: seq<Value>)
    ensures |r| == |values|
  {
    NormalizeFrom(idOf, prov, values, {})
  }

  method NormalizeItems(idOf: string -> Digest, prov: Option<Provenance>, values: seq<Value>) returns (out: seq<Value>)
    ensures out == Normalize(idOf, prov, values)
  {
    out := [];
    var taken: set<string> := {};
    for i := 0 to |values|
      invariant out + NormalizeFrom(idOf, prov, values[i..], taken) == Normalize(idOf, prov, values)
    {
      var v := NormalizeValue(idOf, prov, values[i], taken);
      NormalizeStep(idOf, prov, values, i, taken, out);
      out, taken := out + [v], taken + IdOf(v);
    }
  }

  method NormalizeValue(idOf: string -> Digest, prov: Option<Provenance>, v: Value, taken: set<string>) returns (r: Value)
    ensures r == NormalizeOne(idOf, prov, v, taken)
  {
    match v
    case Other(_, _) => r := v;
    case Bare(t) =>
      var id := ComputeUniqueId(idOf(t), taken);
      r := Item(id, t, prov, 0, 0, false);
    case Item(got, t, _, _, _, _) =>
      var id := ComputeUniqueId(if got != "" then got else idOf(t), taken);
      r := v.(id := id);
      if r.prov.None? {
        r := r.(prov := prov);
      }
  }

  lemma NormalizeStep(idOf: string -> Digest, prov: Option<Provenance>, values: seq<Value>, i: nat,
                      taken: set<string>, out: seq<Value>)
    requires i < |values|
    ensures var v := NormalizeOne(idOf, prov, values[i], taken);
            out + NormalizeFrom(idOf, prov, values[i..], taken)
            == (out + [v]) + NormalizeFrom(idOf, prov, values[i + 1..], taken + IdOf(v))
  {
    assert values[i..][1..] == values[i + 1..];
  }

  // ----- what migration guarantees -----------------------------------------------------------

  predicate NoneTaken(vs: seq<Value>, taken: set<string>) {
    forall k :: 0 <= k < |vs| && vs[k].Item? ==> vs[k].id !in taken
  }

  predicate DistinctIds(vs: seq<Value>) {
    forall j, k :: 0 <= j < k < |vs| && vs[j].Item? && vs[k].Item? ==> vs[j].id != vs[k].id
  }

  /** No bare sentence is left, and every item has an id. */
  predicate Migrated(vs: seq<Value>) {
    forall k :: 0 <= k < |vs| ==> !vs[k].Bare? && (vs[k].Item? ==> vs[k].id != "")
  }

  /** Items with pairwise different ids, in the order of the values they come from. */
  lemma {:induction false} NormalizeFromDistinct(idOf: string -> Digest, prov: Option<Provenance>,
                                                 values: seq<Value>, taken: set<string>)
    ensures var r := NormalizeFrom(idOf, prov, values, taken); NoneTaken(r, taken) && DistinctIds(r) && Migrated(r)
  {
    if values != [] {
      var v := NormalizeOne(idOf, prov, values[0], taken);
      if values[0].Bare? { UniqueIdIsFree(idOf(values[0].sentence), taken); }
      if values[0].Item? { UniqueIdIsFree(if values[0].id != "" then values[0].id else idOf(values[0].text), taken); }
      NormalizeFromDistinct(idOf, prov, values[1..], taken + IdOf(v));
    }
  }

  /** Bare sentences become items, nothing that is not an item is touched, no text changes. */
  lemma {:induction false} NormalizeFromSame(idOf: string -> Digest, prov: Option<Provenance>, values: seq<Value>,
                                             taken: set<string>, k: nat)
    requires k < |values|
    ensures SameMemory(prov, values[k], NormalizeFrom(idOf, prov, values, taken)[k])
  {
    if k > 0 {
      NormalizeFromSame(idOf, prov, values[1..], taken + IdOf(NormalizeOne(idOf, prov, values[0], taken)), k - 1);
    }
  }

  /** The same sentence with the same use clock and its own provenance, or the given one where
      it has none; or the same foreign value. */
  predicate SameMemory(prov: Option<Provenance>, was: Value, now: Value) {
    match was
    case Other(_, _) => now == was
    case Bare(t) => now.Item? && now.text == t && now.uses == 0 && now.lastUsed == 0 && !now.pinned && now.prov == prov
    case Item(_, t, p, u, l, pin) =>
      now.Item? && now.text == t && now.uses == u && now.lastUsed == l && now.pinned == pin
      && now.prov == if p.Some? then p else prov
  }

  /** The id a value asks for: its own, or the digest of its text. */
  function AskedId(idOf: string -> Digest, v: Value): Option<string> {
    match v
    case Other(_, _) => None
    case Bare(t) => Some(idOf(t))
    case Item(id, t, _, _, _, _) => Some(if id == "" then idOf(t) else id)
  }

  /** A value gets the id it asks for unless it is taken. */
  predicate GetsItsId(idOf: string -> Digest, values: seq<Value>, r: seq<Value>, taken: set<string>, k: nat)
    requires k < |values| == |r|
  {
    r[k].Item? && AskedId(idOf, values[k]).Some? && AskedId(idOf, values[k]).value !in taken
    && (forall j :: 0 <= j < k && r[j].Item? ==> Some(r[j].id) != AskedId(idOf, values[k]))
    ==> Some(r[k].id) == AskedId(idOf, values[k])
  }

  lemma {:induction false} NormalizeKeepsIds(idOf: string -> Digest, prov: Option<Provenance>, values: seq<Value>,
                                             taken: set<string>, k: nat)
    requires k < |values|
    ensures GetsItsId(idOf, values, NormalizeFrom(idOf, prov, values, taken), taken, k)
  {
    var v := NormalizeOne(idOf, prov, values[0], taken);
    if k > 0 {
      NormalizeKeepsIds(idOf, prov, values[1..], taken + IdOf(v), k - 1);
      LaterKeepsId(idOf, values, v, NormalizeFrom(idOf, prov, values[1..], taken + IdOf(v)), taken, k);
    }
  }

  lemma LaterKeepsId(idOf: string -> Digest, values: seq<Value>, v: Value, rest: seq<Value>, taken: set<string>, k: nat)
    requires 0 < k < |values| == |rest| + 1
    requires GetsItsId(idOf, values[1..], rest, taken + IdOf(v), k - 1)
    ensures GetsItsId(idOf, values, [v] + rest, taken, k)
  {
    var r, asked := [v] + rest, AskedId(idOf, values[k]);
    assert values[1..][k - 1] == values[k] && r[k] == rest[k - 1];
    if forall j :: 0 <= j < k && r[j].Item? ==> Some(r[j].id) != asked {
      assert r[0] == v;
      forall j | 0 <= j < k - 1 && rest[j].Item? ensures Some(rest[j].id) != asked {
        assert r[j + 1] == rest[j];
      }
    }
  }

  lemma NormalizeIsDistinct(idOf: string -> Digest, prov: Option<Provenance>, values: seq<Value>)
    ensures var r := Normalize(idOf, prov, values);
            && DistinctIds(r) && Migrated(r)
            && forall k :: 0 <= k < |r| ==> SameMemory(prov, values[k], r[k]) && GetsItsId(idOf, values, r, {}, k)
  {
    NormalizeFromDistinct(idOf, prov, values, {});
    var r := Normalize(idOf, prov, values);
    forall k | 0 <= k < |values| ensures SameMemory(prov, values[k], r[k]) && GetsItsId(idOf, values, r, {}, k) {
      NormalizeFromSame(idOf, prov, values, {}, k);
      NormalizeKeepsIds(idOf, prov, values, {}, k);
    }
  }

  lemma OneIsStable(idOf: string -> Digest, prov: Option<Provenance>, again: Option<Provenance>, v: Value, taken: set<string>)
    requires again == prov || again == None
    ensures var r := NormalizeOne(idOf, prov, v, taken); NormalizeOne(idOf, again, r, taken) == r
  {
    if v.Bare? {
      UniqueIdIsFree(idOf(v.sentence), taken);
    } else if v.Item? {
      UniqueIdIsFree(if v.id != "" then v.id else idOf(v.text), taken);
    }
  }

  /** Migrating twice is migrating once, so ids are stable across reads of an old file. */
  lemma {:induction false} NormalizeFromIdempotent(idOf: string -> Digest, prov: Option<Provenance>, again: Option<Provenance>,
                                                   values: seq<Value>, taken: set<string>)
    requires again == prov || again == None
    ensures var r := NormalizeFrom(idOf, prov, values, taken); NormalizeFrom(idOf, again, r, taken) == r
  {
    if values != [] {
      var v := NormalizeOne(idOf, prov, values[0], taken);
      OneIsStable(idOf, prov, again, values[0], taken);
      NormalizeFromIdempotent(idOf, prov, again, values[1..], taken + IdOf(v));
      var rest := NormalizeFrom(idOf, prov, values[1..], taken + IdOf(v));
      assert ([v] + rest)[1..] == rest;
    }
  }

  lemma NormalizeIdempotent(idOf: string -> Digest, prov: Option<Provenance>, again: Option<Provenance>, values: seq<Value>)
    requires again == prov || again == None
    ensures var r := Normalize(idOf, prov, values); Normalize(idOf, again, r) == r
  {
    NormalizeFromIdempotent(idOf, prov, again, values, {});
  }

  /** A list whose items already carry different ids keeps them. */
  lemma {:induction false} DistinctIsKept(idOf: string -> Digest, values: seq<Value>, taken: set<string>)
    requires DistinctIds(values) && NoneTaken(values, taken) && Migrated(values)
    ensures NormalizeFrom(idOf, None, values, taken) == values
  {
    if values != [] {
      var v := values[0];
      if v.Item? { UniqueIdIsFree(v.id, taken); }
      assert NormalizeOne(idOf, None, v, taken) == v;
      assert NoneTaken(values[1..], taken + IdOf(v));
      DistinctIsKept(idOf, values[1..], taken + IdOf(v));
    }
  }
}
