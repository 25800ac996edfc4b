/** The durable roster of robots: a table with a cap that evicts whoever was seen longest ago. */
module Roster {
  import opened Basics
  import opened Wrappers
  import opened Text

  /** One row, times in milliseconds. */
  datatype Row = Row(id: string, first: int, last: int, sightings: nat)

  /** A table in its dictionary's order: a new row goes last, an updated one stays. */
  type Rows = seq<Row>

  function Find(rows: Rows, id: string): (k: nat)
    ensures k <= |rows| && (k < |rows| ==> rows[k].id == id) && forall j :: 0 <= j < k ==> rows[j].id != id
  {
    if rows == [] || rows[0].id == id then 0 else 1 + Find(rows[1..], id)
  }

  function Min(a: int, b: int): int {
    if a < b then a else b
  }

  function Seen(was: Option<Row>, id: string, at: int): Row {
    match was
    case None => Row(id, at, at, 1)
    case Some(r) => Row(id, Min(r.first, at), at, r.sightings + 1)
  }

  function RowOf(rows: Rows, id: string): Option<Row> {
    if Find(rows, id) < |rows| then Some(rows[Find(rows, id)]) else None
  }

  function Upsert(rows: Rows, row: Row): Rows {
    var k := Find(rows, row.id);
    if k < |rows| then rows[k := row] else rows + [row]
  }

  function IdIs(id: string): Row -> bool {
    (r: Row) => r.id == id
  }

  function Without(rows: Rows, id: string): (r: Rows)
    ensures |r| <= |rows|
  {
    Rejecting(IdIs(id), rows)
  }

  /** Stable insertion: after everything with the same key. */
  function Insert(key: Row -> int, r: Row, sorted: Rows): (s: Rows)
    ensures |s| == |sorted| + 1
  {
    if sorted == [] || key(r) < key(sorted[0]) then [r] + sorted
    else [sorted[0]] + Insert(key, r, sorted[1..])
  }

  function Sort(key: Row -> int, rows: Rows): (s: Rows)
    ensures |s| == |rows|
  {
    if rows == [] then [] else Insert(key, rows[|rows| - 1], Sort(key, rows[..|rows| - 1]))
  }

  function LastSeen(r: Row): int {
    r.last
  }

  function MostRecent(r: Row): int {
    -r.last
  }

  function WithoutAll(rows: Rows, stale: Rows): Rows
    decreases |stale|
  {
    if stale == [] then rows else WithoutAll(Without(rows, stale[0].id), stale[1..])
  }

  /** Down to the limit, dropping the rows seen longest ago; a limit of 0 is none. */
  function Evict(rows: Rows, limit: nat): Rows {
    if limit > 0 && |rows| > limit then WithoutAll(rows, Sort(LastSeen, rows)[..|rows| - limit]) else rows
  }

  function RecordSeen(rows: Rows, device: string, at: int, limit: nat): Rows {
    var id := Strip(device);
    if id == "" then rows else Evict(Upsert(rows, Seen(RowOf(rows, id), id, at)), limit)
  }

  method ComputeRecordSeen(roster: Rows, device: string, at: int, limit: nat) returns (rows: Rows)
    ensures rows == RecordSeen(roster, device, at, limit)
  {
    var id := Strip(device);
    rows := roster;
    if id == "" {
      return;
    }
    rows := Upsert(rows, Seen(RowOf(rows, id), id, at));
    if limit > 0 && |rows| > limit {
      var stale := Sort(LastSeen, rows)[..|rows| - limit];
      ghost var full := rows;
      for i := 0 to |stale|
        invariant WithoutAll(rows, stale[i..]) == WithoutAll(full, stale)
      {
        assert stale[i..][1..] == stale[i + 1..];
        rows := Without(rows, stale[i].id);
      }
    }
  }

  function Forget(rows: Rows, device: string): Rows {
    Without(rows, Strip(device))
  }

  function Ids(rows: Rows): (ids: seq<string>)
    ensures |ids| == |rows|
  {
    if rows == [] then [] else [rows[0].id] + Ids(rows[1..])
  }

  /** Most recently seen first. */
  function DeviceIds(rows: Rows): seq<string> {
    Ids(Sort(MostRecent, rows))
  }

  // ----- sorting ----------------------------------------------------------------------------

  ghost predicate Sorted(key: Row -> int, rows: Rows) {
    forall i, j :: 0 <= i < j < |rows| ==> key(rows[i]) <= key(rows[j])
  }

  lemma {:induction false} InsertAdds(key: Row -> int, r: Row, sorted: Rows)
    ensures multiset(Insert(key, r, sorted)) == multiset(sorted) + multiset{r}
  {
    if sorted != [] && !(key(r) < key(sorted[0])) {
      InsertAdds(key, r, sorted[1..]);
      assert sorted == [sorted[0]] + sorted[1..];
    }
  }

  lemma InsertHas(key: Row -> int, r: Row, sorted: Rows)
    ensures forall x :: x in Insert(key, r, sorted) <==> x == r || x in sorted
  {
    InsertAdds(key, r, sorted);
    forall x ensures x in Insert(key, r, sorted) <==> x == r || x in sorted {
      assert x in multiset(Insert(key, r, sorted)) <==> x in multiset(sorted) + multiset{r};
    }
  }

  lemma ConsSorted(key: Row -> int, x: Row, rest: Rows)
    requires Sorted(key, rest) && forall y :: y in rest ==> key(x) <= key(y)
    ensures Sorted(key, [x] + rest)
  {
    var all := [x] + rest;
    forall i, j | 0 <= i < j < |all| ensures key(all[i]) <= key(all[j]) {
      assert all[j] == rest[j - 1];
      if i > 0 { assert all[i] == rest[i - 1]; }
    }
  }

  lemma {:induction false} InsertSorts(key: Row -> int, r: Row, sorted: Rows)
    requires Sorted(key, sorted)
    ensures Sorted(key, Insert(key, r, sorted))
  {
    if sorted != [] && !(key(r) < key(sorted[0])) {
      InsertSorts(key, r, sorted[1..]);
      InsertHas(key, r, sorted[1..]);
      ConsSorted(key, sorted[0], Insert(key, r, sorted[1..]));
    } else {
      ConsSorted(key, r, sorted);
    }
  }

  lemma {:induction false} SortIsSorted(key: Row -> int, rows: Rows)
    ensures Sorted(key, Sort(key, rows))
  {
    if rows != [] {
      SortIsSorted(key, rows[..|rows| - 1]);
      InsertSorts(key, rows[|rows| - 1], Sort(key, rows[..|rows| - 1]));
    }
  }

  lemma LastOnTop(rows: Rows)
    requires rows != []
    ensures multiset(rows) == multiset(rows[..|rows| - 1]) + multiset{rows[|rows| - 1]}
  {
    assert rows == rows[..|rows| - 1] + [rows[|rows| - 1]];
  }

  lemma {:induction false} SortPermutes(key: Row -> int, rows: Rows)
    ensures multiset(Sort(key, rows)) == multiset(rows)
  {
    if rows != [] {
      SortPermutes(key, rows[..|rows| - 1]);
      InsertAdds(key, rows[|rows| - 1], Sort(key, rows[..|rows| - 1]));
      LastOnTop(rows);
    }
  }

  lemma SortSorts(key: Row -> int, rows: Rows)
    ensures Sorted(key, Sort(key, rows)) && multiset(Sort(key, rows)) == multiset(rows)
  {
    SortIsSorted(key, rows);
    SortPermutes(key, rows);
  }

  ghost predicate Strictly(key: Row -> int, rows: Rows) {
    forall i, j :: 0 <= i < j < |rows| ==> key(rows[i]) < key(rows[j])
  }

  lemma SameElements(s: Rows, t: Rows, x: Row)
    requires multiset(s) == multiset(t)
    ensures x in s <==> x in t
  {
    assert x in multiset(s) <==> x in multiset(t);
  }

  lemma HeadsAgree(key: Row -> int, s: Rows, t: Rows)
    requires Sorted(key, s) && Strictly(key, t) && multiset(s) == multiset(t) && s != [] && t != []
    ensures s[0] == t[0]
  {
    SameElements(s, t, t[0]);
    SameElements(s, t, s[0]);
    var i :| 0 <= i < |s| && s[i] == t[0];
    var j :| 0 <= j < |t| && t[j] == s[0];
    assert key(s[0]) <= key(s[i]);
    assert j > 0 ==> key(t[0]) < key(t[j]);
  }

  lemma TailMultiset(s: Rows)
    requires s != []
    ensures multiset(s[1..]) == multiset(s) - multiset{s[0]}
  {
    assert s == [s[0]] + s[1..];
  }

  lemma SameLength(s: Rows, t: Rows)
    requires multiset(s) == multiset(t)
    ensures |s| == |t|
  {
    assert |multiset(s)| == |s| && |multiset(t)| == |t|;
  }

  lemma {:induction false} SortedUnique(key: Row -> int, s: Rows, t: Rows)
    requires Sorted(key, s) && Strictly(key, t) && multiset(s) == multiset(t)
    ensures s == t
    decreases |t|
  {
    SameLength(s, t);
    if t != [] {
      HeadsAgree(key, s, t);
      TailMultiset(s);
      TailMultiset(t);
      SortedUnique(key, s[1..], t[1..]);
      assert s == [s[0]] + s[1..] && t == [t[0]] + t[1..];
    }
  }

  // ----- the reference: a move-to-front list ------------------------------------------------------

  ghost predicate DistinctRows(rows: Rows) {
    forall i, j :: 0 <= i < j < |rows| ==> rows[i].id != rows[j].id
  }

  function Cut(list: Rows, limit: nat): (r: Rows)
    ensures r <= list
  {
    if limit > 0 && |list| > limit then list[..limit] else list
  }

  /** The device moves to the front; what falls off the end is forgotten. */
  function Touch(list: Rows, id: string, at: int, limit: nat): Rows {
    Cut([Seen(RowOf(list, id), id, at)] + Without(list, id), limit)
  }

  lemma {:induction false} WithoutHas(rows: Rows, id: string)
    ensures forall r :: r in Without(rows, id) <==> r in rows && r.id != id
  {
    if rows != [] {
      WithoutHas(rows[..|rows| - 1], id);
      assert rows == rows[..|rows| - 1] + [rows[|rows| - 1]];
    }
  }

  lemma {:induction false} WithoutDistinct(rows: Rows, id: string)
    requires DistinctRows(rows)
    ensures DistinctRows(Without(rows, id))
  {
    if rows != [] {
      var front, last := rows[..|rows| - 1], rows[|rows| - 1];
      WithoutDistinct(front, id);
      WithoutHas(front, id);
      forall r | r in front ensures r.id != last.id {
        var i :| 0 <= i < |front| && front[i] == r;
        assert rows[i].id != rows[|rows| - 1].id;
      }
    }
  }

  /** Taking a row out takes out that one. */
  lemma {:induction false} WithoutOne(rows: Rows, r: Row)
    requires DistinctRows(rows) && r in rows
    ensures multiset(Without(rows, r.id)) == multiset(rows) - multiset{r}
  {
    var front, last := rows[..|rows| - 1], rows[|rows| - 1];
    LastOnTop(rows);
    if last == r {
      RejectingNone(IdIs(r.id), front);
      assert Without(rows, r.id) == front;
    } else {
      FrontDistinct(rows);
      WithoutOne(front, r);
      assert Without(rows, r.id) == Without(front, r.id) + [last];
    }
  }

  lemma FrontDistinct(rows: Rows)
    requires DistinctRows(rows) && rows != []
    ensures DistinctRows(rows[..|rows| - 1])
    ensures forall k :: 0 <= k < |rows| - 1 ==> rows[k].id != rows[|rows| - 1].id
  {
  }
}
