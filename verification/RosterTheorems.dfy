/** The roster is an exact least-recently-seen cache, whatever the order of its table. */
module RosterTheorems {
  import opened Basics
  import opened Wrappers
  import opened Text
  import opened Roster

  datatype Event = SeenAt(device: string, at: int) | Forgotten(device: string)

  predicate Counts(e: Event) {
    e.SeenAt? && Strip(e.device) != ""
  }

  function Run(events: seq<Event>, limit: nat): Rows {
    if events == [] then []
    else
      var before, e := Run(events[..|events| - 1], limit), events[|events| - 1];
      match e
      case SeenAt(d, at) => RecordSeen(before, d, at, limit)
      case Forgotten(d) => Forget(before, d)
  }

  /** The same events on a move-to-front list. */
  function Reference(events: seq<Event>, limit: nat): Rows {
    if events == [] then []
    else
      var before, e := Reference(events[..|events| - 1], limit), events[|events| - 1];
      match e
      case SeenAt(d, at) => if Strip(d) == "" then before else Touch(before, Strip(d), at, limit)
      case Forgotten(d) => Without(before, Strip(d))
  }

  /** Every sighting is later than all before it. */
  ghost predicate Ticking(events: seq<Event>) {
    forall i, j :: 0 <= i < j < |events| && Counts(events[i]) && Counts(events[j]) ==> events[i].at < events[j].at
  }

  // ----- one step --------------------------------------------------------------------------

  ghost predicate Represents(rows: Rows, list: Rows, limit: nat) {
    && multiset(rows) == multiset(list) && DistinctRows(rows) && DistinctRows(list)
    && Strictly(MostRecent, list) && (limit > 0 ==> |list| <= limit)
  }

  lemma RowOfIs(rows: Rows, id: string)
    requires DistinctRows(rows)
    ensures RowOf(rows, id).Some? <==> exists r :: r in rows && r.id == id
    ensures forall r :: r in rows && r.id == id ==> RowOf(rows, id) == Some(r)
  {
    var k := Find(rows, id);
    forall r | r in rows && r.id == id ensures k < |rows| && rows[k] == r {
      var i :| 0 <= i < |rows| && rows[i] == r;
    }
  }

  lemma SameRow(rows: Rows, list: Rows, id: string)
    requires DistinctRows(rows) && DistinctRows(list) && multiset(rows) == multiset(list)
    ensures RowOf(rows, id) == RowOf(list, id)
  {
    RowOfIs(rows, id);
    RowOfIs(list, id);
    forall r ensures r in rows <==> r in list {
      SameElements(rows, list, r);
    }
  }

  lemma UpsertMultiset(rows: Rows, row: Row)
    ensures var u := RowOf(rows, row.id);
            multiset(Upsert(rows, row)) == (if u.Some? then multiset(rows) - multiset{u.value} else multiset(rows)) + multiset{row}
  {
    var k := Find(rows, row.id);
    if k < |rows| {
      Replaced(rows, k, row);
    }
  }

  lemma Replaced(rows: Rows, k: nat, row: Row)
    requires k < |rows|
    ensures multiset(rows[k := row]) == multiset(rows) - multiset{rows[k]} + multiset{row}
  {
    var a, b := rows[..k], rows[k + 1..];
    assert rows == a + ([rows[k]] + b);
    assert rows[k := row] == a + ([row] + b);
  }

  lemma UpsertDistinct(rows: Rows, row: Row)
    requires DistinctRows(rows)
    ensures DistinctRows(Upsert(rows, row))
  {
  }

  lemma FrontedMultiset(list: Rows, row: Row)
    requires DistinctRows(list)
    ensures var u := RowOf(list, row.id);
            multiset([row] + Without(list, row.id))
            == (if u.Some? then multiset(list) - multiset{u.value} else multiset(list)) + multiset{row}
    ensures DistinctRows([row] + Without(list, row.id))
  {
    RowOfIs(list, row.id);
    var rest := Without(list, row.id);
    if RowOf(list, row.id).Some? {
      WithoutOne(list, RowOf(list, row.id).value);
    } else {
      RejectingNone(IdIs(row.id), list);
    }
    WithoutDistinct(list, row.id);
    WithoutHas(list, row.id);
    MovedDistinct(row, rest);
  }

  lemma MovedDistinct(row: Row, rest: Rows)
    requires DistinctRows(rest) && forall r :: r in rest ==> r.id != row.id
    ensures DistinctRows([row] + rest)
  {
    var all := [row] + rest;
    forall i, j | 0 <= i < j < |all| ensures all[i].id != all[j].id {
      assert all[j] == rest[j - 1];
      if i > 0 { assert all[i] == rest[i - 1]; }
    }
  }

  lemma {:induction false} WithoutStrictly(list: Rows, id: string)
    requires Strictly(MostRecent, list)
    ensures Strictly(MostRecent, Without(list, id))
  {
    if list != [] {
      var front, last := list[..|list| - 1], list[|list| - 1];
      WithoutStrictly(front, id);
      WithoutHas(front, id);
      forall r | r in front ensures MostRecent(r) < MostRecent(last) {
        var i :| 0 <= i < |front| && front[i] == r;
        assert MostRecent(list[i]) < MostRecent(list[|list| - 1]);
      }
    }
  }

  lemma FrontStrictly(row: Row, rest: Rows)
    requires Strictly(MostRecent, rest) && forall r :: r in rest ==> r.last < row.last
    ensures Strictly(MostRecent, [row] + rest)
  {
    var all := [row] + rest;
    forall i, j | 0 <= i < j < |all| ensures MostRecent(all[i]) < MostRecent(all[j]) {
      assert all[j] == rest[j - 1];
      if i > 0 { assert all[i] == rest[i - 1]; }
    }
  }

  /** The least recently seen row of the table is the last of the list. */
  lemma OldestIsLast(rows: Rows, list: Rows)
    requires multiset(rows) == multiset(list) && Strictly(MostRecent, list) && list != []
    ensures |rows| == |list| && Sort(LastSeen, rows)[0] == list[|list| - 1]
  {
    var s := Sort(LastSeen, rows);
    var z := list[|list| - 1];
    SameLength(rows, list);
    SortSorts(LastSeen, rows);
    SameElements(s, list, z);
    SameElements(s, list, s[0]);
    HeadIsLeast(LastSeen, s, z);
    var j :| 0 <= j < |list| && list[j] == s[0];
    LastIsMost(list, j);
  }

  lemma HeadIsLeast(key: Row -> int, s: Rows, z: Row)
    requires Sorted(key, s) && z in s
    ensures key(s[0]) <= key(z)
  {
    var i :| 0 <= i < |s| && s[i] == z;
    assert i > 0 ==> key(s[0]) <= key(s[i]);
  }

  lemma LastIsMost(list: Rows, j: nat)
    requires Strictly(MostRecent, list) && j < |list|
    ensures MostRecent(list[j]) <= MostRecent(list[|list| - 1])
    ensures MostRecent(list[j]) == MostRecent(list[|list| - 1]) ==> j == |list| - 1
  {
  }

  lemma CutMultiset(full: Rows, limit: nat)
    requires |full| == limit + 1
    ensures multiset(full[..limit]) == multiset(full) - multiset{full[limit]}
  {
    assert full == full[..limit] + [full[limit]];
  }

  /** One row too many: the table and the list lose the same one. */
  lemma EvictOne(rows: Rows, full: Rows, limit: nat)
    requires multiset(rows) == multiset(full) && DistinctRows(rows) && Strictly(MostRecent, full)
    requires limit > 0 && |full| == limit + 1
    ensures Evict(rows, limit) == Without(rows, full[limit].id)
    ensures multiset(Evict(rows, limit)) == multiset(full[..limit]) && DistinctRows(Evict(rows, limit))
  {
    var z := full[limit];
    OldestIsLast(rows, full);
    assert Sort(LastSeen, rows)[..1] == [z];
    DropOne(rows, z);
    SameElements(rows, full, z);
    WithoutOne(rows, z);
    WithoutDistinct(rows, z.id);
    CutMultiset(full, limit);
  }

  lemma DropOne(rows: Rows, z: Row)
    ensures WithoutAll(rows, [z]) == Without(rows, z.id)
  {
    assert [z][1..] == [];
  }

  lemma EvictRefines(rows: Rows, full: Rows, limit: nat)
    requires multiset(rows) == multiset(full) && DistinctRows(rows) && DistinctRows(full) && Strictly(MostRecent, full)
    requires limit > 0 ==> |full| <= limit + 1
    ensures Represents(Evict(rows, limit), Cut(full, limit), limit)
  {
    SameLength(rows, full);
    if limit > 0 && |rows| > limit {
      EvictOne(rows, full, limit);
    }
  }

  lemma SeenRefines(rows: Rows, list: Rows, id: string, at: int, limit: nat)
    requires Represents(rows, list, limit) && forall r :: r in list ==> r.last < at
    ensures Represents(Evict(Upsert(rows, Seen(RowOf(rows, id), id, at)), limit), Touch(list, id, at, limit), limit)
  {
    SameRow(rows, list, id);
    var row := Seen(RowOf(rows, id), id, at);
    UpsertMultiset(rows, row);
    UpsertDistinct(rows, row);
    FrontedMultiset(list, row);
    WithoutHas(list, id);
    WithoutStrictly(list, id);
    FrontStrictly(row, Without(list, id));
    EvictRefines(Upsert(rows, row), [row] + Without(list, id), limit);
  }

  lemma ForgetRefines(rows: Rows, list: Rows, id: string, limit: nat)
    requires Represents(rows, list, limit)
    ensures Represents(Without(rows, id), Without(list, id), limit)
  {
    SameRow(rows, list, id);
    RowOfIs(rows, id);
    RowOfIs(list, id);
    if RowOf(rows, id).Some? {
      WithoutOne(rows, RowOf(rows, id).value);
      WithoutOne(list, RowOf(rows, id).value);
    } else {
      RejectingNone(IdIs(id), rows);
      RejectingNone(IdIs(id), list);
    }
    WithoutDistinct(rows, id);
    WithoutDistinct(list, id);
    WithoutStrictly(list, id);
  }

  // ----- every run -----------------------------------------------------------------------------

  /** Every time on the list is that of a sighting. */
  lemma {:induction false} TimesAreSightings(events: seq<Event>, limit: nat, r: Row)
    requires r in Reference(events, limit)
    ensures exists i :: 0 <= i < |events| && Counts(events[i]) && events[i].at == r.last
  {
    var front, e := events[..|events| - 1], events[|events| - 1];
    var before := Reference(front, limit);
    WithoutHas(before, Strip(e.device));
    if Counts(e) && r == Seen(RowOf(before, Strip(e.device)), Strip(e.device), e.at) {
      assert events[|events| - 1].at == r.last;
    } else {
      assert r in before;
      TimesAreSightings(front, limit, r);
      var i :| 0 <= i < |front| && Counts(front[i]) && front[i].at == r.last;
      assert events[i] == front[i];
    }
  }

  lemma LaterThanAll(events: seq<Event>, limit: nat)
    requires Ticking(events) && events != [] && Counts(events[|events| - 1])
    ensures forall r :: r in Reference(events[..|events| - 1], limit) ==> r.last < events[|events| - 1].at
  {
    var front := events[..|events| - 1];
    forall r | r in Reference(front, limit) ensures r.last < events[|events| - 1].at {
      TimesAreSightings(front, limit, r);
      var i :| 0 <= i < |front| && Counts(front[i]) && front[i].at == r.last;
      assert events[i] == front[i];
    }
  }

  lemma {:induction false} RunRefines(events: seq<Event>, limit: nat)
    requires Ticking(events)
    ensures Represents(Run(events, limit), Reference(events, limit), limit)
  {
    if events != [] {
      var front, e := events[..|events| - 1], events[|events| - 1];
      assert Ticking(front);
      RunRefines(front, limit);
      if Counts(e) {
        LaterThanAll(events, limit);
        SeenRefines(Run(front, limit), Reference(front, limit), Strip(e.device), e.at, limit);
      } else if e.Forgotten? {
        ForgetRefines(Run(front, limit), Reference(front, limit), Strip(e.device), limit);
      }
    }
  }

  /** Over every run of sightings at increasing times and of un-pairings, the table holds the
      rows of a move-to-front list of at most `limit`, and the device list is that list. */
  lemma RosterIsLru(events: seq<Event>, limit: nat)
    requires Ticking(events)
    ensures var list := Reference(events, limit);
            && multiset(Run(events, limit)) == multiset(list) && (limit > 0 ==> |list| <= limit)
            && DeviceIds(Run(events, limit)) == Ids(list)
  {
    RunRefines(events, limit);
    SortSorts(MostRecent, Run(events, limit));
    SortedUnique(MostRecent, Sort(MostRecent, Run(events, limit)), Reference(events, limit));
  }

  // ----- the most recently seen devices -----------------------------------------------------------

  function Drop(ids: seq<string>, id: string): (r: seq<string>)
    ensures |r| <= |ids|
  {
    if ids == [] then [] else (if ids[0] == id then [] else [ids[0]]) + Drop(ids[1..], id)
  }

  function Head(ids: seq<string>, n: nat): (r: seq<string>)
    ensures r <= ids
  {
    if |ids| > n then ids[..n] else ids
  }

  /** The distinct devices of a history, latest first. */
  function Recent(events: seq<Event>): seq<string> {
    if events == [] then []
    else
      var before, e := Recent(events[..|events| - 1]), events[|events| - 1];
      if Counts(e) then [Strip(e.device)] + Drop(before, Strip(e.device)) else before
  }

  predicate OnlySightings(events: seq<Event>) {
    forall k :: 0 <= k < |events| ==> events[k].SeenAt?
  }

  predicate Distinct(ids: seq<string>) {
    forall i, j :: 0 <= i < j < |ids| ==> ids[i] != ids[j]
  }

  lemma {:induction false} DropHas(ids: seq<string>, id: string)
    ensures forall x :: x in Drop(ids, id) <==> x in ids && x != id
    ensures id !in ids ==> Drop(ids, id) == ids
  {
    if ids != [] {
      DropHas(ids[1..], id);
      assert ids == [ids[0]] + ids[1..];
    }
  }

  lemma {:induction false} DropDistinct(ids: seq<string>, id: string)
    requires Distinct(ids)
    ensures Distinct(Drop(ids, id))
  {
    if ids != [] {
      assert forall i :: 0 <= i < |ids[1..]| ==> ids[1..][i] == ids[i + 1];
      DropDistinct(ids[1..], id);
      DropHas(ids[1..], id);
      assert ids[0] !in ids[1..];
    }
  }

  /** Cutting one too many before the move to the front changes nothing. */
  lemma {:induction false} HeadOfDrop(ids: seq<string>, id: string, m: nat)
    requires Distinct(ids)
    ensures Head(Drop(Head(ids, m + 1), id), m) == Head(Drop(ids, id), m)
    decreases m
  {
    if |ids| > m + 1 {
      var x, rest := ids[0], ids[1..];
      assert ids == [x] + rest && Head(ids, m + 1) == [x] + rest[..m];
      if x == id {
        HeadWithout(ids, m);
        assert [] + rest == rest && [] + rest[..m] == rest[..m];
      } else if m > 0 {
        TailDistinct(ids);
        HeadOfDrop(rest, id, m - 1);
        ConsHead(x, Drop(rest[..m], id), Drop(rest, id), m);
      }
    }
  }

  lemma TailDistinct(ids: seq<string>)
    requires Distinct(ids) && ids != []
    ensures Distinct(ids[1..]) && ids[0] !in ids[1..]
  {
    assert forall i :: 0 <= i < |ids[1..]| ==> ids[1..][i] == ids[i + 1];
  }

  lemma HeadWithout(ids: seq<string>, m: nat)
    requires Distinct(ids) && |ids| > m + 1
    ensures var x, rest := ids[0], ids[1..];
            Drop(rest, x) == rest && Drop(rest[..m], x) == rest[..m] && Head(rest[..m], m) == Head(rest, m)
  {
    var x, rest := ids[0], ids[1..];
    TailDistinct(ids);
    DropHas(rest, x);
    DropHas(rest[..m], x);
  }

  lemma ConsHead(x: string, a: seq<string>, b: seq<string>, m: nat)
    requires m > 0 && Head(a, m - 1) == Head(b, m - 1)
    ensures Head([x] + a, m) == Head([x] + b, m)
  {
    assert forall s: seq<string> :: Head([x] + s, m) == [x] + Head(s, m - 1);
  }

  lemma {:induction false} IdsSnoc(rows: Rows, last: Row)
    ensures Ids(rows + [last]) == Ids(rows) + [last.id]
  {
    if rows == [] {
      assert rows + [last] == [last];
      assert [last][1..] == [];
    } else {
      assert (rows + [last])[1..] == rows[1..] + [last];
      IdsSnoc(rows[1..], last);
    }
  }

  lemma {:induction false} DropSnoc(ids: seq<string>, last: string, id: string)
    ensures Drop(ids + [last], id) == Drop(ids, id) + (if last == id then [] else [last])
  {
    if ids == [] {
      assert ids + [last] == [last];
      assert [last][1..] == [];
    } else {
      assert (ids + [last])[1..] == ids[1..] + [last];
      DropSnoc(ids[1..], last, id);
    }
  }

  lemma {:induction false} IdsWithout(rows: Rows, id: string)
    ensures Ids(Without(rows, id)) == Drop(Ids(rows), id)
  {
    if rows != [] {
      var front, last := rows[..|rows| - 1], rows[|rows| - 1];
      IdsWithout(front, id);
      assert rows == front + [last];
      IdsSnoc(front, last);
      DropSnoc(Ids(front), last.id, id);
      if last.id != id {
        IdsSnoc(Without(front, id), last);
      } else {
        assert Without(rows, id) == Without(front, id);
        assert Drop(Ids(front), id) + [] == Drop(Ids(front), id);
      }
    }
  }

  lemma {:induction false} IdsOfCut(rows: Rows, limit: nat)
    requires limit > 0
    ensures Ids(Cut(rows, limit)) == Head(Ids(rows), limit)
  {
    if rows != [] && |rows| > limit {
      if limit == 1 {
        assert rows[..1][1..] == [];
      } else {
        IdsOfCut(rows[1..], limit - 1);
        assert rows[..limit][1..] == rows[1..][..limit - 1];
      }
    }
  }

  lemma {:induction false} RecentDistinct(events: seq<Event>)
    ensures Distinct(Recent(events))
  {
    if events != [] {
      var front, e := events[..|events| - 1], events[|events| - 1];
      RecentDistinct(front);
      if Counts(e) {
        DropDistinct(Recent(front), Strip(e.device));
        DropHas(Recent(front), Strip(e.device));
      }
    }
  }

  /** On sightings alone the list is the `limit` devices seen most recently. */
  lemma {:induction false} ReferenceIsRecent(events: seq<Event>, limit: nat)
    requires OnlySightings(events) && limit > 0
    ensures Ids(Reference(events, limit)) == Head(Recent(events), limit)
  {
    if events != [] {
      var front, e := events[..|events| - 1], events[|events| - 1];
      ReferenceIsRecent(front, limit);
      if Counts(e) {
        TouchIsRecent(Reference(front, limit), Recent(front), Strip(e.device), e.at, limit, events);
      }
    }
  }

  lemma TouchIsRecent(list: Rows, recent: seq<string>, id: string, at: int, limit: nat, events: seq<Event>)
    requires limit > 0 && events != [] && recent == Recent(events[..|events| - 1]) && Ids(list) == Head(recent, limit)
    ensures Ids(Touch(list, id, at, limit)) == Head([id] + Drop(recent, id), limit)
  {
    var row := Seen(RowOf(list, id), id, at);
    var full := [row] + Without(list, id);
    RecentDistinct(events[..|events| - 1]);
    IdsOfCut(full, limit);
    IdsWithout(list, id);
    assert full[1..] == Without(list, id);
    HeadOfDrop(recent, id, limit - 1);
    ConsHead(id, Drop(Ids(list), id), Drop(recent, id), limit);
  }

  /** Where a device was last seen; -1 when it never was. */
  function LastIndex(events: seq<Event>, id: string): int {
    if events == [] then -1
    else if Counts(events[|events| - 1]) && Strip(events[|events| - 1].device) == id then |events| - 1
    else LastIndex(events[..|events| - 1], id)
  }

  lemma {:induction false} LastIndexBelow(events: seq<Event>, id: string)
    ensures -1 <= LastIndex(events, id) < |events|
  {
    if events != [] {
      LastIndexBelow(events[..|events| - 1], id);
    }
  }

  ghost predicate ByRecency(events: seq<Event>, ids: seq<string>) {
    forall i, j :: 0 <= i < j < |ids| ==> LastIndex(events, ids[i]) > LastIndex(events, ids[j])
  }

  lemma {:induction false} DropByRecency(events: seq<Event>, ids: seq<string>, id: string)
    requires ByRecency(events, ids)
    ensures ByRecency(events, Drop(ids, id))
  {
    if ids != [] {
      assert forall i :: 0 <= i < |ids[1..]| ==> ids[1..][i] == ids[i + 1];
      DropByRecency(events, ids[1..], id);
      DropHas(ids[1..], id);
      forall x | x in ids[1..] ensures LastIndex(events, ids[0]) > LastIndex(events, x) {
        var k :| 0 <= k < |ids[1..]| && ids[1..][k] == x;
        assert ids[k + 1] == x;
      }
    }
  }

  /** `Recent` is what it says: every device seen, once, the later seen before the earlier. */
  lemma {:induction false} RecentMeans(events: seq<Event>)
    ensures forall id :: id in Recent(events) <==> LastIndex(events, id) >= 0
    ensures ByRecency(events, Recent(events))
  {
    if events != [] {
      var front, e := events[..|events| - 1], events[|events| - 1];
      RecentMeans(front);
      if Counts(e) {
        var id := Strip(e.device);
        DropHas(Recent(front), id);
        DropByRecency(front, Recent(front), id);
        var rest := Drop(Recent(front), id);
        forall x | x in rest ensures LastIndex(events, x) == LastIndex(front, x) < |front| {
          LastIndexBelow(front, x);
        }
        forall i, j | 0 <= i < j < |[id] + rest| ensures LastIndex(events, ([id] + rest)[i]) > LastIndex(events, ([id] + rest)[j]) {
          assert ([id] + rest)[j] == rest[j - 1];
          assert rest[j - 1] in rest;
          if i > 0 {
            assert ([id] + rest)[i] == rest[i - 1] && rest[i - 1] in rest;
          }
        }
      }
    }
  }

  /** Over every run of sightings at increasing times and a cap of at least one, the roster
      holds exactly the devices seen most recently, listed by recency. */
  lemma RosterKeepsMostRecent(events: seq<Event>, limit: nat)
    requires Ticking(events) && OnlySightings(events) && limit > 0
    ensures DeviceIds(Run(events, limit)) == Head(Recent(events), limit)
    ensures ByRecency(events, Recent(events)) && forall id :: id in Recent(events) <==> LastIndex(events, id) >= 0
  {
    RosterIsLru(events, limit);
    ReferenceIsRecent(events, limit);
    RecentMeans(events);
  }

  // ----- what needs no clock --------------------------------------------------------------------------

  lemma {:induction false} WithoutAllHas(rows: Rows, stale: Rows, r: Row)
    requires r in WithoutAll(rows, stale)
    ensures r in rows
    decreases |stale|
  {
    if stale != [] {
      WithoutAllHas(Without(rows, stale[0].id), stale[1..], r);
      WithoutHas(rows, stale[0].id);
    }
  }

  lemma RecordHas(before: Rows, device: string, at: int, limit: nat, r: Row)
    requires r in RecordSeen(before, device, at, limit)
    ensures var id := Strip(device); r in before || (id != "" && r == Seen(RowOf(before, id), id, at))
  {
    var id := Strip(device);
    if id != "" {
      var row := Seen(RowOf(before, id), id, at);
      var up := Upsert(before, row);
      if limit > 0 && |up| > limit {
        WithoutAllHas(up, Sort(LastSeen, up)[..|up| - limit], r);
      }
      assert r in up ==> r == row || r in before;
    }
  }

  predicate FirstThenLast(r: Row) {
    r.first <= r.last && r.sightings >= 1
  }

  lemma SeenFirstThenLast(before: Rows, id: string, at: int)
    requires forall r :: r in before ==> FirstThenLast(r)
    ensures FirstThenLast(Seen(RowOf(before, id), id, at))
  {
    if RowOf(before, id).Some? {
      assert RowOf(before, id).value in before;
    }
  }

  /** Whatever the clock does, no device was first seen after it was last seen. */
  lemma {:induction false} FirstBeforeLast(events: seq<Event>, limit: nat)
    ensures forall r :: r in Run(events, limit) ==> r.first <= r.last && r.sightings >= 1
  {
    if events != [] {
      var front, e := events[..|events| - 1], events[|events| - 1];
      FirstBeforeLast(front, limit);
      forall r | r in Run(events, limit) ensures FirstThenLast(r) {
        if e.SeenAt? {
          RecordHas(Run(front, limit), e.device, e.at, limit, r);
          SeenFirstThenLast(Run(front, limit), Strip(e.device), e.at);
        } else {
          WithoutHas(Run(front, limit), Strip(e.device));
        }
      }
    }
  }

  lemma WithoutCons(x: Row, rest: Rows, id: string)
    ensures Without([x] + rest, id) == (if x.id == id then [] else [x]) + Without(rest, id)
  {
    RejectingConcat(IdIs(id), [x], rest);
    assert [x][..0] == [];
  }

  lemma InsertFront(key: Row -> int, r: Row, sorted: Rows)
    requires forall x :: x in sorted ==> key(r) < key(x)
    ensures Insert(key, r, sorted) == [r] + sorted
  {
    if sorted != [] { assert sorted[0] in sorted; }
  }

  lemma InsertPast(key: Row -> int, r: Row, x: Row, rest: Rows)
    requires key(x) <= key(r)
    ensures Insert(key, r, [x] + rest) == [x] + Insert(key, r, rest)
  {
    assert ([x] + rest)[1..] == rest;
  }

  lemma InsertBefore(key: Row -> int, r: Row, sorted: Rows, id: string)
    requires Sorted(key, sorted) && (sorted != [] ==> key(r) < key(sorted[0]))
    ensures Insert(key, r, sorted) == [r] + sorted && Insert(key, r, Without(sorted, id)) == [r] + Without(sorted, id)
  {
    forall x | x in sorted ensures key(r) < key(x) {
      var i :| 0 <= i < |sorted| && sorted[i] == x;
      assert i > 0 ==> key(sorted[0]) <= key(sorted[i]);
    }
    WithoutHas(sorted, id);
    InsertFront(key, r, sorted);
    InsertFront(key, r, Without(sorted, id));
  }

  lemma {:induction false} InsertWithout(key: Row -> int, r: Row, sorted: Rows, id: string)
    requires Sorted(key, sorted)
    ensures Without(Insert(key, r, sorted), id)
         == if r.id == id then Without(sorted, id) else Insert(key, r, Without(sorted, id))
  {
    if sorted == [] || key(r) < key(sorted[0]) {
      InsertBefore(key, r, sorted, id);
      WithoutCons(r, sorted, id);
      assert [] + Without(sorted, id) == Without(sorted, id);
    } else {
      InsertWithout(key, r, sorted[1..], id);
      InsertFurther(key, r, sorted[0], sorted[1..], id);
      assert sorted == [sorted[0]] + sorted[1..];
    }
  }

  lemma InsertFurther(key: Row -> int, r: Row, x: Row, rest: Rows, id: string)
    requires key(x) <= key(r)
    requires Without(Insert(key, r, rest), id) == if r.id == id then Without(rest, id) else Insert(key, r, Without(rest, id))
    ensures Without(Insert(key, r, [x] + rest), id)
         == if r.id == id then Without([x] + rest, id) else Insert(key, r, Without([x] + rest, id))
  {
    InsertPast(key, r, x, rest);
    WithoutCons(x, rest, id);
    WithoutCons(x, Insert(key, r, rest), id);
    if x.id == id {
      assert [] + Without(rest, id) == Without(rest, id);
      assert [] + Without(Insert(key, r, rest), id) == Without(Insert(key, r, rest), id);
    } else {
      InsertPast(key, r, x, Without(rest, id));
    }
  }

  lemma {:induction false} SortWithout(key: Row -> int, rows: Rows, id: string)
    ensures Sort(key, Without(rows, id)) == Without(Sort(key, rows), id)
  {
    if rows != [] {
      var front, last := rows[..|rows| - 1], rows[|rows| - 1];
      SortWithout(key, front, id);
      SortSorts(key, front);
      InsertWithout(key, last, Sort(key, front), id);
      if last.id != id {
        assert (Without(front, id) + [last])[..|Without(front, id)|] == Without(front, id);
      } else {
        assert Without(rows, id) == Without(front, id);
      }
    }
  }

  /** Forgetting a device takes it off the list and leaves the order of the others, on any
      table and whatever the times. */
  lemma ForgetKeepsOrder(rows: Rows, device: string)
    ensures DeviceIds(Forget(rows, device)) == Drop(DeviceIds(rows), Strip(device))
  {
    SortWithout(MostRecent, rows, Strip(device));
    IdsWithout(Sort(MostRecent, rows), Strip(device));
  }

  // ----- what a row says ----------------------------------------------------------------------------------

  /** One device's own history: its earliest and latest time, and how often it was seen. */
  function OwnRow(events: seq<Event>, id: string): Option<Row> {
    if events == [] then None
    else
      var before, e := OwnRow(events[..|events| - 1], id), events[|events| - 1];
      if e.SeenAt? && Strip(e.device) == id then Some(Seen(before, id, e.at)) else before
  }

  lemma {:induction false} FindElsewhere(rows: Rows, row: Row, id: string)
    requires row.id != id
    ensures RowOf(Upsert(rows, row), id) == RowOf(rows, id)
  {
    if rows == [] {
      assert [] + [row] == [row] && [row][1..] == [];
    } else if rows[0].id != row.id {
      FindElsewhere(rows[1..], row, id);
      assert Upsert(rows, row) == [rows[0]] + Upsert(rows[1..], row);
      RowOfCons(rows[0], Upsert(rows[1..], row), id);
      RowOfCons(rows[0], rows[1..], id);
      assert rows == [rows[0]] + rows[1..];
    } else {
      assert Upsert(rows, row) == [row] + rows[1..] && rows == [rows[0]] + rows[1..];
      RowOfCons(row, rows[1..], id);
      RowOfCons(rows[0], rows[1..], id);
    }
  }

  lemma RowOfCons(r: Row, rest: Rows, id: string)
    ensures RowOf([r] + rest, id) == if r.id == id then Some(r) else RowOf(rest, id)
  {
    assert ([r] + rest)[1..] == rest;
  }

  lemma {:induction false} FindItself(rows: Rows, row: Row)
    ensures RowOf(Upsert(rows, row), row.id) == Some(row)
  {
    if rows == [] {
      assert [] + [row] == [row];
    } else if rows[0].id != row.id {
      FindItself(rows[1..], row);
      assert Upsert(rows, row) == [rows[0]] + Upsert(rows[1..], row);
      assert ([rows[0]] + Upsert(rows[1..], row))[1..] == Upsert(rows[1..], row);
    }
  }

  /** Without a cap every row is that of its device's own sightings: nobody else's sighting
      touches it, and the first time is kept. */
  lemma {:induction false} UncappedRowsAreTheirOwn(events: seq<Event>, id: string)
    requires OnlySightings(events) && id != ""
    ensures RowOf(Run(events, 0), id) == OwnRow(events, id)
  {
    if events != [] {
      var front, e := events[..|events| - 1], events[|events| - 1];
      UncappedRowsAreTheirOwn(front, id);
      var before, d := Run(front, 0), Strip(e.device);
      if d != "" {
        var row := Seen(RowOf(before, d), d, e.at);
        if d == id {
          FindItself(before, row);
        } else {
          FindElsewhere(before, row, id);
        }
      }
    }
  }

  /** And that row is exact: earliest time, latest sighting's time, number of sightings. */
  lemma {:induction false} OwnRowIsExact(events: seq<Event>, id: string)
    requires OwnRow(events, id).Some?
    ensures var r, times := OwnRow(events, id).value, Times(events, id);
            && times != [] && r.id == id && r.sightings == |times| && r.last == times[|times| - 1]
            && r.first in times && forall t :: t in times ==> r.first <= t
  {
    var front, e := events[..|events| - 1], events[|events| - 1];
    if e.SeenAt? && Strip(e.device) == id {
      if OwnRow(front, id).Some? {
        OwnRowIsExact(front, id);
      } else {
        NeverSeen(front, id);
      }
      assert Times(events, id) == Times(front, id) + [e.at];
    } else {
      OwnRowIsExact(front, id);
    }
  }

  function Times(events: seq<Event>, id: string): seq<int> {
    if events == [] then []
    else
      var e := events[|events| - 1];
      Times(events[..|events| - 1], id) + (if e.SeenAt? && Strip(e.device) == id then [e.at] else [])
  }

  lemma {:induction false} NeverSeen(events: seq<Event>, id: string)
    requires OwnRow(events, id).None?
    ensures Times(events, id) == []
  {
    if events != [] {
      NeverSeen(events[..|events| - 1], id);
    }
  }
}
