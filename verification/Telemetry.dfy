/** The capped daily roll-up as a view of the packets folded into it: it is the unbounded
    group-by of the whole history, cut to the newest days. */
module Telemetry {
  import opened Basics
  import opened Wrappers

  const EPOCH_FLOOR := 1577836800
  const DAY_SECONDS := 86400
  const MAX_DAY_EVENTS := 24
  const OTHER_EVENT := "(other)"

  /** A stored envelope. `stamp` is the server's `seq`; `body` stands for the other fields. */
  datatype Packet = Packet(stamp: Option<int>, name: string, recordedAt: Option<int>, body: int)

  datatype Row = Row(count: nat, byEvent: map<string, nat>, first: Option<int>, last: Option<int>)

  datatype Rollup = Rollup(days: map<int, Row>, total: nat, droppedDays: nat, updatedAt: Option<int>, throughSeq: nat)

  const NEW_ROLLUP := Rollup(map[], 0, 0, None, 0)

  /** Local calendar day of a timestamp; later days compare greater, as their names do. */
  type Calendar = int -> int

  /** One fold: a packet, the arrival time and the day cap in force. */
  datatype Event = Event(packet: Packet, now: int, cap: nat)

  function PacketSeq(p: Packet): Option<nat> {
    if p.stamp.Some? && p.stamp.value > 0 then Some(p.stamp.value) else None
  }

  /** The packet's own time, or arrival when it has none that is plausible. */
  function PacketTime(p: Packet, now: int): int {
    if p.recordedAt.None? || p.recordedAt.value < EPOCH_FLOOR || p.recordedAt.value > now + DAY_SECONDS
    then now else p.recordedAt.value
  }

  function PacketDay(cal: Calendar, p: Packet, now: int): int {
    cal(PacketTime(p, now))
  }

  function EventName(p: Packet): string {
    if p.name == "" then "event" else p.name
  }

  // ----- one day row ---------------------------------------------------------------------------

  const NEW_ROW := Row(0, map[], None, None)

  function Counted(names: map<string, nat>, name: string): map<string, nat> {
    var n := if name !in names && |names| >= MAX_DAY_EVENTS then OTHER_EVENT else name;
    names[n := (if n in names then names[n] else 0) + 1]
  }

  function Earliest(a: Option<int>, t: int): Option<int> {
    Some(if a.None? || t < a.value then t else a.value)
  }

  function Latest(a: Option<int>, t: int): Option<int> {
    Some(if a.None? || t > a.value then t else a.value)
  }

  function AddToRow(row: Row, name: string, t: int): Row {
    Row(row.count + 1, Counted(row.byEvent, name), Earliest(row.first, t), Latest(row.last, t))
  }

  // ----- pruning to the newest days --------------------------------------------------------------

  lemma Pick<T>(s: set<T>) returns (x: T)
    requires s != {}
    ensures x in s
  {
    x :| x in s;
  }

  lemma LeastExists(s: set<int>)
    requires s != {}
    ensures exists m :: m in s && forall x :: x in s ==> m <= x
  {
    var x := Pick(s);
    if s != {x} {
      var rest := s - {x};
      LeastExists(rest);
      var m :| m in rest && forall y :: y in rest ==> m <= y;
      assert forall y :: y in s ==> y == x || y in rest;
      if x < m {
        assert forall y :: y in s ==> x <= y;
      }
    }
  }

  ghost function Least(s: set<int>): (m: int)
    requires s != {}
    ensures m in s && forall x :: x in s ==> m <= x
  {
    LeastExists(s);
    var m :| m in s && forall x :: x in s ==> m <= x;
    m
  }

  /** The `n` greatest elements. */
  ghost function Top(s: set<int>, n: nat): (r: set<int>)
    ensures r <= s && (|s| <= n ==> r == s) && (|s| > n ==> |r| == n)
    decreases |s|
  {
    if |s| <= n then s else Top(s - {Least(s)}, n)
  }

  /** A cap of 0 keeps every day. */
  ghost function Kept(s: set<int>, cap: nat): set<int> {
    if cap == 0 then s else Top(s, cap)
  }

  ghost function Restrict(days: map<int, Row>, keys: set<int>): map<int, Row> {
    map d | d in days && d in keys :: days[d]
  }

  lemma RestrictSize(days: map<int, Row>, keys: set<int>)
    ensures |Restrict(days, keys)| <= |days|
  {
    SubsetSize(Restrict(days, keys).Keys, days.Keys);
  }

  /** `roll_up_packet`, uncapped: the row of the packet's day, the totals and the watermark. */
  function Added(cal: Calendar, r: Rollup, e: Event): Rollup {
    var day := PacketDay(cal, e.packet, e.now);
    var row := if day in r.days then r.days[day] else NEW_ROW;
    var s := PacketSeq(e.packet);
    Rollup(r.days[day := AddToRow(row, EventName(e.packet), PacketTime(e.packet, e.now))],
           r.total + 1, r.droppedDays, Some(e.now),
           if s.Some? && s.value > r.throughSeq then s.value else r.throughSeq)
  }

  ghost function RollUp(cal: Calendar, r: Rollup, e: Event): Rollup {
    var a := Added(cal, r, e);
    RestrictSize(a.days, Kept(a.days.Keys, e.cap));
    var days := Restrict(a.days, Kept(a.days.Keys, e.cap));
    a.(days := days, droppedDays := a.droppedDays + |a.days| - |days|)
  }

  method LeastDay(days: map<int, Row>) returns (m: int)
    requires days != map[]
    ensures m in days && forall d :: d in days ==> m <= d
  {
    ghost var some := Pick(days.Keys);
    assert some in days;
    m :| m in days;
    var rest := days.Keys - {m};
    while rest != {}
      invariant m in days && rest <= days.Keys
      invariant forall d :: d in days && d !in rest ==> m <= d
      decreases rest
    {
      ghost var other := Pick(rest);
      assert other in rest;
      var d :| d in rest;
      if d < m {
        m := d;
      }
      rest := rest - {d};
    }
  }

  /** Retire the oldest days until the cap holds. */
  method Prune(days0: map<int, Row>, cap: nat) returns (days: map<int, Row>, dropped: nat)
    ensures days == Restrict(days0, Kept(days0.Keys, cap))
    ensures dropped == |days0| - |days|
  {
    days, dropped := days0, 0;
    if cap == 0 {
      assert days == Restrict(days0, days0.Keys);
      return;
    }
    while |days| > cap
      invariant Top(days.Keys, cap) == Top(days0.Keys, cap) && days.Keys <= days0.Keys
      invariant forall d :: d in days ==> days[d] == days0[d]
      invariant dropped == |days0| - |days|
    {
      var oldest := LeastDay(days);
      assert oldest == Least(days.Keys);
      assert (days - {oldest}).Keys == days.Keys - {oldest};
      days := days - {oldest};
      dropped := dropped + 1;
    }
    assert days == Restrict(days0, days.Keys);
  }

  method RollUpPacket(cal: Calendar, r: Rollup, e: Event) returns (out: Rollup)
    ensures out == RollUp(cal, r, e)
  {
    var a := Added(cal, r, e);
    var days, dropped := Prune(a.days, e.cap);
    out := a.(days := days, droppedDays := a.droppedDays + dropped);
  }

  // ----- histories ---------------------------------------------------------------------------------

  ghost function FoldAll(cal: Calendar, start: Rollup, events: seq<Event>): Rollup {
    if events == [] then start
    else RollUp(cal, FoldAll(cal, start, events[..|events| - 1]), events[|events| - 1])
  }

  /** `t` is the time an event counts for: the packet's own when that lies between the first
      second of 2020 and a day after arrival, and arrival otherwise. */
  predicate CountsAt(e: Event, t: int) {
    var own := e.packet.recordedAt;
    var plausible := own.Some? && 1577836800 <= own.value && own.value - e.now <= 86400;
    (plausible ==> t == own.value) && (!plausible ==> t == e.now)
  }

  ghost predicate OnDay(cal: Calendar, e: Event, d: int) {
    exists t :: CountsAt(e, t) && cal(t) == d
  }

  /** A packet goes by its own name, and a nameless one by "event". */
  predicate Bears(e: Event, name: string) {
    if e.packet.name == "" then name == "event" else name == e.packet.name
  }

  function DayOf(cal: Calendar, e: Event): int {
    PacketDay(cal, e.packet, e.now)
  }

  lemma DayIs(cal: Calendar, e: Event, d: int)
    ensures OnDay(cal, e, d) <==> d == DayOf(cal, e)
  {
    assert CountsAt(e, PacketTime(e.packet, e.now));
  }

  function Seen(cal: Calendar, events: seq<Event>): set<int> {
    set k | 0 <= k < |events| :: DayOf(cal, events[k])
  }

  /** The unbounded group-by: the events of one day, in order. */
  ghost function OfDay(cal: Calendar, events: seq<Event>, d: int): seq<Event> {
    if events == [] then []
    else
      var e := events[|events| - 1];
      OfDay(cal, events[..|events| - 1], d) + (if OnDay(cal, e, d) then [e] else [])
  }

  function Named(events: seq<Event>, name: string): nat {
    if events == [] then 0
    else (if Bears(events[|events| - 1], name) then 1 else 0) + Named(events[..|events| - 1], name)
  }

  ghost function Sum(m: map<string, nat>): nat
    decreases |m|
  {
    if m == map[] then 0
    else
      var k :| k in m;
      m[k] + Sum(m - {k})
  }

  lemma {:induction false} SumWithout(m: map<string, nat>, k: string)
    requires k in m
    ensures Sum(m) == m[k] + Sum(m - {k})
    decreases |m|
  {
    var j :| j in m && Sum(m) == m[j] + Sum(m - {j});
    if j != k {
      SumWithout(m - {j}, k);
      SumWithout(m - {k}, j);
      assert m - {j} - {k} == m - {k} - {j};
    }
  }

  lemma SumBump(m: map<string, nat>, k: string)
    ensures Sum(m[k := (if k in m then m[k] else 0) + 1]) == Sum(m) + 1
  {
    var m' := m[k := (if k in m then m[k] else 0) + 1];
    SumWithout(m', k);
    if k in m {
      SumWithout(m, k);
      assert m' - {k} == m - {k};
    } else {
      assert m' - {k} == m;
    }
  }

  // ----- a row is the group-by of its day --------------------------------------------------------------

  /** A row tells the truth about the events of its day: their number, the first and last
      time, and at most `MAX_DAY_EVENTS` names besides the overflow, each counted exactly. */
  ghost predicate Truthful(row: Row, events: seq<Event>) {
    && row.count == |events|
    && Sum(row.byEvent) == |events|
    && (|row.byEvent| <= MAX_DAY_EVENTS || (|row.byEvent| == MAX_DAY_EVENTS + 1 && OTHER_EVENT in row.byEvent))
    && (forall n :: n in row.byEvent && n != OTHER_EVENT ==> row.byEvent[n] == Named(events, n))
    && (forall n :: n !in row.byEvent && Named(events, n) > 0 ==> |row.byEvent| >= MAX_DAY_EVENTS)
    && HasTimes(row, events)
  }

  /** The first and last time are the earliest and latest of the events. */
  ghost predicate HasTimes(row: Row, events: seq<Event>) {
    && (row.first.Some? <==> events != []) && (row.last.Some? <==> events != [])
    && (forall k, t :: 0 <= k < |events| && CountsAt(events[k], t) ==> row.first.value <= t <= row.last.value)
    && (events != [] ==> exists i, j :: 0 <= i < |events| && 0 <= j < |events|
                          && CountsAt(events[i], row.first.value) && CountsAt(events[j], row.last.value))
  }

  lemma RowNames(row: Row, events: seq<Event>, e: Event, name: string)
    requires Truthful(row, events) && Bears(e, name)
    ensures var names := Counted(row.byEvent, name);
            && (forall n :: n in names && n != OTHER_EVENT ==> names[n] == Named(events + [e], n))
            && (forall n :: n !in names && Named(events + [e], n) > 0 ==> |names| >= MAX_DAY_EVENTS)
  {
    assert (events + [e])[..|events|] == events;
  }

  lemma RowNameCount(row: Row, events: seq<Event>, name: string)
    requires Truthful(row, events)
    ensures var names := Counted(row.byEvent, name);
            && Sum(names) == |events| + 1
            && (|names| <= MAX_DAY_EVENTS || (|names| == MAX_DAY_EVENTS + 1 && OTHER_EVENT in names))
  {
    var names := row.byEvent;
    SumBump(names, if name !in names && |names| >= MAX_DAY_EVENTS then OTHER_EVENT else name);
  }

  lemma RowStaysTruthful(row: Row, events: seq<Event>, e: Event, name: string, t: int)
    requires Truthful(row, events) && Bears(e, name) && CountsAt(e, t)
    ensures Truthful(AddToRow(row, name, t), events + [e])
  {
    RowNames(row, events, e, name);
    RowNameCount(row, events, name);
    RowTimes(row, events, e, name, t);
  }

  lemma RowTimes(row: Row, events: seq<Event>, e: Event, name: string, t: int)
    requires HasTimes(row, events) && CountsAt(e, t)
    ensures HasTimes(AddToRow(row, name, t), events + [e])
  {
    var row' := AddToRow(row, name, t);
    var events' := events + [e];
    assert events'[|events|] == e;
    assert forall k :: 0 <= k < |events| ==> events'[k] == events[k];
    if events == [] {
      assert CountsAt(events'[0], row'.first.value) && CountsAt(events'[0], row'.last.value);
    } else {
      var i, j :| 0 <= i < |events| && 0 <= j < |events|
                  && CountsAt(events[i], row.first.value) && CountsAt(events[j], row.last.value);
      var i' := if t < row.first.value then |events| else i;
      var j' := if t > row.last.value then |events| else j;
      assert CountsAt(events'[i'], row'.first.value) && CountsAt(events'[j'], row'.last.value);
    }
  }

  // ----- which days are kept ------------------------------------------------------------------------------

  lemma TopStep(s: set<int>, m: int, n: nat)
    requires |s| > n && m in s && forall x :: x in s ==> m <= x
    ensures Top(s, n) == Top(s - {m}, n)
  {
  }

  lemma {:induction false} TopAdd(s: set<int>, d: int, n: nat)
    requires n >= 1
    ensures Top(Top(s, n) + {d}, n) == Top(s + {d}, n)
    decreases |s|
  {
    if |s| > n {
      var m := Least(s);
      TopStep(s, m, n);
      if d > m {
        SubsetSize(s, s + {d});
        TopStep(s + {d}, m, n);
        assert s + {d} - {m} == s - {m} + {d};
        TopAdd(s - {m}, d, n);
      } else {
        TopAddOld(s, m, d, n);
      }
    }
  }

  lemma TopDropsOld(s: set<int>, d: int, n: nat)
    requires |s| >= n && forall x :: x in s ==> d < x
    ensures Top(s + {d}, n) == Top(s, n)
  {
    assert s + {d} - {d} == s && |s + {d}| == |s| + 1;
    TopStep(s + {d}, d, n);
  }

  /** A day no newer than the oldest of too many changes nothing. */
  lemma TopAddOld(s: set<int>, m: int, d: int, n: nat)
    requires |s| > n && m in s && d <= m && forall x :: x in s ==> m <= x
    ensures Top(Top(s - {m}, n) + {d}, n) == Top(s + {d}, n)
  {
    TopStep(s, m, n);
    TopDropsOld(Top(s - {m}, n), d, n);
    if d == m {
      assert s + {d} == s;
    } else {
      TopDropsOld(s, d, n);
    }
  }

  /** How many elements of `s` lie above `d`. */
  function Above(s: set<int>, d: int): nat {
    |set x | x in s && x > d|
  }

  /** The kept days, without reference to pruning: a day is kept exactly when fewer than `n`
      of the days are later. */
  lemma {:induction false} TopMeans(s: set<int>, n: nat, d: int)
    ensures d in Top(s, n) <==> d in s && Above(s, d) < n
    decreases |s|
  {
    var above := set x | x in s && x > d;
    if |s| <= n {
      if d in s {
        assert above <= s - {d};
        SubsetSize(above, s - {d});
      }
    } else {
      var m := Least(s);
      TopMeans(s - {m}, n, d);
      if d == m {
        assert above == s - {m};
      } else if d in s {
        assert (set x | x in s - {m} && x > d) == above;
      }
    }
  }

  // ----- the theorem -----------------------------------------------------------------------------------------

  ghost predicate Capped(events: seq<Event>, cap: nat) {
    forall k :: 0 <= k < |events| ==> events[k].cap == cap
  }

  ghost predicate IsGroupBy(cal: Calendar, r: Rollup, events: seq<Event>, cap: nat) {
    && r.days.Keys == Kept(Seen(cal, events), cap)
    && (forall d :: d in r.days ==> Truthful(r.days[d], OfDay(cal, events, d)))
    && r.total == |events|
  }

  lemma {:induction false} UnseenDayIsEmpty(cal: Calendar, events: seq<Event>, d: int)
    requires d !in Seen(cal, events)
    ensures OfDay(cal, events, d) == []
  {
    if events != [] {
      var front := events[..|events| - 1];
      forall k | 0 <= k < |front| ensures DayOf(cal, front[k]) in Seen(cal, events) {
        assert front[k] == events[k];
      }
      assert d !in Seen(cal, front);
      assert DayOf(cal, events[|events| - 1]) in Seen(cal, events);
      DayIs(cal, events[|events| - 1], d);
      UnseenDayIsEmpty(cal, front, d);
    }
  }

  lemma SeenGrows(cal: Calendar, events: seq<Event>, e: Event)
    ensures Seen(cal, events + [e]) == Seen(cal, events) + {DayOf(cal, e)}
  {
    var events' := events + [e];
    forall d | d in Seen(cal, events) + {DayOf(cal, e)} ensures d in Seen(cal, events') {
      if d in Seen(cal, events) {
        var k :| 0 <= k < |events| && DayOf(cal, events[k]) == d;
        assert events'[k] == events[k];
      } else {
        assert events'[|events|] == e;
      }
    }
    forall d | d in Seen(cal, events') ensures d in Seen(cal, events) + {DayOf(cal, e)} {
      var k :| 0 <= k < |events'| && DayOf(cal, events'[k]) == d;
      if k < |events| {
        assert events'[k] == events[k];
      }
    }
  }

  lemma KeptGrows(s: set<int>, d: int, cap: nat)
    ensures Kept(Kept(s, cap) + {d}, cap) == Kept(s + {d}, cap)
    ensures d in s && d !in Kept(s, cap) ==> d !in Kept(s + {d}, cap)
  {
    if cap > 0 {
      TopAdd(s, d, cap);
      assert d in s ==> s + {d} == s;
    }
  }

  lemma TouchedRow(cal: Calendar, r: Rollup, events: seq<Event>, e: Event)
    requires IsGroupBy(cal, r, events, e.cap)
    requires var day := DayOf(cal, e); day in r.days || day !in Seen(cal, events)
    ensures var day := DayOf(cal, e);
            Truthful(Added(cal, r, e).days[day], OfDay(cal, events + [e], day))
  {
    var day := DayOf(cal, e);
    assert (events + [e])[..|events|] == events;
    DayIs(cal, e, day);
    if day in r.days {
      RowStaysTruthful(r.days[day], OfDay(cal, events, day), e, EventName(e.packet), PacketTime(e.packet, e.now));
    } else {
      UnseenDayIsEmpty(cal, events, day);
      RowStaysTruthful(NEW_ROW, [], e, EventName(e.packet), PacketTime(e.packet, e.now));
    }
  }

  lemma OtherRow(cal: Calendar, events: seq<Event>, e: Event, d: int)
    requires d != DayOf(cal, e)
    ensures OfDay(cal, events + [e], d) == OfDay(cal, events, d)
  {
    DayIs(cal, e, d);
    assert (events + [e])[..|events|] == events;
  }

  lemma KeysStep(cal: Calendar, r: Rollup, events: seq<Event>, e: Event)
    requires r.days.Keys == Kept(Seen(cal, events), e.cap)
    ensures RollUp(cal, r, e).days.Keys == Kept(Seen(cal, events + [e]), e.cap)
    ensures DayOf(cal, e) in RollUp(cal, r, e).days ==> DayOf(cal, e) in r.days || DayOf(cal, e) !in Seen(cal, events)
  {
    var day, a := DayOf(cal, e), Added(cal, r, e);
    SeenGrows(cal, events, e);
    KeptGrows(Seen(cal, events), day, e.cap);
    assert a.days.Keys == r.days.Keys + {day};
    assert RollUp(cal, r, e).days.Keys == Kept(a.days.Keys, e.cap);
  }

  lemma StepKeepsGroupBy(cal: Calendar, r: Rollup, events: seq<Event>, e: Event)
    requires IsGroupBy(cal, r, events, e.cap)
    ensures IsGroupBy(cal, RollUp(cal, r, e), events + [e], e.cap)
  {
    var day, out := DayOf(cal, e), RollUp(cal, r, e);
    KeysStep(cal, r, events, e);
    forall d | d in out.days ensures Truthful(out.days[d], OfDay(cal, events + [e], d)) {
      if d == day {
        TouchedRow(cal, r, events, e);
      } else {
        OtherRow(cal, events, e, d);
      }
    }
  }

  lemma EmptyIsGroupBy(cal: Calendar, cap: nat)
    ensures IsGroupBy(cal, NEW_ROLLUP, [], cap)
  {
    assert Seen(cal, []) == {};
    assert Kept({}, cap) == {};
  }

  lemma OneMore(cal: Calendar, front: seq<Event>, e: Event)
    requires IsGroupBy(cal, FoldAll(cal, NEW_ROLLUP, front), front, e.cap)
    ensures IsGroupBy(cal, FoldAll(cal, NEW_ROLLUP, front + [e]), front + [e], e.cap)
  {
    assert (front + [e])[..|front|] == front;
    StepKeepsGroupBy(cal, FoldAll(cal, NEW_ROLLUP, front), front, e);
  }

  lemma {:induction false} FoldIsGroupBy(cal: Calendar, events: seq<Event>, cap: nat)
    requires Capped(events, cap)
    ensures IsGroupBy(cal, FoldAll(cal, NEW_ROLLUP, events), events, cap)
  {
    if events == [] {
      EmptyIsGroupBy(cal, cap);
    } else {
      var front, e := events[..|events| - 1], events[|events| - 1];
      assert front + [e] == events;
      assert Capped(front, cap) && e.cap == cap;
      FoldIsGroupBy(cal, front, cap);
      OneMore(cal, front, e);
    }
  }

  /** The days on which something happened. */
  ghost predicate AreTheDays(cal: Calendar, events: seq<Event>, days: set<int>) {
    forall d :: d in days <==> exists k :: 0 <= k < |events| && OnDay(cal, events[k], d)
  }

  lemma SeenAreTheDays(cal: Calendar, events: seq<Event>)
    ensures AreTheDays(cal, events, Seen(cal, events))
  {
    forall d ensures d in Seen(cal, events) <==> exists k :: 0 <= k < |events| && OnDay(cal, events[k], d) {
      forall k | 0 <= k < |events| ensures OnDay(cal, events[k], d) <==> DayOf(cal, events[k]) == d {
        DayIs(cal, events[k], d);
      }
      if k :| 0 <= k < |events| && OnDay(cal, events[k], d) {
        assert DayOf(cal, events[k]) == d;
      }
    }
  }

  /** The bounded view is the unbounded group-by cut to its newest days: for every history and
      cap `n >= 1` the kept days are those with fewer than `n` later days on which something
      happened, each row is exact over the whole history, and the total counts every packet. */
  lemma ViewRefinesGroupBy(cal: Calendar, events: seq<Event>, cap: nat) returns (seen: set<int>)
    requires Capped(events, cap) && cap >= 1
    ensures AreTheDays(cal, events, seen)
    ensures var r := FoldAll(cal, NEW_ROLLUP, events);
            && (forall d :: d in r.days <==> d in seen && Above(seen, d) < cap)
            && (forall d :: d in r.days ==> Truthful(r.days[d], OfDay(cal, events, d)))
            && |r.days| <= cap && r.total == |events|
  {
    FoldIsGroupBy(cal, events, cap);
    seen := Seen(cal, events);
    SeenAreTheDays(cal, events);
    var r := FoldAll(cal, NEW_ROLLUP, events);
    forall d ensures d in r.days <==> d in seen && Above(seen, d) < cap {
      TopMeans(seen, cap, d);
      assert d in r.days <==> d in r.days.Keys;
    }
    assert |r.days| == |r.days.Keys|;
  }

  // ----- one fold --------------------------------------------------------------------------------------------

  /** A row with one more event at this time, counted under its name while there is room. */
  ghost predicate OneMoreOn(was: Row, now: Row, e: Event, t: int) {
    && now.count == was.count + 1
    && (forall name :: Bears(e, name) ==>
          var n := if name in was.byEvent || |was.byEvent| < MAX_DAY_EVENTS then name else OTHER_EVENT;
          now.byEvent == was.byEvent[n := (if n in was.byEvent then was.byEvent[n] else 0) + 1])
    && now.first == Some(if was.first.Some? && was.first.value < t then was.first.value else t)
    && now.last == Some(if was.last.Some? && was.last.value > t then was.last.value else t)
  }

  lemma RowHasOneMore(row: Row, e: Event, t: int)
    requires CountsAt(e, t)
    ensures OneMoreOn(row, AddToRow(row, EventName(e.packet), PacketTime(e.packet, e.now)), e, t)
  {
    assert t == PacketTime(e.packet, e.now);
    assert forall name :: Bears(e, name) ==> name == EventName(e.packet);
  }

  /** Which days a fold leaves, and how many it drops. */
  lemma FoldKeepsNewest(cal: Calendar, r: Rollup, e: Event, day: int)
    requires OnDay(cal, e, day)
    ensures var out, days := RollUp(cal, r, e), r.days.Keys + {day};
            && (forall d :: d in out.days <==> d in days && (e.cap == 0 || Above(days, d) < e.cap))
            && out.droppedDays + |out.days| == r.droppedDays + |days|
  {
    DayIs(cal, e, day);
    var a, days := Added(cal, r, e), r.days.Keys + {day};
    assert a.days.Keys == days;
    forall d ensures d in Kept(days, e.cap) <==> d in days && (e.cap == 0 || Above(days, d) < e.cap) {
      TopMeans(days, e.cap, d);
    }
    assert |a.days| == |days|;
  }

  /** Folding a packet counts it once, on the day of its own time if that is plausible and on
      the day it arrived otherwise. No other day's row changes; the days kept are those with
      fewer than the cap later ones, and each day that goes is counted as dropped; the
      watermark is the highest number folded. */
  lemma FoldCountsOnce(cal: Calendar, r: Rollup, e: Event, t: int)
    requires CountsAt(e, t)
    ensures var out, day := RollUp(cal, r, e), cal(t);
            && (day in out.days ==> OneMoreOn(if day in r.days then r.days[day] else NEW_ROW, out.days[day], e, t))
            && (forall d :: d in out.days && d != day ==> d in r.days && out.days[d] == r.days[d])
    ensures var out, days := RollUp(cal, r, e), r.days.Keys + {cal(t)};
            && (forall d :: d in out.days <==> d in days && (e.cap == 0 || Above(days, d) < e.cap))
            && out.droppedDays + |out.days| == r.droppedDays + |days|
    ensures var out := RollUp(cal, r, e);
            && out.total == r.total + 1 && out.updatedAt == Some(e.now)
            && out.throughSeq >= r.throughSeq && (e.packet.stamp.Some? ==> out.throughSeq >= e.packet.stamp.value)
            && (out.throughSeq == r.throughSeq || Some(out.throughSeq as int) == e.packet.stamp)
  {
    FoldKeepsNewest(cal, r, e, cal(t));
    RowHasOneMore(if cal(t) in r.days then r.days[cal(t)] else NEW_ROW, e, t);
  }
}
