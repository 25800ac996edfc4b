/** The log and the view over it: a capped ring of stamped packets, a roll-up with a
    watermark, and the driver that writes the roll-up first and the ring second while either
    write may be lost. */
module Ingest {
  import opened Wrappers
  import opened Telemetry

  // ----- the relation between the two records ------------------------------------------------

  function Stamped(p: Packet, n: nat): Packet
    requires n >= 1
  {
    p.(stamp := Some(n))
  }

  predicate HasSeq(p: Packet) {
    PacketSeq(p).Some?
  }

  function SeqOf(p: Packet): nat
    requires HasSeq(p)
  {
    PacketSeq(p).value
  }

  function MaxSeq(ring: seq<Packet>): nat {
    if ring == [] then 0
    else
      var rest := MaxSeq(ring[1..]);
      if HasSeq(ring[0]) && SeqOf(ring[0]) > rest then SeqOf(ring[0]) else rest
  }

  /** One past the highest number either record knows. */
  function NextSeq(ring: seq<Packet>, r: Rollup): nat {
    (if MaxSeq(ring) > r.throughSeq then MaxSeq(ring) else r.throughSeq) + 1
  }

  method ComputeNextSeq(ring: seq<Packet>, r: Rollup) returns (n: nat)
    ensures n == NextSeq(ring, r)
  {
    var highest: nat := 0;
    assert ring[0..] == ring;
    for i := 0 to |ring|
      invariant (if MaxSeq(ring[i..]) > highest then MaxSeq(ring[i..]) else highest) == MaxSeq(ring)
    {
      assert ring[i..][1..] == ring[i + 1..];
      var s := PacketSeq(ring[i]);
      if s.Some? && s.value > highest {
        highest := s.value;
      }
    }
    assert ring[|ring|..] == [];
    n := (if highest > r.throughSeq then highest else r.throughSeq) + 1;
  }

  /** The stamped packets past the watermark, in ring order; an unstamped one is folded. */
  function Missing(through: nat, ring: seq<Packet>): (m: seq<Packet>)
    ensures forall k :: 0 <= k < |m| ==> HasSeq(m[k]) && SeqOf(m[k]) > through && m[k] in ring
  {
    if ring == [] then []
    else (if HasSeq(ring[0]) && SeqOf(ring[0]) > through then [ring[0]] else []) + Missing(through, ring[1..])
  }

  predicate AllStamped(ps: seq<Packet>) {
    forall k :: 0 <= k < |ps| ==> HasSeq(ps[k])
  }

  /** Stable insertion by sequence number. */
  function Insert(p: Packet, sorted: seq<Packet>): (r: seq<Packet>)
    requires HasSeq(p) && AllStamped(sorted)
    ensures AllStamped(r) && multiset(r) == multiset(sorted) + multiset{p}
  {
    if sorted == [] || SeqOf(p) <= SeqOf(sorted[0]) then
      assert [p] + sorted == [p] + sorted;
      [p] + sorted
    else
      assert sorted == [sorted[0]] + sorted[1..];
      [sorted[0]] + Insert(p, sorted[1..])
  }

  function SortBySeq(ps: seq<Packet>): (r: seq<Packet>)
    requires AllStamped(ps)
    ensures AllStamped(r) && multiset(r) == multiset(ps)
  {
    if ps == [] then []
    else
      assert ps == [ps[0]] + ps[1..];
      Insert(ps[0], SortBySeq(ps[1..]))
  }

  /** What the roll-up has not counted yet, oldest first. */
  function Unfolded(r: Rollup, ring: seq<Packet>): (u: seq<Packet>)
    ensures AllStamped(u) && multiset(u) == multiset(Missing(r.throughSeq, ring))
  {
    SortBySeq(Missing(r.throughSeq, ring))
  }

  function EventsOf(ps: seq<Packet>, now: int, cap: nat): (es: seq<Event>)
    ensures |es| == |ps| && forall k :: 0 <= k < |ps| ==> es[k] == Event(ps[k], now, cap)
  {
    seq(|ps|, k requires 0 <= k < |ps| => Event(ps[k], now, cap))
  }

  ghost function Reconciled(cal: Calendar, r: Rollup, ring: seq<Packet>, now: int, cap: nat): Rollup {
    FoldAll(cal, r, EventsOf(Unfolded(r, ring), now, cap))
  }

  lemma FoldStep(cal: Calendar, r: Rollup, events: seq<Event>, i: nat)
    requires i < |events|
    ensures FoldAll(cal, r, events[..i + 1]) == RollUp(cal, FoldAll(cal, r, events[..i]), events[i])
  {
    assert events[..i + 1][..i] == events[..i];
  }

  method ReconcileRollup(cal: Calendar, r: Rollup, ring: seq<Packet>, now: int, cap: nat) returns (out: Rollup)
    ensures out == Reconciled(cal, r, ring, now, cap)
  {
    var missing := Unfolded(r, ring);
    ghost var events := EventsOf(missing, now, cap);
    out := r;
    for i := 0 to |missing|
      invariant out == FoldAll(cal, r, events[..i])
    {
      FoldStep(cal, r, events, i);
      out := RollUpPacket(cal, out, Event(missing[i], now, cap));
    }
    assert events[..|missing|] == events;
  }

  // ----- reconciling is complete and idempotent ------------------------------------------------

  lemma {:induction false} FoldConcat(cal: Calendar, r: Rollup, a: seq<Event>, b: seq<Event>)
    ensures FoldAll(cal, r, a + b) == FoldAll(cal, FoldAll(cal, r, a), b)
    decreases |b|
  {
    if b == [] {
      assert a + b == a;
    } else {
      assert (a + b)[..|a + b| - 1] == a + b[..|b| - 1];
      FoldConcat(cal, r, a, b[..|b| - 1]);
    }
  }

  function Mark(e: Event): nat {
    if HasSeq(e.packet) then SeqOf(e.packet) else 0
  }

  lemma RollUpBasics(cal: Calendar, r: Rollup, e: Event)
    ensures var out := RollUp(cal, r, e);
            out.total == r.total + 1 && out.throughSeq == if Mark(e) > r.throughSeq then Mark(e) else r.throughSeq
  {
  }

  /** The watermark a history leaves: the highest number folded, or what was there. */
  function Through(start: nat, events: seq<Event>): nat {
    if events == [] then start
    else
      var before := Through(start, events[..|events| - 1]);
      if Mark(events[|events| - 1]) > before then Mark(events[|events| - 1]) else before
  }

  lemma {:induction false} FoldCounts(cal: Calendar, r: Rollup, events: seq<Event>)
    ensures var out := FoldAll(cal, r, events);
            out.total == r.total + |events| && out.throughSeq == Through(r.throughSeq, events)
  {
    if events != [] {
      FoldCounts(cal, r, events[..|events| - 1]);
      RollUpBasics(cal, FoldAll(cal, r, events[..|events| - 1]), events[|events| - 1]);
    }
  }

  lemma {:induction false} ThroughBounds(start: nat, events: seq<Event>)
    ensures Through(start, events) >= start
    ensures forall k :: 0 <= k < |events| ==> Mark(events[k]) <= Through(start, events)
    ensures Through(start, events) > start ==> exists k :: 0 <= k < |events| && Mark(events[k]) == Through(start, events)
  {
    if events != [] {
      var front := events[..|events| - 1];
      ThroughBounds(start, front);
      assert forall k :: 0 <= k < |front| ==> front[k] == events[k];
      if Mark(events[|events| - 1]) <= Through(start, front) && Through(start, front) > start {
        var k :| 0 <= k < |front| && Mark(front[k]) == Through(start, front);
        assert Mark(events[k]) == Through(start, front);
      }
    }
  }

  lemma {:induction false} NothingMissing(through: nat, ring: seq<Packet>)
    requires forall k :: 0 <= k < |ring| && HasSeq(ring[k]) ==> SeqOf(ring[k]) <= through
    ensures Missing(through, ring) == []
  {
    if ring != [] {
      NothingMissing(through, ring[1..]);
    }
  }

  lemma {:induction false} MissingHas(through: nat, ring: seq<Packet>, k: nat)
    requires k < |ring| && HasSeq(ring[k]) && SeqOf(ring[k]) > through
    ensures ring[k] in Missing(through, ring)
  {
    if k > 0 {
      MissingHas(through, ring[1..], k - 1);
    }
  }

  /** After reconciling nothing is unfolded, and reconciling again changes nothing: for any
      roll-up and any ring, ordered or not. */
  lemma ReconcileCompletes(cal: Calendar, r: Rollup, ring: seq<Packet>, now: int, cap: nat, now2: int, cap2: nat)
    ensures var out := Reconciled(cal, r, ring, now, cap);
            && Unfolded(out, ring) == []
            && Reconciled(cal, out, ring, now2, cap2) == out
  {
    var u := Unfolded(r, ring);
    var events := EventsOf(u, now, cap);
    var out := Reconciled(cal, r, ring, now, cap);
    FoldCounts(cal, r, events);
    ThroughBounds(r.throughSeq, events);
    forall k | 0 <= k < |ring| && HasSeq(ring[k]) ensures SeqOf(ring[k]) <= out.throughSeq {
      if SeqOf(ring[k]) > r.throughSeq {
        MissingHas(r.throughSeq, ring, k);
        assert ring[k] in multiset(u);
        var j :| 0 <= j < |u| && u[j] == ring[k];
        assert events[j].packet == ring[k] && Mark(events[j]) == SeqOf(ring[k]);
      }
    }
    NothingMissing(out.throughSeq, ring);
    assert multiset(Unfolded(out, ring)) == multiset([]);
    assert |multiset(Unfolded(out, ring))| == |Unfolded(out, ring)|;
  }

  /** Folding a new packet without reconciling first moves the watermark past a packet whose
      roll-up write was lost: it is on the ring, it is not counted, and no later repair can
      see that. */
  lemma FoldingWithoutReconcileSkips(cal: Calendar)
    ensures var p1, p2 := Packet(Some(1), "wake", None, 1), Packet(Some(2), "said", None, 2);
            var out := RollUp(cal, NEW_ROLLUP, Event(p2, 0, 0));
            out.total == 1 && Unfolded(out, [p1, p2]) == []
  {
    var p1, p2 := Packet(Some(1), "wake", None, 1), Packet(Some(2), "said", None, 2);
    var out := RollUp(cal, NEW_ROLLUP, Event(p2, 0, 0));
    assert out.throughSeq == 2;
    NothingMissing(2, [p1, p2]);
    assert multiset(Unfolded(out, [p1, p2])) == multiset([]);
    assert |multiset(Unfolded(out, [p1, p2]))| == |Unfolded(out, [p1, p2])|;
  }

  // ----- the driver -------------------------------------------------------------------------------

  /** Both records, and the history they stand for: what was folded into the roll-up on disk,
      the packets that reached either record, and the numbers of those evicted from the ring
      before any roll-up on disk had counted them. */
  datatype World = World(ring: seq<Packet>, roll: Rollup, counted: seq<Event>, durable: seq<Packet>, lost: set<nat>)

  datatype Step =
    | Take(packet: Packet, now: int, dayCap: nat, ringCap: nat, rollKept: bool, ringKept: bool)
    | Repair(now: int, dayCap: nat, rollKept: bool)

  function NewestOf(ring: seq<Packet>, cap: nat): seq<Packet> {
    if |ring| > cap then ring[|ring| - cap..] else ring
  }

  function FoldedBy(w: World, now: int, cap: nat): seq<Event> {
    EventsOf(Unfolded(w.roll, w.ring), now, cap)
  }

  /** The numbers past a watermark that a ring no longer holds. */
  function Evicted(was: seq<Packet>, ring: seq<Packet>, through: nat): set<nat> {
    set p | p in was && p !in ring && HasSeq(p) && SeqOf(p) > through :: SeqOf(p)
  }

  /** One packet: stamp, reconcile, fold, write the roll-up, then the ring. */
  ghost function TakeOne(cal: Calendar, w: World, s: Step): World
    requires s.Take?
  {
    var n := NextSeq(w.ring, w.roll);
    var row := Stamped(s.packet, n);
    var counted := if s.rollKept then w.counted + FoldedBy(w, s.now, s.dayCap) + [Event(row, s.now, s.dayCap)] else w.counted;
    var roll := if s.rollKept
                then RollUp(cal, Reconciled(cal, w.roll, w.ring, s.now, s.dayCap), Event(row, s.now, s.dayCap))
                else w.roll;
    var ring := if s.ringKept then NewestOf(w.ring + [row], s.ringCap) else w.ring;
    var reached := s.rollKept || row in ring;
    World(ring, roll, counted, if reached then w.durable + [row] else w.durable,
          w.lost + Evicted(w.ring, ring, roll.throughSeq))
  }

  ghost function RepairOne(cal: Calendar, w: World, s: Step): World
    requires s.Repair?
  {
    if s.rollKept
    then w.(roll := Reconciled(cal, w.roll, w.ring, s.now, s.dayCap), counted := w.counted + FoldedBy(w, s.now, s.dayCap))
    else w
  }

  ghost function Advance(cal: Calendar, w: World, s: Step): World {
    if s.Take? then TakeOne(cal, w, s) else RepairOne(cal, w, s)
  }

  ghost function RunAll(cal: Calendar, w: World, steps: seq<Step>): World
    decreases |steps|
  {
    if steps == [] then w else RunAll(cal, Advance(cal, w, steps[0]), steps[1..])
  }

  /** The two records as they were before packets were numbered: no stamps, no watermark. */
  predicate Legacy(ring: seq<Packet>, roll: Rollup) {
    roll.throughSeq == 0 && forall k :: 0 <= k < |ring| ==> !HasSeq(ring[k])
  }

  function Genesis(ring: seq<Packet>, roll: Rollup): World {
    World(ring, roll, [], [], {})
  }

  class Recorder {
    var ring: seq<Packet>
    var roll: Rollup

    constructor (ring: seq<Packet>, roll: Rollup)
      ensures this.ring == ring && this.roll == roll
    {
      this.ring, this.roll := ring, roll;
    }

    /** `_persist_telemetry` past the privacy gate, with each write's fate decided outside. */
    method Persist(cal: Calendar, packet: Packet, now: int, dayCap: nat, ringCap: nat,
                   rollKept: bool, ringKept: bool, ghost w: World) returns (stored: bool)
      requires w.ring == ring && w.roll == roll
      modifies this
      ensures var w' := Advance(cal, w, Take(packet, now, dayCap, ringCap, rollKept, ringKept));
              ring == w'.ring && roll == w'.roll
      ensures stored == (rollKept || ringKept)
    {
      var n := ComputeNextSeq(ring, roll);
      var row := Stamped(packet, n);
      var healed := ReconcileRollup(cal, roll, ring, now, dayCap);
      var folded := RollUpPacket(cal, healed, Event(row, now, dayCap));
      if rollKept {
        roll := folded;
      }
      if ringKept {
        ring := NewestOf(ring + [row], ringCap);
      }
      stored := rollKept || ringKept;
    }

    /** `telemetry_rollup` once both records are read: answer with the reconciled view, and
        write it back when something was missing. `stored` and `seen` are what the two reads
        returned; an ingest may have written either record since. */
    method ReadView(cal: Calendar, stored: Rollup, seen: seq<Packet>, now: int, dayCap: nat, rollKept: bool)
      returns (view: Rollup)
      modifies this`roll
      ensures view == Reconciled(cal, stored, seen, now, dayCap)
      ensures roll == if Unfolded(stored, seen) != [] && rollKept then view else old(roll)
      ensures seen == ring && stored == old(roll) && rollKept ==> roll == view
    {
      var missing := Unfolded(stored, seen);
      view := ReconcileRollup(cal, stored, seen, now, dayCap);
      if missing != [] && rollKept {
        roll := view;
      }
    }
  }
}
