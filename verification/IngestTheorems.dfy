/** Exactly-once counting over every run of the ingest driver, lost writes included. */
module IngestTheorems {
  import opened Wrappers
  import opened Telemetry
  import opened Ingest

  // ----- ordered lists of stamped packets --------------------------------------------------------

  /** Stamped packets carry strictly increasing numbers; unstamped ones may stand anywhere. */
  ghost predicate Increasing(ps: seq<Packet>) {
    forall i, j :: 0 <= i < j < |ps| && HasSeq(ps[i]) && HasSeq(ps[j]) ==> SeqOf(ps[i]) < SeqOf(ps[j])
  }

  ghost predicate IncreasingEvents(es: seq<Event>) {
    && (forall k :: 0 <= k < |es| ==> HasSeq(es[k].packet))
    && forall i, j :: 0 <= i < j < |es| ==> Mark(es[i]) < Mark(es[j])
  }

  lemma TailIncreasing(ps: seq<Packet>)
    requires Increasing(ps) && ps != []
    ensures Increasing(ps[1..])
  {
    assert forall i :: 0 <= i < |ps[1..]| ==> ps[1..][i] == ps[i + 1];
  }

  lemma {:induction false} MissingOrdered(through: nat, ring: seq<Packet>)
    requires Increasing(ring)
    ensures Increasing(Missing(through, ring)) && AllStamped(Missing(through, ring))
  {
    if ring != [] {
      var rest := ring[1..];
      TailIncreasing(ring);
      MissingOrdered(through, rest);
      var m := Missing(through, rest);
      forall k | 0 <= k < |m| && HasSeq(ring[0]) ensures SeqOf(ring[0]) < SeqOf(m[k]) {
        assert m[k] in rest;
        var j :| 0 <= j < |rest| && rest[j] == m[k];
        assert ring[j + 1] == m[k];
      }
    }
  }

  lemma {:induction false} SortedStays(ps: seq<Packet>)
    requires AllStamped(ps) && Increasing(ps)
    ensures SortBySeq(ps) == ps
  {
    if ps != [] {
      var rest := ps[1..];
      TailIncreasing(ps);
      SortedStays(rest);
      assert ps == [ps[0]] + rest;
    }
  }

  /** On an ordered ring the repair replays the missing packets in ring order. */
  lemma UnfoldedIsMissing(r: Rollup, ring: seq<Packet>)
    requires Increasing(ring)
    ensures Unfolded(r, ring) == Missing(r.throughSeq, ring) && Increasing(Unfolded(r, ring))
  {
    MissingOrdered(r.throughSeq, ring);
    SortedStays(Missing(r.throughSeq, ring));
  }

  // ----- the invariant -----------------------------------------------------------------------------

  function Highest(w: World): nat {
    if MaxSeq(w.ring) > w.roll.throughSeq then MaxSeq(w.ring) else w.roll.throughSeq
  }

  ghost predicate Contains(es: seq<Event>, p: Packet) {
    exists k :: 0 <= k < |es| && es[k].packet == p
  }

  ghost predicate Counts(w: World, p: Packet) {
    Contains(w.counted, p)
  }

  ghost predicate OnRing(w: World, p: Packet) {
    HasSeq(p) && p in w.ring
  }

  /** Where the packets are: what is folded is in order and below the watermark; what is on
      the ring below the watermark is folded; and a packet that reached either record is
      folded, on the ring, or was evicted unfolded. */
  ghost predicate Filed(w: World) {
    && Increasing(w.ring) && IncreasingEvents(w.counted)
    && (forall k :: 0 <= k < |w.counted| ==> Mark(w.counted[k]) <= w.roll.throughSeq)
    && (forall p :: OnRing(w, p) && SeqOf(p) <= w.roll.throughSeq ==> Counts(w, p))
    && (forall p :: p in w.durable ==> HasSeq(p))
    && (forall p :: Counts(w, p) || OnRing(w, p) ==> p in w.durable && SeqOf(p) !in w.lost)
    && (forall p :: p in w.durable ==> Counts(w, p) || OnRing(w, p) || SeqOf(p) in w.lost)
    && (forall n :: n in w.lost ==> exists p :: p in w.durable && SeqOf(p) == n)
    && Increasing(w.durable)
  }

  /** No packet has a number beyond `top`. */
  ghost predicate Numbered(w: World, top: nat) {
    forall p :: p in w.durable && HasSeq(p) ==> SeqOf(p) <= top
  }

  ghost predicate Accounted(w: World) {
    Filed(w) && Numbered(w, Highest(w))
  }

  ghost predicate Good(cal: Calendar, start: Rollup, w: World) {
    w.roll == FoldAll(cal, start, w.counted) && Accounted(w)
  }

  lemma {:induction false} MaxSeqBounds(ring: seq<Packet>)
    ensures forall p :: p in ring && HasSeq(p) ==> SeqOf(p) <= MaxSeq(ring)
    ensures MaxSeq(ring) > 0 ==> exists p :: p in ring && HasSeq(p) && SeqOf(p) == MaxSeq(ring)
  {
    if ring != [] {
      MaxSeqBounds(ring[1..]);
      if !(HasSeq(ring[0]) && SeqOf(ring[0]) > MaxSeq(ring[1..])) && MaxSeq(ring) > 0 {
        var p :| p in ring[1..] && HasSeq(p) && SeqOf(p) == MaxSeq(ring[1..]);
        assert p in ring;
      }
    }
  }

  // ----- repair ---------------------------------------------------------------------------------------

  /** The history once everything missing is folded. */
  ghost function Healed(w: World, now: int, cap: nat): seq<Event> {
    w.counted + FoldedBy(w, now, cap)
  }

  lemma JoinOrdered(a: seq<Event>, b: seq<Event>, mid: nat)
    requires IncreasingEvents(a) && IncreasingEvents(b)
    requires forall k :: 0 <= k < |a| ==> Mark(a[k]) <= mid
    requires forall k :: 0 <= k < |b| ==> Mark(b[k]) > mid
    ensures IncreasingEvents(a + b)
  {
  }

  lemma JoinContains(a: seq<Event>, b: seq<Event>, p: Packet)
    ensures Contains(a + b, p) <==> Contains(a, p) || Contains(b, p)
  {
    if Contains(a, p) {
      var k :| 0 <= k < |a| && a[k].packet == p;
      assert (a + b)[k].packet == p;
    }
    if Contains(b, p) {
      var k :| 0 <= k < |b| && b[k].packet == p;
      assert (a + b)[|a| + k].packet == p;
    }
  }

  lemma EventsContain(ps: seq<Packet>, now: int, cap: nat, p: Packet)
    ensures Contains(EventsOf(ps, now, cap), p) <==> p in ps
  {
    var es := EventsOf(ps, now, cap);
    if p in ps {
      var k :| 0 <= k < |ps| && ps[k] == p;
      assert es[k].packet == p;
    }
  }

  lemma MissingIs(through: nat, ring: seq<Packet>, p: Packet)
    ensures p in Missing(through, ring) <==> p in ring && HasSeq(p) && SeqOf(p) > through
  {
    if p in ring && HasSeq(p) && SeqOf(p) > through {
      var k :| 0 <= k < |ring| && ring[k] == p;
      MissingHas(through, ring, k);
    }
  }

  lemma FoldedByOrdered(w: World, now: int, cap: nat)
    requires Increasing(w.ring)
    ensures IncreasingEvents(FoldedBy(w, now, cap))
    ensures forall k :: 0 <= k < |FoldedBy(w, now, cap)| ==>
              w.roll.throughSeq < Mark(FoldedBy(w, now, cap)[k]) <= MaxSeq(w.ring)
  {
    var missing := Unfolded(w.roll, w.ring);
    UnfoldedIsMissing(w.roll, w.ring);
    MissingOrdered(w.roll.throughSeq, w.ring);
    EventsOrdered(missing, now, cap);
    forall k | 0 <= k < |missing| ensures w.roll.throughSeq < SeqOf(missing[k]) <= MaxSeq(w.ring) {
      MissingIs(w.roll.throughSeq, w.ring, missing[k]);
      MaxSeqBounds(w.ring);
    }
  }

  lemma EventsOrdered(ps: seq<Packet>, now: int, cap: nat)
    requires Increasing(ps) && AllStamped(ps)
    ensures IncreasingEvents(EventsOf(ps, now, cap))
  {
  }

  lemma HealedIsOrdered(w: World, now: int, cap: nat)
    requires Filed(w)
    ensures IncreasingEvents(Healed(w, now, cap))
    ensures forall k :: 0 <= k < |Healed(w, now, cap)| ==> Mark(Healed(w, now, cap)[k]) <= Highest(w)
  {
    FoldedByOrdered(w, now, cap);
    JoinOrdered(w.counted, FoldedBy(w, now, cap), w.roll.throughSeq);
  }

  lemma HealedHas(w: World, now: int, cap: nat, p: Packet)
    requires Filed(w)
    ensures Contains(Healed(w, now, cap), p) <==> Counts(w, p) || OnRing(w, p)
  {
    UnfoldedIsMissing(w.roll, w.ring);
    JoinContains(w.counted, FoldedBy(w, now, cap), p);
    EventsContain(Unfolded(w.roll, w.ring), now, cap, p);
    MissingIs(w.roll.throughSeq, w.ring, p);
  }

  lemma HealedFolds(cal: Calendar, start: Rollup, w: World, now: int, cap: nat)
    requires w.roll == FoldAll(cal, start, w.counted)
    ensures Reconciled(cal, w.roll, w.ring, now, cap) == FoldAll(cal, start, Healed(w, now, cap))
  {
    FoldConcat(cal, start, w.counted, FoldedBy(w, now, cap));
  }

  /** After a repair the watermark is the highest number either record knows. */
  lemma HealedThrough(cal: Calendar, start: Rollup, w: World, now: int, cap: nat)
    requires Filed(w)
    ensures Reconciled(cal, w.roll, w.ring, now, cap).throughSeq == Highest(w)
  {
    var es := FoldedBy(w, now, cap);
    FoldCounts(cal, w.roll, es);
    ThroughBounds(w.roll.throughSeq, es);
    FoldedByOrdered(w, now, cap);
    MaxSeqBounds(w.ring);
    if MaxSeq(w.ring) > w.roll.throughSeq {
      var p :| p in w.ring && HasSeq(p) && SeqOf(p) == MaxSeq(w.ring);
      UnfoldedIsMissing(w.roll, w.ring);
      MissingIs(w.roll.throughSeq, w.ring, p);
      EventsContain(Unfolded(w.roll, w.ring), now, cap, p);
      var k :| 0 <= k < |es| && es[k].packet == p;
      assert Mark(es[k]) == MaxSeq(w.ring);
    }
  }

  /** The world once everything missing is folded and written. */
  ghost function HealedWorld(cal: Calendar, w: World, now: int, cap: nat): World {
    w.(roll := Reconciled(cal, w.roll, w.ring, now, cap), counted := Healed(w, now, cap))
  }

  lemma HealKeepsFiled(cal: Calendar, start: Rollup, w: World, now: int, cap: nat)
    requires Filed(w) && w.roll == FoldAll(cal, start, w.counted)
    ensures var h := HealedWorld(cal, w, now, cap);
            Filed(h) && h.roll == FoldAll(cal, start, h.counted) && Highest(h) == Highest(w)
  {
    var h := HealedWorld(cal, w, now, cap);
    HealedFolds(cal, start, w, now, cap);
    HealedIsOrdered(w, now, cap);
    HealedThrough(cal, start, w, now, cap);
    forall p ensures Counts(h, p) <==> Counts(w, p) || OnRing(w, p) {
      HealedHas(w, now, cap, p);
    }
    SameRingFiled(w, h);
  }

  /** Folding what is on the ring, up to a watermark past all of it. */
  lemma SameRingFiled(w: World, h: World)
    requires Filed(w) && h.ring == w.ring && h.durable == w.durable && h.lost == w.lost
    requires IncreasingEvents(h.counted) && forall k :: 0 <= k < |h.counted| ==> Mark(h.counted[k]) <= h.roll.throughSeq
    requires forall p :: Counts(h, p) <==> Counts(w, p) || OnRing(w, p)
    ensures Filed(h)
  {
    assert forall p :: OnRing(h, p) <==> OnRing(w, p);
  }

  lemma RepairKeepsGood(cal: Calendar, start: Rollup, w: World, s: Step)
    requires Good(cal, start, w) && s.Repair? && start.throughSeq == 0
    ensures Good(cal, start, Advance(cal, w, s))
  {
    if s.rollKept {
      HealKeepsFiled(cal, start, w, s.now, s.dayCap);
      assert Advance(cal, w, s) == HealedWorld(cal, w, s.now, s.dayCap);
    }
  }

  // ----- one packet ----------------------------------------------------------------------------------

  lemma SnocIncreasing(ring: seq<Packet>, row: Packet)
    requires Increasing(ring) && HasSeq(row) && SeqOf(row) > MaxSeq(ring)
    ensures Increasing(ring + [row])
  {
    MaxSeqBounds(ring);
    assert forall k :: 0 <= k < |ring| ==> (ring + [row])[k] == ring[k] && ring[k] in ring;
  }

  lemma MaxOfSuffix(all: seq<Packet>, d: nat, row: Packet)
    requires d < |all| && all[|all| - 1] == row && HasSeq(row) && Increasing(all)
    ensures row in all[d..] && MaxSeq(all[d..]) == SeqOf(row)
  {
    var r := all[d..];
    assert r[|r| - 1] == row;
    assert Increasing(r) by {
      assert forall k :: 0 <= k < |r| ==> r[k] == all[d + k];
    }
    LastIsMax(r);
  }

  lemma LastIsMax(r: seq<Packet>)
    requires Increasing(r) && r != [] && HasSeq(r[|r| - 1])
    ensures MaxSeq(r) == SeqOf(r[|r| - 1])
  {
    MaxSeqBounds(r);
    var p :| p in r && HasSeq(p) && SeqOf(p) == MaxSeq(r);
    var k :| 0 <= k < |r| && r[k] == p;
  }

  lemma RingAfter(ring: seq<Packet>, row: Packet, cap: nat)
    requires Increasing(ring) && HasSeq(row) && SeqOf(row) > MaxSeq(ring)
    ensures var ring' := NewestOf(ring + [row], cap);
            && Increasing(ring')
            && (forall p :: p in ring' ==> p in ring || p == row)
            && (cap >= 1 ==> row in ring' && MaxSeq(ring') == SeqOf(row))
            && (cap == 0 ==> ring' == [])
  {
    var all := ring + [row];
    var d := if |all| > cap then |all| - cap else 0;
    assert NewestOf(all, cap) == all[d..];
    SnocIncreasing(ring, row);
    if cap >= 1 {
      MaxOfSuffix(all, d, row);
    }
    forall p | p in all[d..] ensures p in ring || p == row {
      assert p in all;
    }
  }

  lemma DurableGrows(w: World, row: Packet)
    requires Accounted(w) && HasSeq(row) && SeqOf(row) > Highest(w)
    ensures Increasing(w.durable + [row])
  {
    assert forall k :: 0 <= k < |w.durable| ==> w.durable[k] in w.durable;
  }

  /** The roll-up write lands: everything missing and the new packet are folded. */
  lemma TakeFolds(cal: Calendar, start: Rollup, w: World, e: Event)
    requires Good(cal, start, w) && start.throughSeq == 0 && Mark(e) == Highest(w) + 1
    ensures var healed := Healed(w, e.now, e.cap);
            && RollUp(cal, Reconciled(cal, w.roll, w.ring, e.now, e.cap), e) == FoldAll(cal, start, healed + [e])
            && RollUp(cal, Reconciled(cal, w.roll, w.ring, e.now, e.cap), e).throughSeq == Mark(e)
  {
    var healed := Healed(w, e.now, e.cap);
    HealedFolds(cal, start, w, e.now, e.cap);
    HealedThrough(cal, start, w, e.now, e.cap);
    assert (healed + [e])[..|healed|] == healed;
    RollUpBasics(cal, Reconciled(cal, w.roll, w.ring, e.now, e.cap), e);
  }

  lemma OneMoreOrdered(es: seq<Event>, e: Event)
    requires IncreasingEvents(es) && HasSeq(e.packet) && forall k :: 0 <= k < |es| ==> Mark(es[k]) < Mark(e)
    ensures IncreasingEvents(es + [e]) && forall k :: 0 <= k < |es + [e]| ==> Mark((es + [e])[k]) <= Mark(e)
  {
  }

  lemma OneMoreContains(es: seq<Event>, e: Event, p: Packet)
    ensures Contains(es + [e], p) <==> Contains(es, p) || p == e.packet
  {
    JoinContains(es, [e], p);
    assert Contains([e], p) <==> [e][0].packet == p;
  }

  lemma FoldedHistory(w: World, e: Event)
    requires Accounted(w) && HasSeq(e.packet) && Mark(e) == Highest(w) + 1
    ensures var more := Healed(w, e.now, e.cap) + [e];
            && IncreasingEvents(more)
            && (forall k :: 0 <= k < |more| ==> Mark(more[k]) <= Mark(e))
            && (forall p :: Contains(more, p) <==> Counts(w, p) || OnRing(w, p) || p == e.packet)
  {
    var healed := Healed(w, e.now, e.cap);
    HealedIsOrdered(w, e.now, e.cap);
    OneMoreOrdered(healed, e);
    forall p ensures Contains(healed + [e], p) <==> Counts(w, p) || OnRing(w, p) || p == e.packet {
      HealedHas(w, e.now, e.cap, p);
      OneMoreContains(healed, e, p);
    }
  }

  /** Everything on the ring is folded with the packet, and the watermark is its number. */
  ghost predicate FoldedIn(w: World, w': World, row: Packet) {
    && HasSeq(row) && SeqOf(row) == Highest(w) + 1
    && w'.roll.throughSeq == SeqOf(row) && w'.durable == w.durable + [row] && w'.lost == w.lost
    && Increasing(w'.ring) && Increasing(w'.durable) && IncreasingEvents(w'.counted)
    && (forall p :: p in w'.ring ==> p in w.ring || p == row)
    && (forall k :: 0 <= k < |w'.counted| ==> Mark(w'.counted[k]) <= SeqOf(row))
    && forall p :: Counts(w', p) <==> Counts(w, p) || OnRing(w, p) || p == row
  }

  lemma FoldedPacket(w: World, w': World, row: Packet, p: Packet)
    requires Accounted(w) && FoldedIn(w, w', row)
    ensures p in w'.durable <==> p in w.durable || p == row
    ensures p in w'.durable ==> HasSeq(p) && SeqOf(p) <= SeqOf(row) && (Counts(w', p) || SeqOf(p) in w'.lost)
    ensures Counts(w', p) || OnRing(w', p) ==> Counts(w', p) && p in w'.durable && SeqOf(p) !in w'.lost
  {
    MaxSeqBounds(w.ring);
    assert SeqOf(row) !in w.lost;
    assert OnRing(w', p) ==> OnRing(w, p) || p == row;
  }

  lemma FoldedIsAccounted(w: World, w': World, row: Packet)
    requires Accounted(w) && FoldedIn(w, w', row)
    ensures Accounted(w')
  {
    forall p
      ensures p in w'.durable ==> HasSeq(p) && SeqOf(p) <= SeqOf(row) && (Counts(w', p) || SeqOf(p) in w'.lost)
      ensures Counts(w', p) || OnRing(w', p) ==> Counts(w', p) && p in w'.durable && SeqOf(p) !in w'.lost
    {
      FoldedPacket(w, w', row, p);
    }
    forall n | n in w'.lost ensures exists p :: p in w'.durable && SeqOf(p) == n {
      var p :| p in w.durable && SeqOf(p) == n;
      assert p in w'.durable;
    }
  }

  /** The books after a step whose roll-up write landed. */
  lemma GrowFolded(w: World, w': World, row: Packet, e: Event)
    requires Accounted(w) && HasSeq(row) && e.packet == row && SeqOf(row) == Highest(w) + 1
    requires w'.roll.throughSeq == SeqOf(row) && w'.durable == w.durable + [row] && w'.lost == w.lost
    requires Increasing(w'.ring) && forall p :: p in w'.ring ==> p in w.ring || p == row
    requires w'.counted == Healed(w, e.now, e.cap) + [e]
    ensures Accounted(w')
  {
    FoldedHistory(w, e);
    DurableGrows(w, row);
    FoldedIsAccounted(w, w', row);
  }

  lemma TakeWithFold(cal: Calendar, start: Rollup, w: World, s: Step)
    requires Good(cal, start, w) && s.Take? && s.rollKept && start.throughSeq == 0
    ensures Good(cal, start, Advance(cal, w, s))
  {
    var row := Stamped(s.packet, NextSeq(w.ring, w.roll));
    var e := Event(row, s.now, s.dayCap);
    TakeFolds(cal, start, w, e);
    FoldStep(cal, w, s, row);
    RingAfter(w.ring, row, s.ringCap);
    GrowFolded(w, Advance(cal, w, s), row, e);
  }

  /** With the roll-up written nothing is evicted unfolded: the watermark is past the ring. */
  lemma FoldStep(cal: Calendar, w: World, s: Step, row: Packet)
    requires s.Take? && s.rollKept && row == Stamped(s.packet, NextSeq(w.ring, w.roll))
    requires RollUp(cal, Reconciled(cal, w.roll, w.ring, s.now, s.dayCap), Event(row, s.now, s.dayCap)).throughSeq >= MaxSeq(w.ring)
    ensures var w' := Advance(cal, w, s);
            && w'.ring == (if s.ringKept then NewestOf(w.ring + [row], s.ringCap) else w.ring)
            && w'.roll == RollUp(cal, Reconciled(cal, w.roll, w.ring, s.now, s.dayCap), Event(row, s.now, s.dayCap))
            && w'.counted == Healed(w, s.now, s.dayCap) + [Event(row, s.now, s.dayCap)]
            && w'.durable == w.durable + [row] && w'.lost == w.lost
  {
    MaxSeqBounds(w.ring);
  }

  /** The one step that forgets a number: the roll-up write is lost, the ring write lands in a
      ring without room, and the ring knew a number past the watermark. */
  predicate Forgets(w: World, s: Step) {
    s.Take? && !s.rollKept && s.ringKept && s.ringCap == 0 && MaxSeq(w.ring) > w.roll.throughSeq
  }

  /** The ring moved on and the roll-up did not: the packet is kept if it is on the ring, and
      what the ring dropped past the watermark is lost. */
  ghost predicate Grew(w: World, w': World, row: Packet) {
    && HasSeq(row) && w.roll.throughSeq < SeqOf(row) && (forall p :: p in w.durable && HasSeq(p) ==> SeqOf(p) < SeqOf(row))
    && w'.roll == w.roll && w'.counted == w.counted
    && w'.durable == (if row in w'.ring then w.durable + [row] else w.durable)
    && Increasing(w'.ring) && (forall p :: p in w'.ring ==> p in w.ring || p == row)
    && w'.lost == w.lost + Evicted(w.ring, w'.ring, w.roll.throughSeq)
  }

  /** A number names one packet. */
  lemma OneNumber(ps: seq<Packet>, p: Packet, q: Packet)
    requires Increasing(ps) && p in ps && q in ps && HasSeq(p) && HasSeq(q) && SeqOf(p) == SeqOf(q)
    ensures p == q
  {
    var i :| 0 <= i < |ps| && ps[i] == p;
    var j :| 0 <= j < |ps| && ps[j] == q;
  }

  lemma GrownHas(w: World, w': World, row: Packet, p: Packet)
    requires Grew(w, w', row)
    ensures p in w'.durable <==> p in w.durable || (p == row && row in w'.ring)
  {
  }

  /** What was evicted was not folded. */
  lemma EvictedIsFresh(w: World, ring: seq<Packet>, p: Packet)
    requires Filed(w) && p in w.durable && HasSeq(p) && SeqOf(p) in Evicted(w.ring, ring, w.roll.throughSeq)
    ensures p in w.ring && p !in ring && !Counts(w, p)
  {
    var q :| q in w.ring && q !in ring && HasSeq(q) && SeqOf(q) > w.roll.throughSeq && SeqOf(q) == SeqOf(p);
    assert OnRing(w, q);
    OneNumber(w.durable, p, q);
  }

  lemma StillFiled(w: World, w': World, row: Packet, p: Packet)
    requires Filed(w) && Grew(w, w', row) && (Counts(w', p) || OnRing(w', p))
    ensures p in w'.durable && SeqOf(p) !in w'.lost
  {
    GrownHas(w, w', row, p);
    if p in w.durable {
      if SeqOf(p) in Evicted(w.ring, w'.ring, w.roll.throughSeq) {
        EvictedIsFresh(w, w'.ring, p);
      }
    } else {
      assert !Counts(w, p) && !OnRing(w, p);
      RowIsNotLost(w, w', row);
    }
  }

  lemma RowIsNotLost(w: World, w': World, row: Packet)
    requires Filed(w) && Grew(w, w', row)
    ensures SeqOf(row) !in w'.lost
  {
    if SeqOf(row) in Evicted(w.ring, w'.ring, w.roll.throughSeq) {
      var q :| q in w.ring && HasSeq(q) && SeqOf(q) == SeqOf(row);
      assert OnRing(w, q);
    }
  }

  lemma LostIsKept(w: World, w': World, row: Packet, n: nat)
    requires Filed(w) && Grew(w, w', row) && n in w'.lost
    ensures exists p :: p in w'.durable && SeqOf(p) == n
  {
    if n in w.lost {
      var p :| p in w.durable && SeqOf(p) == n;
      GrownHas(w, w', row, p);
    } else {
      var q :| q in w.ring && q !in w'.ring && HasSeq(q) && SeqOf(q) > w.roll.throughSeq && SeqOf(q) == n;
      assert OnRing(w, q);
      GrownHas(w, w', row, q);
    }
  }

  lemma StillSomewhere(w: World, w': World, row: Packet, p: Packet)
    requires Filed(w) && Grew(w, w', row) && p in w'.durable
    ensures Counts(w', p) || OnRing(w', p) || SeqOf(p) in w'.lost
  {
    GrownHas(w, w', row, p);
    if p in w.durable && OnRing(w, p) && !OnRing(w', p) && SeqOf(p) > w.roll.throughSeq {
      assert SeqOf(p) in Evicted(w.ring, w'.ring, w.roll.throughSeq);
    }
  }

  lemma GrownIncreasing(ps: seq<Packet>, row: Packet)
    requires Increasing(ps) && HasSeq(row) && forall p :: p in ps && HasSeq(p) ==> SeqOf(p) < SeqOf(row)
    ensures Increasing(ps + [row])
  {
    assert forall k :: 0 <= k < |ps| ==> ps[k] in ps;
  }

  lemma RingGrows(w: World, w': World, row: Packet)
    requires Filed(w) && Grew(w, w', row)
    ensures Filed(w')
  {
    forall p | Counts(w', p) || OnRing(w', p) ensures p in w'.durable && SeqOf(p) !in w'.lost {
      StillFiled(w, w', row, p);
    }
    forall n | n in w'.lost ensures exists p :: p in w'.durable && SeqOf(p) == n {
      LostIsKept(w, w', row, n);
    }
    forall p | p in w'.durable ensures HasSeq(p) && (Counts(w', p) || OnRing(w', p) || SeqOf(p) in w'.lost) {
      GrownHas(w, w', row, p);
      StillSomewhere(w, w', row, p);
    }
    forall p | OnRing(w', p) && SeqOf(p) <= w'.roll.throughSeq ensures Counts(w', p) {
      assert OnRing(w, p);
    }
    GrownIncreasing(w.durable, row);
  }

  /** The roll-up write is lost and the ring write lands. A ring of capacity 0 keeps nothing;
      that forgets no number when the roll-up knew them all. */
  lemma TakeOnRing(cal: Calendar, start: Rollup, w: World, s: Step)
    requires Good(cal, start, w) && s.Take? && !s.rollKept && s.ringKept && !Forgets(w, s)
    ensures Good(cal, start, Advance(cal, w, s))
  {
    var w' := Advance(cal, w, s);
    var row := Stamped(s.packet, NextSeq(w.ring, w.roll));
    RingAfter(w.ring, row, s.ringCap);
    RingGrows(w, w', row);
    forall p | p in w'.durable && HasSeq(p) ensures SeqOf(p) <= Highest(w') {
      GrownHas(w, w', row, p);
    }
  }

  // ----- whole runs -------------------------------------------------------------------------------------

  lemma StepKeepsGood(cal: Calendar, start: Rollup, w: World, s: Step)
    requires Good(cal, start, w) && start.throughSeq == 0
    requires !Forgets(w, s)
    ensures Good(cal, start, Advance(cal, w, s))
  {
    if s.Repair? {
      RepairKeepsGood(cal, start, w, s);
    } else if s.rollKept {
      TakeWithFold(cal, start, w, s);
    } else if s.ringKept {
      TakeOnRing(cal, start, w, s);
    } else {
      NothingKept(cal, w, s);
    }
  }

  lemma NothingKept(cal: Calendar, w: World, s: Step)
    requires s.Take? && !s.rollKept && !s.ringKept
    requires Accounted(w)
    ensures Advance(cal, w, s) == w
  {
    var row := Stamped(s.packet, NextSeq(w.ring, w.roll));
    MaxSeqBounds(w.ring);
    assert row !in w.ring;
    assert Advance(cal, w, s).lost == w.lost;
  }

  /** No step of the run forgets a number. */
  ghost predicate Steady(cal: Calendar, w: World, steps: seq<Step>)
    decreases |steps|
  {
    steps == [] || (!Forgets(w, steps[0]) && Steady(cal, Advance(cal, w, steps[0]), steps[1..]))
  }

  lemma {:induction false} RunKeepsGood(cal: Calendar, start: Rollup, w: World, steps: seq<Step>)
    requires Good(cal, start, w) && start.throughSeq == 0 && Steady(cal, w, steps)
    ensures Good(cal, start, RunAll(cal, w, steps))
    decreases |steps|
  {
    if steps != [] {
      StepKeepsGood(cal, start, w, steps[0]);
      RunKeepsGood(cal, start, Advance(cal, w, steps[0]), steps[1..]);
    }
  }

  lemma GenesisIsGood(cal: Calendar, ring: seq<Packet>, roll: Rollup)
    requires Legacy(ring, roll)
    ensures Good(cal, roll, Genesis(ring, roll))
  {
  }

  // ----- counting ------------------------------------------------------------------------------------------

  function Marks(es: seq<Event>): set<nat> {
    if es == [] then {} else Marks(es[..|es| - 1]) + {Mark(es[|es| - 1])}
  }

  ghost predicate HasMark(es: seq<Event>, n: nat) {
    exists k :: 0 <= k < |es| && Mark(es[k]) == n
  }

  lemma {:induction false} MarksHave(es: seq<Event>, n: nat)
    ensures n in Marks(es) <==> HasMark(es, n)
  {
    if es != [] {
      var last := |es| - 1;
      var front := es[..last];
      MarksHave(front, n);
      if HasMark(front, n) {
        var k :| 0 <= k < |front| && Mark(front[k]) == n;
        assert Mark(es[k]) == n;
      }
      if HasMark(es, n) && Mark(es[last]) != n {
        var k :| 0 <= k < |es| && Mark(es[k]) == n;
        assert Mark(front[k]) == n;
      }
    }
  }

  lemma {:induction false} MarksSize(es: seq<Event>)
    requires IncreasingEvents(es)
    ensures |Marks(es)| == |es|
  {
    if es != [] {
      var last := |es| - 1;
      MarksSize(es[..last]);
      MarksHave(es[..last], Mark(es[last]));
    }
  }

  /** A number is folded exactly when its packet is durable and was not lost. */
  lemma MarkIsDurable(es: seq<Event>, ps: seq<Packet>, lost: set<nat>, n: nat)
    requires IncreasingEvents(es) && Increasing(ps) && AllStamped(ps)
    requires forall p :: Contains(es, p) <==> p in ps && SeqOf(p) !in lost
    ensures n in Marks(es) <==> n in Marks(EventsOf(ps, 0, 0)) && n !in lost
  {
    MarksHave(es, n);
    MarksHave(EventsOf(ps, 0, 0), n);
    if HasMark(es, n) {
      CountedMark(es, ps, lost, n);
    }
    if HasMark(EventsOf(ps, 0, 0), n) && n !in lost {
      DurableMark(es, ps, lost, n);
    }
  }

  lemma CountedMark(es: seq<Event>, ps: seq<Packet>, lost: set<nat>, n: nat)
    requires AllStamped(ps) && HasMark(es, n)
    requires forall p :: Contains(es, p) ==> p in ps && HasSeq(p) && SeqOf(p) !in lost
    ensures HasMark(EventsOf(ps, 0, 0), n) && n !in lost
  {
    var k :| 0 <= k < |es| && Mark(es[k]) == n;
    assert Contains(es, es[k].packet);
    var j :| 0 <= j < |ps| && ps[j] == es[k].packet;
    assert Mark(EventsOf(ps, 0, 0)[j]) == n;
  }

  lemma DurableMark(es: seq<Event>, ps: seq<Packet>, lost: set<nat>, n: nat)
    requires AllStamped(ps) && HasMark(EventsOf(ps, 0, 0), n) && n !in lost
    requires forall p :: p in ps && HasSeq(p) && SeqOf(p) !in lost ==> Contains(es, p)
    ensures HasMark(es, n)
  {
    var k :| 0 <= k < |ps| && Mark(EventsOf(ps, 0, 0)[k]) == n;
    assert Contains(es, ps[k]);
    var j :| 0 <= j < |es| && es[j].packet == ps[k];
    assert Mark(es[j]) == n;
  }

  /** The numbers of a history are those of the packets it holds. */
  lemma LostAreMarks(ps: seq<Packet>, lost: set<nat>)
    requires AllStamped(ps)
    requires forall n :: n in lost ==> exists p :: p in ps && SeqOf(p) == n
    ensures lost <= Marks(EventsOf(ps, 0, 0))
  {
    var qs := EventsOf(ps, 0, 0);
    forall n | n in lost ensures n in Marks(qs) {
      var p :| p in ps && SeqOf(p) == n;
      var j :| 0 <= j < |ps| && ps[j] == p;
      assert Mark(qs[j]) == n;
      MarksHave(qs, n);
    }
  }

  lemma SplitSize(whole: set<nat>, part: set<nat>, rest: set<nat>)
    requires rest <= whole && forall n :: n in part <==> n in whole && n !in rest
    ensures |part| + |rest| == |whole|
  {
    assert whole == part + rest && part * rest == {};
  }

  lemma MarksOfPackets(ps: seq<Packet>)
    requires Increasing(ps) && AllStamped(ps)
    ensures |Marks(EventsOf(ps, 0, 0))| == |ps|
  {
    MarksSize(EventsOf(ps, 0, 0));
  }

  lemma DistinctSize(es: seq<Event>, ps: seq<Packet>, lost: set<nat>)
    requires IncreasingEvents(es) && Increasing(ps) && AllStamped(ps)
    requires forall p :: Contains(es, p) <==> p in ps && SeqOf(p) !in lost
    requires forall n :: n in lost ==> exists p :: p in ps && SeqOf(p) == n
    ensures |es| + |lost| == |ps|
  {
    forall n ensures n in Marks(es) <==> n in Marks(EventsOf(ps, 0, 0)) && n !in lost {
      MarkIsDurable(es, ps, lost, n);
    }
    LostAreMarks(ps, lost);
    SplitSize(Marks(EventsOf(ps, 0, 0)), Marks(es), lost);
    MarksSize(es);
    MarksOfPackets(ps);
  }

  /** What good books say: the reconciled roll-up is the fold of a history in which every
      durable packet appears exactly once, save those evicted from the ring unfolded, and its
      total falls short by exactly those. */
  lemma BooksCount(cal: Calendar, start: Rollup, w: World, now: int, cap: nat)
    requires Good(cal, start, w)
    ensures var view, all := Reconciled(cal, w.roll, w.ring, now, cap), Healed(w, now, cap);
            && view == FoldAll(cal, start, all) && IncreasingEvents(all)
            && (forall p :: Contains(all, p) <==> p in w.durable && SeqOf(p) !in w.lost)
            && view.total + |w.lost| == start.total + |w.durable|
  {
    HealedFolds(cal, start, w, now, cap);
    HealedIsOrdered(w, now, cap);
    forall p ensures Contains(Healed(w, now, cap), p) <==> p in w.durable && SeqOf(p) !in w.lost {
      HealedHas(w, now, cap, p);
    }
    FoldCounts(cal, start, Healed(w, now, cap));
    HealedSize(w, Healed(w, now, cap));
  }

  lemma HealedSize(w: World, all: seq<Event>)
    requires Filed(w) && IncreasingEvents(all) && forall p :: Contains(all, p) <==> p in w.durable && SeqOf(p) !in w.lost
    ensures |all| + |w.lost| == |w.durable|
  {
    assert AllStamped(w.durable) by {
      assert forall k :: 0 <= k < |w.durable| ==> w.durable[k] in w.durable;
    }
    DistinctSize(all, w.durable, w.lost);
  }

  /** Exactly once, for every run from unnumbered records in which either write of any ingest
      may be lost and any read may repair, each in one step: every packet that reached either
      record appears exactly once in the history behind the roll-up, save those evicted from
      the ring unfolded; no two such packets share a number; so the total is exact if and only
      if nothing was evicted unfolded. */
  lemma ExactlyOnce(cal: Calendar, ring: seq<Packet>, roll: Rollup, steps: seq<Step>, now: int, cap: nat)
    requires Legacy(ring, roll) && Steady(cal, Genesis(ring, roll), steps)
    ensures var w := RunAll(cal, Genesis(ring, roll), steps);
            var view := Reconciled(cal, w.roll, w.ring, now, cap);
            var all := Healed(w, now, cap);
            && view == FoldAll(cal, roll, all)
            && IncreasingEvents(all) && Increasing(w.durable)
            && (forall p :: p in w.durable ==> HasSeq(p))
            && (forall p :: Contains(all, p) <==> p in w.durable && SeqOf(p) !in w.lost)
            && view.total + |w.lost| == roll.total + |w.durable|
            && (view.total == roll.total + |w.durable| <==> w.lost == {})
  {
    var g := Genesis(ring, roll);
    GenesisIsGood(cal, ring, roll);
    RunKeepsGood(cal, roll, g, steps);
    BooksCount(cal, roll, RunAll(cal, g, steps), now, cap);
  }

  lemma TakeUnfolded(cal: Calendar, w: World, p: Packet, ringCap: nat)
    ensures var row := Stamped(p, NextSeq(w.ring, w.roll));
            var w' := Advance(cal, w, Take(p, 0, 0, ringCap, false, true));
            && w'.ring == NewestOf(w.ring + [row], ringCap) && w'.roll == w.roll
            && w'.durable == if row in NewestOf(w.ring + [row], ringCap) then w.durable + [row] else w.durable
  {
  }

  // ----- the numbers ------------------------------------------------------------------------------------------

  /** The durable packets carry 1, 2, 3 and so on, up to the highest number either record knows. */
  ghost predicate Dense(w: World) {
    |w.durable| == Highest(w) && forall k :: 0 <= k < |w.durable| ==> HasSeq(w.durable[k]) && SeqOf(w.durable[k]) == k + 1
  }

  /** A number some durable packet carries. */
  ghost predicate UsedNumber(w: World, n: nat) {
    exists p :: p in w.durable && HasSeq(p) && SeqOf(p) == n
  }

  /** The next packet would get a number of its own. */
  ghost predicate NextIsNew(w: World) {
    !UsedNumber(w, NextSeq(w.ring, w.roll))
  }

  predicate Keeps(s: Step) {
    s.Take? && (s.rollKept || (s.ringKept && s.ringCap >= 1))
  }

  lemma KeptRow(cal: Calendar, start: Rollup, w: World, s: Step)
    requires Good(cal, start, w) && start.throughSeq == 0 && Keeps(s)
    ensures var w', row := Advance(cal, w, s), Stamped(s.packet, NextSeq(w.ring, w.roll));
            w'.durable == w.durable + [row] && Highest(w') == Highest(w) + 1
  {
    var row := Stamped(s.packet, NextSeq(w.ring, w.roll));
    RingAfter(w.ring, row, s.ringCap);
    if s.rollKept {
      TakeFolds(cal, start, w, Event(row, s.now, s.dayCap));
      RingBelow(w.ring, row, Advance(cal, w, s).ring);
    }
  }

  lemma RingBelow(ring: seq<Packet>, row: Packet, ring': seq<Packet>)
    requires HasSeq(row) && MaxSeq(ring) <= SeqOf(row) && forall p :: p in ring' ==> p in ring || p == row
    ensures MaxSeq(ring') <= SeqOf(row)
  {
    MaxSeqBounds(ring);
    MaxSeqBounds(ring');
  }

  /** What a step that keeps no packet does to the highest number known. */
  lemma UnkeptTop(cal: Calendar, start: Rollup, w: World, s: Step)
    requires Good(cal, start, w) && start.throughSeq == 0 && !Keeps(s)
    ensures var w' := Advance(cal, w, s);
            w'.durable == w.durable && Highest(w') == if Forgets(w, s) then w.roll.throughSeq else Highest(w)
  {
    if s.Repair? {
      if s.rollKept {
        HealedThrough(cal, start, w, s.now, s.dayCap);
      }
    } else if s.ringKept {
      assert Advance(cal, w, s).ring == [];
    } else {
      NothingKept(cal, w, s);
    }
  }

  /** Exactly one kind of step hands the next packet a number that is already in use. */
  lemma StepReuses(cal: Calendar, start: Rollup, w: World, s: Step)
    requires Good(cal, start, w) && start.throughSeq == 0 && Dense(w)
    ensures NextIsNew(Advance(cal, w, s)) <==> !Forgets(w, s)
    ensures !Forgets(w, s) ==> Dense(Advance(cal, w, s))
  {
    var w' := Advance(cal, w, s);
    if Keeps(s) {
      KeptRow(cal, start, w, s);
      DenseGrows(w, w', Stamped(s.packet, NextSeq(w.ring, w.roll)));
    } else {
      UnkeptTop(cal, start, w, s);
      DenseKept(w, w');
    }
  }

  lemma DenseGrows(w: World, w': World, row: Packet)
    requires Dense(w) && w'.durable == w.durable + [row] && Highest(w') == Highest(w) + 1
    requires HasSeq(row) && SeqOf(row) == Highest(w) + 1
    ensures Dense(w') && NextIsNew(w')
  {
    DenseIsNew(w');
  }

  /** With the packets as they were, the next number is new exactly when the highest number
      known is as it was. */
  lemma DenseKept(w: World, w': World)
    requires Dense(w) && w'.durable == w.durable && Highest(w') <= Highest(w)
    ensures NextIsNew(w') <==> Highest(w') == Highest(w)
    ensures Highest(w') == Highest(w) ==> Dense(w')
  {
    if Highest(w') == Highest(w) {
      DenseIsNew(w');
    } else {
      assert SeqOf(w'.durable[Highest(w')]) == NextSeq(w'.ring, w'.roll);
    }
  }

  lemma DenseIsNew(w: World)
    requires Dense(w)
    ensures NextIsNew(w)
  {
    forall p | p in w.durable ensures SeqOf(p) <= Highest(w) {
      var k :| 0 <= k < |w.durable| && w.durable[k] == p;
    }
  }

  /** Every number handed out along the run was new. */
  ghost predicate AlwaysNew(cal: Calendar, w: World, steps: seq<Step>)
    decreases |steps|
  {
    steps == [] || (NextIsNew(Advance(cal, w, steps[0])) && AlwaysNew(cal, Advance(cal, w, steps[0]), steps[1..]))
  }

  lemma {:induction false} RunReuses(cal: Calendar, start: Rollup, w: World, steps: seq<Step>)
    requires Good(cal, start, w) && start.throughSeq == 0 && Dense(w)
    ensures AlwaysNew(cal, w, steps) <==> Steady(cal, w, steps)
    decreases |steps|
  {
    if steps != [] {
      StepReuses(cal, start, w, steps[0]);
      if !Forgets(w, steps[0]) {
        StepKeepsGood(cal, start, w, steps[0]);
        RunReuses(cal, start, Advance(cal, w, steps[0]), steps[1..]);
      }
    }
  }

  /** No two durable packets share a number, and none ever can, exactly on the runs in which
      no step forgets one: whenever the ring has no room, the roll-up write must land or the
      roll-up must already know every number on the ring. */
  lemma NumbersStayNew(cal: Calendar, ring: seq<Packet>, roll: Rollup, steps: seq<Step>)
    requires Legacy(ring, roll)
    ensures AlwaysNew(cal, Genesis(ring, roll), steps) <==> Steady(cal, Genesis(ring, roll), steps)
  {
    var g := Genesis(ring, roll);
    GenesisIsGood(cal, ring, roll);
    MaxSeqBounds(ring);
    RunReuses(cal, roll, g, steps);
  }

  /** And once the next number is in use, the next packet that is kept carries it twice over. */
  lemma KeptTwice(cal: Calendar, w: World, s: Step)
    requires Keeps(s) && !NextIsNew(w)
    ensures var w' := Advance(cal, w, s);
            exists i, j :: 0 <= i < j < |w'.durable| && HasSeq(w'.durable[i]) && HasSeq(w'.durable[j])
                           && SeqOf(w'.durable[i]) == SeqOf(w'.durable[j])
  {
    var w', n := Advance(cal, w, s), NextSeq(w.ring, w.roll);
    var row := Stamped(s.packet, n);
    var p :| p in w.durable && HasSeq(p) && SeqOf(p) == n;
    var i :| 0 <= i < |w.durable| && w.durable[i] == p;
    if !s.rollKept {
      var all := w.ring + [row];
      assert NewestOf(all, s.ringCap)[|NewestOf(all, s.ringCap)| - 1] == row;
    }
    assert w'.durable == w.durable + [row];
    assert SeqOf(w'.durable[i]) == SeqOf(w'.durable[|w.durable|]);
  }

  /** Why the ring needs room for one packet: with capacity 0 a packet evicted unfolded frees
      its number, and the next one takes it. */
  lemma EmptyRingReusesNumbers(cal: Calendar)
    ensures var a, b := Packet(None, "wake", None, 1), Packet(None, "said", None, 2);
            var steps := [Take(a, 0, 0, 1, false, true), Take(b, 0, 0, 0, false, true), Take(b, 0, 0, 1, false, true)];
            RunAll(cal, Genesis([], NEW_ROLLUP), steps).durable == [Stamped(a, 1), Stamped(b, 1)]
  {
    var a, b := Packet(None, "wake", None, 1), Packet(None, "said", None, 2);
    var s1, s2, s3 := Take(a, 0, 0, 1, false, true), Take(b, 0, 0, 0, false, true), Take(b, 0, 0, 1, false, true);
    var w0 := Genesis([], NEW_ROLLUP);
    TakeUnfolded(cal, w0, a, 1);
    var w1 := Advance(cal, w0, s1);
    assert w1.ring == [Stamped(a, 1)];
    TakeUnfolded(cal, w1, b, 0);
    var w2 := Advance(cal, w1, s2);
    assert w2.ring == [];
    TakeUnfolded(cal, w2, b, 1);
    var w3 := Advance(cal, w2, s3);
    assert w3.ring == [Stamped(b, 1)];
    RunThree(cal, w0, s1, s2, s3);
  }

  lemma RunThree(cal: Calendar, w: World, s1: Step, s2: Step, s3: Step)
    ensures RunAll(cal, w, [s1, s2, s3]) == Advance(cal, Advance(cal, Advance(cal, w, s1), s2), s3)
  {
    assert [s1, s2, s3][1..] == [s2, s3] && [s2, s3][1..] == [s3] && [s3][1..] == [];
    var w1 := Advance(cal, w, s1);
    var w2 := Advance(cal, w1, s2);
    assert RunAll(cal, w2, [s3]) == RunAll(cal, Advance(cal, w2, s3), []);
    assert RunAll(cal, w1, [s2, s3]) == RunAll(cal, w2, [s3]);
  }
}
