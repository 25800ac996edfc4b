/** Reads that repair the roll-up while packets come in. A read takes the roll-up, then the
    ring, and writes the repaired roll-up back, each at its own time and under no lock of the
    ingest: any number of reads, with ingests between any two of their steps. */
module RepairRace {
  import opened Wrappers
  import opened Telemetry
  import opened Ingest
  import opened IngestTheorems

  // ----- the race -------------------------------------------------------------------------------

  /** A read under way: the roll-up it holds, repaired or not, and whether anything was missing.
      `counted`, `durable` and `lost` are the books as they would stand if its roll-up were the
      one on disk, and `gone` how many packets would then be in neither record. */
  datatype Reader = Reader(roll: Rollup, repaired: bool, missing: bool,
                           counted: seq<Event>, durable: seq<Packet>, lost: set<nat>, gone: nat)

  /** Both records and their books, every packet an ingest stored, how many of those a
      write-back has wiped out of both records, and the reads under way. */
  datatype Race = Race(disk: World, stored: seq<Packet>, gone: nat, readers: map<nat, Reader>)

  datatype Move =
    | Ingest(take: Step)
    | ReadRoll(id: nat)
    | ReadRing(id: nat, now: int, cap: nat)
    | WriteBack(id: nat, kept: bool)

  /** The books of a reader: the ring is shared, the rest its own. */
  function View(r: Race, x: Reader): World {
    World(r.disk.ring, x.roll, x.counted, x.durable, x.lost)
  }

  predicate Able(r: Race, m: Move) {
    match m
    case Ingest(take) => take.Take?
    case ReadRoll(id) => id !in r.readers
    case ReadRing(id, _, _) => id in r.readers && !r.readers[id].repaired
    case WriteBack(id, _) => id in r.readers && r.readers[id].repaired
  }

  function NewRow(r: Race, take: Step): Packet
    requires take.Take?
  {
    Stamped(take.packet, NextSeq(r.disk.ring, r.disk.roll))
  }

  /** An ingest passes a reader by: it knows of the packet what the ring knows. */
  function Passed(x: Reader, was: seq<Packet>, ring: seq<Packet>, row: Packet, kept: bool): Reader {
    x.(durable := if row in ring then x.durable + [row] else x.durable,
       lost := x.lost + Evicted(was, ring, x.roll.throughSeq),
       gone := if kept && row !in ring then x.gone + 1 else x.gone)
  }

  /** Did the packet reach either record? */
  predicate Reaches(take: Step) {
    take.Take? && (take.rollKept || (take.ringKept && take.ringCap >= 1))
  }

  ghost function Ingested(cal: Calendar, r: Race, take: Step): Race
    requires take.Take?
  {
    var disk, row := Advance(cal, r.disk, take), NewRow(r, take);
    Race(disk, if Reaches(take) then r.stored + [row] else r.stored, r.gone,
         map id | id in r.readers :: Passed(r.readers[id], r.disk.ring, disk.ring, row, Reaches(take)))
  }

  ghost function Repaired(cal: Calendar, r: Race, x: Reader, now: int, cap: nat): Reader {
    var h := HealedWorld(cal, View(r, x), now, cap);
    x.(roll := h.roll, counted := h.counted, repaired := true, missing := Unfolded(x.roll, r.disk.ring) != [])
  }

  /** A write-back that lands. */
  predicate Lands(r: Race, m: Move)
    requires Able(r, m)
  {
    m.WriteBack? && m.kept && r.readers[m.id].missing
  }

  ghost function Play(cal: Calendar, r: Race, m: Move): Race
    requires Able(r, m)
  {
    match m
    case Ingest(take) => Ingested(cal, r, take)
    case ReadRoll(id) =>
      r.(readers := r.readers[id := Reader(r.disk.roll, false, false, r.disk.counted, r.disk.durable, r.disk.lost, r.gone)])
    case ReadRing(id, now, cap) => r.(readers := r.readers[id := Repaired(cal, r, r.readers[id], now, cap)])
    case WriteBack(id, _) =>
      var x, rest := r.readers[id], r.readers - {id};
      if Lands(r, m) then Race(View(r, x), r.stored, x.gone, rest) else r.(readers := rest)
  }

  /** The highest number known falls: an ingest that forgets one, or a write-back of a roll-up
      that never knew the newest packet, which the ring does not hold either. */
  predicate Rewinds(r: Race, m: Move)
    requires Able(r, m)
  {
    (m.Ingest? && Forgets(r.disk, m.take)) || (Lands(r, m) && Highest(View(r, r.readers[m.id])) < Highest(r.disk))
  }

  // ----- the invariant ------------------------------------------------------------------------------

  /** The books of a reader are in order, and no number in them is news to the disk. */
  ghost predicate Sees(cal: Calendar, start: Rollup, v: World, top: nat) {
    v.roll == FoldAll(cal, start, v.counted) && Filed(v) && Numbered(v, top) && Highest(v) <= top
  }

  ghost predicate ReaderSound(cal: Calendar, start: Rollup, r: Race, x: Reader) {
    Sees(cal, start, View(r, x), Highest(r.disk)) && |x.durable| + x.gone == |r.stored|
  }

  ghost predicate Sound(cal: Calendar, start: Rollup, r: Race) {
    && Good(cal, start, r.disk) && |r.disk.durable| + r.gone == |r.stored|
    && forall id :: id in r.readers ==> ReaderSound(cal, start, r, r.readers[id])
  }

  // ----- an ingest ----------------------------------------------------------------------------------

  /** What an ingest does to the ring, whatever becomes of its roll-up. */
  lemma RingMoves(cal: Calendar, start: Rollup, w: World, s: Step)
    requires Good(cal, start, w) && start.throughSeq == 0 && s.Take?
    ensures var w', row := Advance(cal, w, s), Stamped(s.packet, NextSeq(w.ring, w.roll));
            && HasSeq(row) && SeqOf(row) == Highest(w) + 1
            && Increasing(w'.ring) && (forall p :: p in w'.ring ==> p in w.ring || p == row)
            && (row in w'.ring <==> s.ringKept && s.ringCap >= 1)
  {
    var row := Stamped(s.packet, NextSeq(w.ring, w.roll));
    MaxSeqBounds(w.ring);
    RingAfter(w.ring, row, s.ringCap);
  }

  /** The highest number known afterwards. */
  lemma TopMoves(cal: Calendar, start: Rollup, w: World, s: Step)
    requires Good(cal, start, w) && start.throughSeq == 0 && s.Take?
    ensures var w' := Advance(cal, w, s);
            && Highest(w') == (if Reaches(s) then Highest(w) + 1 else if Forgets(w, s) then w.roll.throughSeq else Highest(w))
            && w'.durable == (if Reaches(s) then w.durable + [Stamped(s.packet, NextSeq(w.ring, w.roll))] else w.durable)
  {
    if Reaches(s) {
      KeptRow(cal, start, w, s);
    } else {
      UnkeptTop(cal, start, w, s);
    }
  }

  lemma PassedStaysSound(cal: Calendar, start: Rollup, v: World, v': World, row: Packet, top: nat, top': nat)
    requires Sees(cal, start, v, top) && Grew(v, v', row) && SeqOf(row) == top + 1 && top <= top'
    requires row in v'.ring ==> SeqOf(row) <= top'
    requires MaxSeq(v'.ring) <= top'
    ensures Sees(cal, start, v', top')
  {
    RingGrows(v, v', row);
    forall p | p in v'.durable && HasSeq(p) ensures SeqOf(p) <= top' {
      GrownHas(v, v', row, p);
    }
  }

  lemma ViewGrew(cal: Calendar, start: Rollup, r: Race, x: Reader, take: Step)
    requires Good(cal, start, r.disk) && start.throughSeq == 0 && take.Take?
    requires Sees(cal, start, View(r, x), Highest(r.disk))
    ensures var r', row := Ingested(cal, r, take), NewRow(r, take);
            Grew(View(r, x), View(r', Passed(x, r.disk.ring, r'.disk.ring, row, Reaches(take))), row)
  {
    RingMoves(cal, start, r.disk, take);
  }

  lemma ReaderPassed(cal: Calendar, start: Rollup, r: Race, x: Reader, take: Step)
    requires Sound(cal, start, r) && start.throughSeq == 0 && take.Take? && !Forgets(r.disk, take)
    requires ReaderSound(cal, start, r, x)
    ensures var r', row := Ingested(cal, r, take), NewRow(r, take);
            ReaderSound(cal, start, r', Passed(x, r.disk.ring, r'.disk.ring, row, Reaches(take)))
  {
    var r', row := Ingested(cal, r, take), NewRow(r, take);
    var x' := Passed(x, r.disk.ring, r'.disk.ring, row, Reaches(take));
    RingMoves(cal, start, r.disk, take);
    TopMoves(cal, start, r.disk, take);
    ViewGrew(cal, start, r, x, take);
    PassedStaysSound(cal, start, View(r, x), View(r', x'), row, Highest(r.disk), Highest(r'.disk));
  }

  lemma IngestKeepsSound(cal: Calendar, start: Rollup, r: Race, take: Step)
    requires Sound(cal, start, r) && start.throughSeq == 0 && take.Take? && !Forgets(r.disk, take)
    ensures Sound(cal, start, Ingested(cal, r, take))
  {
    var r' := Ingested(cal, r, take);
    StepKeepsGood(cal, start, r.disk, take);
    TopMoves(cal, start, r.disk, take);
    forall id | id in r'.readers ensures ReaderSound(cal, start, r', r'.readers[id]) {
      ReaderPassed(cal, start, r, r.readers[id], take);
    }
  }

  // ----- the steps of a read ----------------------------------------------------------------------------

  lemma RepairStaysSound(cal: Calendar, start: Rollup, r: Race, x: Reader, now: int, cap: nat)
    requires ReaderSound(cal, start, r, x)
    ensures ReaderSound(cal, start, r, Repaired(cal, r, x, now, cap))
  {
    HealKeepsFiled(cal, start, View(r, x), now, cap);
    assert View(r, Repaired(cal, r, x, now, cap)) == HealedWorld(cal, View(r, x), now, cap);
  }

  lemma OthersStaySound(cal: Calendar, start: Rollup, r: Race, r': Race, x: Reader)
    requires ReaderSound(cal, start, r, x)
    requires r'.disk.ring == r.disk.ring && Highest(r'.disk) == Highest(r.disk) && r'.stored == r.stored
    ensures ReaderSound(cal, start, r', x)
  {
    assert View(r', x) == View(r, x);
  }

  /** A landed write-back makes a reader's books those of the disk. */
  lemma LandingKeepsSound(cal: Calendar, start: Rollup, r: Race, m: Move)
    requires Sound(cal, start, r) && Able(r, m) && Lands(r, m) && !Rewinds(r, m)
    ensures Sound(cal, start, Play(cal, r, m))
  {
    var x, r' := r.readers[m.id], Play(cal, r, m);
    assert ReaderSound(cal, start, r, x);
    forall id | id in r'.readers ensures ReaderSound(cal, start, r', r'.readers[id]) {
      OthersStaySound(cal, start, r, r', r.readers[id]);
    }
  }

  lemma ReadRollKeepsSound(cal: Calendar, start: Rollup, r: Race, id: nat)
    requires Sound(cal, start, r) && Able(r, ReadRoll(id))
    ensures Sound(cal, start, Play(cal, r, ReadRoll(id)))
  {
    var r' := Play(cal, r, ReadRoll(id));
    var x := r'.readers[id];
    assert View(r, x) == r.disk;
    forall k | k in r'.readers ensures ReaderSound(cal, start, r', r'.readers[k]) {
      OthersStaySound(cal, start, r, r', if k == id then x else r.readers[k]);
    }
  }

  lemma ReadRingKeepsSound(cal: Calendar, start: Rollup, r: Race, id: nat, now: int, cap: nat)
    requires Sound(cal, start, r) && Able(r, ReadRing(id, now, cap))
    ensures Sound(cal, start, Play(cal, r, ReadRing(id, now, cap)))
  {
    var r', x := Play(cal, r, ReadRing(id, now, cap)), Repaired(cal, r, r.readers[id], now, cap);
    RepairStaysSound(cal, start, r, r.readers[id], now, cap);
    forall k | k in r'.readers ensures ReaderSound(cal, start, r', r'.readers[k]) {
      OthersStaySound(cal, start, r, r', if k == id then x else r.readers[k]);
    }
  }

  lemma MoveKeepsSound(cal: Calendar, start: Rollup, r: Race, m: Move)
    requires Sound(cal, start, r) && start.throughSeq == 0 && Able(r, m) && !Rewinds(r, m)
    ensures Sound(cal, start, Play(cal, r, m))
  {
    match m
    case Ingest(take) => IngestKeepsSound(cal, start, r, take);
    case ReadRoll(id) => ReadRollKeepsSound(cal, start, r, id);
    case ReadRing(id, now, cap) => ReadRingKeepsSound(cal, start, r, id, now, cap);
    case WriteBack(id, kept) =>
      if Lands(r, m) {
        LandingKeepsSound(cal, start, r, m);
      } else {
        var r' := Play(cal, r, m);
        forall k | k in r'.readers ensures ReaderSound(cal, start, r', r'.readers[k]) {
          OthersStaySound(cal, start, r, r', r.readers[k]);
        }
      }
  }

  // ----- whole races -------------------------------------------------------------------------------------

  ghost predicate Runs(cal: Calendar, r: Race, moves: seq<Move>)
    decreases |moves|
  {
    moves == [] || (Able(r, moves[0]) && Runs(cal, Play(cal, r, moves[0]), moves[1..]))
  }

  ghost function After(cal: Calendar, r: Race, moves: seq<Move>): Race
    requires Runs(cal, r, moves)
    decreases |moves|
  {
    if moves == [] then r else After(cal, Play(cal, r, moves[0]), moves[1..])
  }

  ghost predicate NeverRewinds(cal: Calendar, r: Race, moves: seq<Move>)
    requires Runs(cal, r, moves)
    decreases |moves|
  {
    moves == [] || (!Rewinds(r, moves[0]) && NeverRewinds(cal, Play(cal, r, moves[0]), moves[1..]))
  }

  lemma {:induction false} RaceKeepsSound(cal: Calendar, start: Rollup, r: Race, moves: seq<Move>)
    requires Sound(cal, start, r) && start.throughSeq == 0 && Runs(cal, r, moves) && NeverRewinds(cal, r, moves)
    ensures Sound(cal, start, After(cal, r, moves))
    decreases |moves|
  {
    if moves != [] {
      MoveKeepsSound(cal, start, r, moves[0]);
      RaceKeepsSound(cal, start, Play(cal, r, moves[0]), moves[1..]);
    }
  }

  /** Both records before packets were numbered, and no read under way. */
  function Rest(ring: seq<Packet>, roll: Rollup): Race {
    Race(Genesis(ring, roll), [], 0, map[])
  }

  lemma RestIsSound(cal: Calendar, ring: seq<Packet>, roll: Rollup)
    requires Legacy(ring, roll)
    ensures Sound(cal, roll, Rest(ring, roll))
  {
    GenesisIsGood(cal, ring, roll);
  }

  /** Where every stored packet is, after any race in which no move rewinds: in the history
      behind the roll-up exactly once, evicted from the ring unfolded, or wiped out by a
      write-back. So the total is exact if and only if nothing was evicted unfolded and nothing
      wiped out. */
  lemma RaceCounts(cal: Calendar, ring: seq<Packet>, roll: Rollup, moves: seq<Move>, now: int, cap: nat)
    requires Legacy(ring, roll) && Runs(cal, Rest(ring, roll), moves) && NeverRewinds(cal, Rest(ring, roll), moves)
    ensures var r := After(cal, Rest(ring, roll), moves);
            var view, all := Reconciled(cal, r.disk.roll, r.disk.ring, now, cap), Healed(r.disk, now, cap);
            && view == FoldAll(cal, roll, all) && IncreasingEvents(all)
            && (forall p :: p in r.disk.durable ==> HasSeq(p)) && Increasing(r.disk.durable)
            && (forall p :: Contains(all, p) <==> p in r.disk.durable && SeqOf(p) !in r.disk.lost)
            && view.total + |r.disk.lost| + r.gone == roll.total + |r.stored|
            && (view.total == roll.total + |r.stored| <==> r.disk.lost == {} && r.gone == 0)
  {
    RestIsSound(cal, ring, roll);
    RaceKeepsSound(cal, roll, Rest(ring, roll), moves);
    BooksCount(cal, roll, After(cal, Rest(ring, roll), moves).disk, now, cap);
  }

  // ----- races that wipe nothing out ----------------------------------------------------------------------

  /** An ingest that leaves its packet out of the ring, or empties the ring, while a read is
      under way. */
  predicate Exposed(r: Race, m: Move) {
    && m.Ingest? && r.readers != map[] && m.take.Take?
    && (m.take.rollKept || m.take.ringKept) && !(m.take.ringKept && m.take.ringCap >= 1)
  }

  /** Nobody's books have anything wiped out, and all know the same highest number. */
  ghost predicate Calm(r: Race) {
    r.gone == 0 && forall id :: id in r.readers ==> r.readers[id].gone == 0 && Highest(View(r, r.readers[id])) == Highest(r.disk)
  }

  lemma NothingMoves(cal: Calendar, start: Rollup, r: Race, take: Step)
    requires Good(cal, start, r.disk) && take.Take? && !take.rollKept && !take.ringKept
    ensures Ingested(cal, r, take).disk == r.disk
  {
    NothingKept(cal, r.disk, take);
  }

  lemma IngestStaysCalm(cal: Calendar, start: Rollup, r: Race, take: Step)
    requires Sound(cal, start, r) && Calm(r) && start.throughSeq == 0 && take.Take?
    requires !Forgets(r.disk, take) && !Exposed(r, Ingest(take))
    ensures Calm(Ingested(cal, r, take))
  {
    var r' := Ingested(cal, r, take);
    RingMoves(cal, start, r.disk, take);
    TopMoves(cal, start, r.disk, take);
    forall id | id in r'.readers
      ensures r'.readers[id].gone == 0 && Highest(View(r', r'.readers[id])) == Highest(r'.disk)
    {
      assert ReaderSound(cal, start, r, r.readers[id]);
      if take.ringKept {
        RingAfter(r.disk.ring, NewRow(r, take), take.ringCap);
      } else {
        NothingMoves(cal, start, r, take);
      }
    }
  }

  lemma RepairKeepsTop(cal: Calendar, start: Rollup, r: Race, x: Reader, now: int, cap: nat)
    requires ReaderSound(cal, start, r, x)
    ensures Highest(View(r, Repaired(cal, r, x, now, cap))) == Highest(View(r, x))
    ensures Repaired(cal, r, x, now, cap).gone == x.gone
  {
    HealKeepsFiled(cal, start, View(r, x), now, cap);
    assert View(r, Repaired(cal, r, x, now, cap)) == HealedWorld(cal, View(r, x), now, cap);
  }

  lemma ReadStaysCalm(cal: Calendar, r: Race, id: nat, x: Reader)
    requires Calm(r) && id in r.readers && x.gone == 0 && Highest(View(r, x)) == Highest(r.disk)
    ensures Calm(r.(readers := r.readers[id := x]))
  {
    var r' := r.(readers := r.readers[id := x]);
    forall k | k in r'.readers ensures r'.readers[k].gone == 0 && Highest(View(r', r'.readers[k])) == Highest(r'.disk) {
      assert View(r', r'.readers[k]) == View(r, r'.readers[k]);
    }
  }

  lemma WriteStaysCalm(cal: Calendar, r: Race, id: nat, kept: bool)
    requires Calm(r) && Able(r, WriteBack(id, kept))
    ensures Calm(Play(cal, r, WriteBack(id, kept)))
  {
    var r' := Play(cal, r, WriteBack(id, kept));
    forall k | k in r'.readers ensures r'.readers[k].gone == 0 && Highest(View(r', r'.readers[k])) == Highest(r'.disk) {
      assert View(r', r'.readers[k]) == View(r, r.readers[k]);
    }
  }

  lemma MoveStaysCalm(cal: Calendar, start: Rollup, r: Race, m: Move)
    requires Sound(cal, start, r) && Calm(r) && start.throughSeq == 0 && Able(r, m)
    requires !(m.Ingest? && Forgets(r.disk, m.take)) && !Exposed(r, m)
    ensures !Rewinds(r, m) && Calm(Play(cal, r, m))
  {
    match m
    case Ingest(take) => IngestStaysCalm(cal, start, r, take);
    case ReadRoll(id) => assert View(r, Play(cal, r, m).readers[id]) == r.disk;
    case ReadRing(id, now, cap) =>
      RepairKeepsTop(cal, start, r, r.readers[id], now, cap);
      ReadStaysCalm(cal, r, id, Repaired(cal, r, r.readers[id], now, cap));
    case WriteBack(id, kept) => WriteStaysCalm(cal, r, id, kept);
  }

  /** While a read is under way every ingest puts its packet on the ring or writes nothing; and
      no ingest forgets a number. */
  ghost predicate Covered(cal: Calendar, r: Race, moves: seq<Move>)
    requires Runs(cal, r, moves)
    decreases |moves|
  {
    moves == []
    || (!(moves[0].Ingest? && Forgets(r.disk, moves[0].take)) && !Exposed(r, moves[0])
        && Covered(cal, Play(cal, r, moves[0]), moves[1..]))
  }

  lemma {:induction false} CoveredStaysCalm(cal: Calendar, start: Rollup, r: Race, moves: seq<Move>)
    requires Sound(cal, start, r) && Calm(r) && start.throughSeq == 0 && Runs(cal, r, moves) && Covered(cal, r, moves)
    ensures NeverRewinds(cal, r, moves) && Calm(After(cal, r, moves))
    decreases |moves|
  {
    if moves != [] {
      MoveStaysCalm(cal, start, r, moves[0]);
      MoveKeepsSound(cal, start, r, moves[0]);
      CoveredStaysCalm(cal, start, Play(cal, r, moves[0]), moves[1..]);
    }
  }

  /** Exactly once under racing reads: if every ingest that falls into a read puts its packet on
      the ring, the total falls short of the packets stored by those evicted unfolded alone. */
  lemma CoveredRacesCount(cal: Calendar, ring: seq<Packet>, roll: Rollup, moves: seq<Move>, now: int, cap: nat)
    requires Legacy(ring, roll) && Runs(cal, Rest(ring, roll), moves) && Covered(cal, Rest(ring, roll), moves)
    ensures var r := After(cal, Rest(ring, roll), moves);
            && Reconciled(cal, r.disk.roll, r.disk.ring, now, cap).total + |r.disk.lost| == roll.total + |r.stored|
            && (Reconciled(cal, r.disk.roll, r.disk.ring, now, cap).total == roll.total + |r.stored| <==> r.disk.lost == {})
  {
    RestIsSound(cal, ring, roll);
    CoveredStaysCalm(cal, roll, Rest(ring, roll), moves);
    RaceCounts(cal, ring, roll, moves, now, cap);
  }

  /** No ingest falls into a read at all. */
  ghost predicate Apart(cal: Calendar, r: Race, moves: seq<Move>)
    requires Runs(cal, r, moves)
    decreases |moves|
  {
    moves == []
    || ((moves[0].Ingest? ==> r.readers == map[] && !Forgets(r.disk, moves[0].take))
        && Apart(cal, Play(cal, r, moves[0]), moves[1..]))
  }

  lemma {:induction false} ApartIsCovered(cal: Calendar, r: Race, moves: seq<Move>)
    requires Runs(cal, r, moves) && Apart(cal, r, moves)
    ensures Covered(cal, r, moves)
    decreases |moves|
  {
    if moves != [] {
      ApartIsCovered(cal, Play(cal, r, moves[0]), moves[1..]);
    }
  }

  // ----- the numbers -----------------------------------------------------------------------------------------

  /** Packets that carry 1, 2, 3 and so on. */
  ghost predicate Consecutive(ps: seq<Packet>) {
    forall k :: 0 <= k < |ps| ==> HasSeq(ps[k]) && SeqOf(ps[k]) == k + 1
  }

  /** The packets stored do, up to the highest number known. */
  ghost predicate DenseStored(r: Race) {
    |r.stored| == Highest(r.disk) && Consecutive(r.stored)
  }

  /** The next packet would get a number no stored packet has. */
  ghost predicate NextIsFresh(r: Race) {
    forall p :: p in r.stored && HasSeq(p) ==> SeqOf(p) != NextSeq(r.disk.ring, r.disk.roll)
  }

  lemma DenseIsFresh(r: Race)
    requires Consecutive(r.stored) && Highest(r.disk) <= |r.stored|
    ensures NextIsFresh(r) <==> Highest(r.disk) == |r.stored|
  {
    if Highest(r.disk) < |r.stored| {
      assert r.stored[Highest(r.disk)] in r.stored;
    }
  }

  lemma OneMoreStored(ps: seq<Packet>, row: Packet)
    requires Consecutive(ps) && HasSeq(row) && SeqOf(row) == |ps| + 1
    ensures Consecutive(ps + [row])
  {
  }

  lemma IngestReuses(cal: Calendar, start: Rollup, r: Race, take: Step)
    requires Good(cal, start, r.disk) && DenseStored(r) && start.throughSeq == 0 && take.Take?
    ensures NextIsFresh(Ingested(cal, r, take)) <==> !Forgets(r.disk, take)
    ensures !Forgets(r.disk, take) ==> DenseStored(Ingested(cal, r, take))
  {
    TopMoves(cal, start, r.disk, take);
    RingMoves(cal, start, r.disk, take);
    OneMoreStored(r.stored, NewRow(r, take));
    DenseIsFresh(Ingested(cal, r, take));
  }

  lemma LandingReuses(cal: Calendar, start: Rollup, r: Race, m: Move)
    requires Sound(cal, start, r) && DenseStored(r) && Able(r, m) && Lands(r, m)
    ensures NextIsFresh(Play(cal, r, m)) <==> Highest(View(r, r.readers[m.id])) == Highest(r.disk)
    ensures Highest(View(r, r.readers[m.id])) <= Highest(r.disk)
  {
    assert ReaderSound(cal, start, r, r.readers[m.id]);
    DenseIsFresh(Play(cal, r, m));
  }

  /** After a move the next number is in use exactly if the move rewound. */
  lemma MoveReuses(cal: Calendar, start: Rollup, r: Race, m: Move)
    requires Sound(cal, start, r) && DenseStored(r) && start.throughSeq == 0 && Able(r, m)
    ensures NextIsFresh(Play(cal, r, m)) <==> !Rewinds(r, m)
    ensures !Rewinds(r, m) ==> DenseStored(Play(cal, r, m))
  {
    if m.Ingest? {
      IngestReuses(cal, start, r, m.take);
    } else if Lands(r, m) {
      LandingReuses(cal, start, r, m);
    } else {
      DenseIsFresh(Play(cal, r, m));
    }
  }

  ghost predicate AlwaysFresh(cal: Calendar, r: Race, moves: seq<Move>)
    requires Runs(cal, r, moves)
    decreases |moves|
  {
    moves == [] || (NextIsFresh(Play(cal, r, moves[0])) && AlwaysFresh(cal, Play(cal, r, moves[0]), moves[1..]))
  }

  lemma {:induction false} RaceReuses(cal: Calendar, start: Rollup, r: Race, moves: seq<Move>)
    requires Sound(cal, start, r) && DenseStored(r) && start.throughSeq == 0 && Runs(cal, r, moves)
    ensures AlwaysFresh(cal, r, moves) <==> NeverRewinds(cal, r, moves)
    decreases |moves|
  {
    if moves != [] {
      MoveReuses(cal, start, r, moves[0]);
      if !Rewinds(r, moves[0]) {
        MoveKeepsSound(cal, start, r, moves[0]);
        RaceReuses(cal, start, Play(cal, r, moves[0]), moves[1..]);
      }
    }
  }

  /** Over every race the number each packet gets is new among all packets ever stored if and
      only if no move rewinds. */
  lemma RaceNumbersStayNew(cal: Calendar, ring: seq<Packet>, roll: Rollup, moves: seq<Move>)
    requires Legacy(ring, roll) && Runs(cal, Rest(ring, roll), moves)
    ensures AlwaysFresh(cal, Rest(ring, roll), moves) <==> NeverRewinds(cal, Rest(ring, roll), moves)
  {
    RestIsSound(cal, ring, roll);
    MaxSeqBounds(ring);
    RaceReuses(cal, roll, Rest(ring, roll), moves);
  }

  // ----- a race that wipes a packet out -------------------------------------------------------------------------

  const A := Packet(None, "wake", None, 1)
  const B := Packet(None, "said", None, 2)
  const C := Packet(None, "rest", None, 3)

  /** The packet reaches the ring, and maybe the roll-up. */
  function Listed(p: Packet, rollKept: bool): Move {
    Ingest(Take(p, 0, 0, 9, rollKept, true))
  }

  /** The packet reaches the roll-up alone. */
  function Counted(p: Packet): Move {
    Ingest(Take(p, 0, 0, 9, true, false))
  }

  lemma PassedOnRing(x: Reader, ring: seq<Packet>, row: Packet)
    ensures Passed(x, ring, ring + [row], row, true) == x.(durable := x.durable + [row])
  {
    assert Evicted(ring, ring + [row], x.roll.throughSeq) == {};
  }

  lemma PassedInRoll(x: Reader, ring: seq<Packet>, row: Packet)
    requires row !in ring
    ensures Passed(x, ring, ring, row, true) == x.(gone := x.gone + 1)
  {
    assert Evicted(ring, ring, x.roll.throughSeq) == {};
  }

  lemma ListedMoves(cal: Calendar, r: Race, p: Packet, rollKept: bool)
    requires |r.disk.ring| < 9
    ensures var r', row := Play(cal, r, Listed(p, rollKept)), NewRow(r, Listed(p, rollKept).take);
            && r'.disk.ring == r.disk.ring + [row] && r'.stored == r.stored + [row] && r'.gone == r.gone
            && (!rollKept ==> r'.disk.roll == r.disk.roll) && r'.readers.Keys == r.readers.Keys
            && forall id :: id in r.readers ==> r'.readers[id] == r.readers[id].(durable := r.readers[id].durable + [row])
  {
    forall id | id in r.readers {
      PassedOnRing(r.readers[id], r.disk.ring, NewRow(r, Listed(p, rollKept).take));
    }
  }

  lemma CountedMoves(cal: Calendar, r: Race, p: Packet)
    requires NewRow(r, Counted(p).take) !in r.disk.ring
    ensures var r', row := Play(cal, r, Counted(p)), NewRow(r, Counted(p).take);
            && r'.disk.ring == r.disk.ring && r'.stored == r.stored + [row] && r'.gone == r.gone
            && r'.readers.Keys == r.readers.Keys
            && forall id :: id in r.readers ==> r'.readers[id] == r.readers[id].(gone := r.readers[id].gone + 1)
  {
    forall id | id in r.readers {
      PassedInRoll(r.readers[id], r.disk.ring, NewRow(r, Counted(p).take));
    }
  }

  lemma {:induction false} Extend(cal: Calendar, r: Race, moves: seq<Move>, m: Move)
    requires Runs(cal, r, moves) && Able(After(cal, r, moves), m)
    ensures Runs(cal, r, moves + [m]) && After(cal, r, moves + [m]) == Play(cal, After(cal, r, moves), m)
    ensures NeverRewinds(cal, r, moves + [m]) <==> NeverRewinds(cal, r, moves) && !Rewinds(After(cal, r, moves), m)
    decreases |moves|
  {
    if moves == [] {
      assert [] + [m] == [m] && [m][1..] == [];
    } else {
      assert (moves + [m])[1..] == moves[1..] + [m];
      Extend(cal, Play(cal, r, moves[0]), moves[1..], m);
    }
  }

  /** A race from empty records, and where it has come to without rewinding. */
  ghost predicate At(cal: Calendar, moves: seq<Move>, r: Race) {
    && Runs(cal, Rest([], NEW_ROLLUP), moves) && NeverRewinds(cal, Rest([], NEW_ROLLUP), moves)
    && r == After(cal, Rest([], NEW_ROLLUP), moves)
  }

  lemma AtIsSound(cal: Calendar, moves: seq<Move>, r: Race)
    requires At(cal, moves, r)
    ensures Sound(cal, NEW_ROLLUP, r)
  {
    RestIsSound(cal, [], NEW_ROLLUP);
    RaceKeepsSound(cal, NEW_ROLLUP, Rest([], NEW_ROLLUP), moves);
  }

  lemma GoOn(cal: Calendar, moves: seq<Move>, r: Race, m: Move)
    requires At(cal, moves, r) && Able(r, m)
    ensures Runs(cal, Rest([], NEW_ROLLUP), moves + [m])
    ensures After(cal, Rest([], NEW_ROLLUP), moves + [m]) == Play(cal, r, m)
    ensures !Rewinds(r, m) ==> At(cal, moves + [m], Play(cal, r, m))
  {
    Extend(cal, Rest([], NEW_ROLLUP), moves, m);
  }

  lemma NewRowIs(r: Race, take: Step, n: nat)
    requires take.Take? && Highest(r.disk) == n
    ensures NewRow(r, take) == Stamped(take.packet, n + 1)
  {
  }

  /** What a read of one packet the roll-up missed comes to. */
  lemma OneMissing(cal: Calendar, w: World, row: Packet)
    requires Filed(w) && w.ring == [row] && HasSeq(row) && w.roll == NEW_ROLLUP
    ensures Unfolded(w.roll, w.ring) != [] && Reconciled(cal, w.roll, w.ring, 0, 0).throughSeq == SeqOf(row)
  {
    UnfoldedIsMissing(w.roll, w.ring);
    MissingIs(w.roll.throughSeq, w.ring, row);
    HealedThrough(cal, NEW_ROLLUP, w, 0, 0);
    MaxSeqBounds(w.ring);
  }

  /** One read under way, repaired up to packet 1 and about to write: what it holds, what is on
      the ring, and what was stored, up to number `top`. */
  ghost predicate Pending(r: Race, ring: seq<Packet>, stored: seq<Packet>, top: nat, gone: nat) {
    && r.disk.ring == ring && r.stored == stored && Highest(r.disk) == top && r.readers.Keys == {0}
    && r.readers[0].repaired && r.readers[0].missing && r.readers[0].roll.throughSeq == 1
    && r.readers[0].gone == gone && r.readers[0].lost == {} && r.readers[0].durable == ring
  }

  lemma FirstPacket(cal: Calendar, r: Race)
    requires At(cal, [], r)
    ensures var r' := Play(cal, r, Listed(A, false));
            && !Rewinds(r, Listed(A, false))
            && r'.disk.ring == r'.stored == r'.disk.durable == [Stamped(A, 1)] && r'.disk.roll == NEW_ROLLUP
            && r'.disk.lost == {} && r'.gone == 0 && r'.readers == map[]
  {
    ListedMoves(cal, r, A, false);
  }

  lemma Onward(cal: Calendar, moves: seq<Move>, r: Race, m: Move) returns (r': Race, more: seq<Move>)
    requires At(cal, moves, r) && Able(r, m) && !Rewinds(r, m)
    ensures At(cal, more, r') && r' == Play(cal, r, m)
  {
    GoOn(cal, moves, r, m);
    r', more := Play(cal, r, m), moves + [m];
  }

  lemma ReadBoth(cal: Calendar, r: Race)
    requires Sound(cal, NEW_ROLLUP, r) && r.readers == map[] && r.disk.roll == NEW_ROLLUP
    requires r.disk.ring == r.stored == r.disk.durable == [Stamped(A, 1)] && r.disk.lost == {} && r.gone == 0
    ensures Able(r, ReadRoll(0)) && Able(Play(cal, r, ReadRoll(0)), ReadRing(0, 0, 0))
    ensures Pending(Play(cal, Play(cal, r, ReadRoll(0)), ReadRing(0, 0, 0)), [Stamped(A, 1)], [Stamped(A, 1)], 1, 0)
  {
    var r2 := Play(cal, r, ReadRoll(0));
    assert View(r2, r2.readers[0]) == r.disk;
    OneMissing(cal, r.disk, Stamped(A, 1));
    assert [Stamped(A, 1)][1..] == [];
    assert MaxSeq([Stamped(A, 1)]) == 1;
  }

  lemma Stored(cal: Calendar) returns (r: Race, moves: seq<Move>)
    ensures At(cal, moves, r) && Sound(cal, NEW_ROLLUP, r) && r.readers == map[] && r.disk.roll == NEW_ROLLUP
    ensures r.disk.ring == r.stored == r.disk.durable == [Stamped(A, 1)] && r.disk.lost == {} && r.gone == 0
  {
    var r0 := Rest([], NEW_ROLLUP);
    FirstPacket(cal, r0);
    r, moves := Onward(cal, [], r0, Listed(A, false));
    AtIsSound(cal, moves, r);
  }

  /** One packet stored and read: on the ring, missed by the roll-up, and folded by a read that
      has not written yet. */
  lemma ReadOpens(cal: Calendar) returns (r: Race, moves: seq<Move>)
    ensures At(cal, moves, r) && Pending(r, [Stamped(A, 1)], [Stamped(A, 1)], 1, 0)
  {
    var r1, m1 := Stored(cal);
    ReadBoth(cal, r1);
    var r2, m2 := Onward(cal, m1, r1, ReadRoll(0));
    r, moves := Onward(cal, m2, r2, ReadRing(0, 0, 0));
  }

  lemma TopAt(cal: Calendar, moves: seq<Move>, r: Race, take: Step)
    requires At(cal, moves, r) && take.Take? && Reaches(take)
    ensures Highest(Advance(cal, r.disk, take)) == Highest(r.disk) + 1
    ensures !take.ringKept ==> NewRow(r, take) !in r.disk.ring
  {
    AtIsSound(cal, moves, r);
    RingMoves(cal, NEW_ROLLUP, r.disk, take);
    TopMoves(cal, NEW_ROLLUP, r.disk, take);
  }

  /** A packet that reaches the roll-up alone. */
  lemma PacketIntrudes(cal: Calendar, moves: seq<Move>, r: Race, ring: seq<Packet>, stored: seq<Packet>, after: seq<Packet>)
    returns (m: Move)
    requires At(cal, moves, r) && Pending(r, ring, stored, 1, 0) && after == stored + [Stamped(B, 2)]
    ensures Able(r, m) && !Rewinds(r, m) && Pending(Play(cal, r, m), ring, after, 2, 1)
  {
    m := Counted(B);
    TopAt(cal, moves, r, m.take);
    NewRowIs(r, m.take, 1);
    CountedMoves(cal, r, B);
  }

  /** And one more, on the ring. */
  lemma PacketFollows(cal: Calendar, moves: seq<Move>, r: Race, ring: seq<Packet>, ring': seq<Packet>, stored: seq<Packet>, after: seq<Packet>)
    returns (m: Move)
    requires At(cal, moves, r) && Pending(r, ring, stored, 2, 1) && |ring| < 9
    requires ring' == ring + [Stamped(C, 3)] && after == stored + [Stamped(C, 3)]
    ensures Able(r, m) && !Rewinds(r, m) && Pending(Play(cal, r, m), ring', after, 3, 1)
  {
    m := Listed(C, true);
    TopAt(cal, moves, r, m.take);
    NewRowIs(r, m.take, 2);
    ListedMoves(cal, r, C, true);
  }

  lemma Intruded(cal: Calendar) returns (r: Race, moves: seq<Move>)
    ensures At(cal, moves, r) && Pending(r, [Stamped(A, 1)], [Stamped(A, 1), Stamped(B, 2)], 2, 1)
  {
    var r0, m0 := ReadOpens(cal);
    assert [Stamped(A, 1)] + [Stamped(B, 2)] == [Stamped(A, 1), Stamped(B, 2)];
    var m := PacketIntrudes(cal, m0, r0, [Stamped(A, 1)], [Stamped(A, 1)], [Stamped(A, 1), Stamped(B, 2)]);
    r, moves := Onward(cal, m0, r0, m);
  }

  lemma Followed(cal: Calendar) returns (r: Race, moves: seq<Move>)
    ensures At(cal, moves, r)
    ensures Pending(r, [Stamped(A, 1), Stamped(C, 3)], [Stamped(A, 1), Stamped(B, 2), Stamped(C, 3)], 3, 1)
  {
    var r0, m0 := Intruded(cal);
    assert [Stamped(A, 1)] + [Stamped(C, 3)] == [Stamped(A, 1), Stamped(C, 3)];
    assert [Stamped(A, 1), Stamped(B, 2)] + [Stamped(C, 3)] == [Stamped(A, 1), Stamped(B, 2), Stamped(C, 3)];
    var m := PacketFollows(cal, m0, r0, [Stamped(A, 1)], [Stamped(A, 1), Stamped(C, 3)],
                           [Stamped(A, 1), Stamped(B, 2)], [Stamped(A, 1), Stamped(B, 2), Stamped(C, 3)]);
    r, moves := Onward(cal, m0, r0, m);
  }

  lemma Landed(cal: Calendar, r: Race, ring: seq<Packet>, stored: seq<Packet>, top: nat)
    requires Pending(r, ring, stored, top, 1)
    ensures var m := WriteBack(0, true);
            && Able(r, m) && (MaxSeq(ring) == top ==> !Rewinds(r, m))
            && var r' := Play(cal, r, m);
               && r'.stored == stored && r'.gone == 1 && r'.disk.lost == {}
               && r'.disk.durable == r'.disk.ring == ring && r'.disk.roll.throughSeq == 1
  {
  }

  /** An ingest falls between the read and its write-back, and its packet does not reach the
      ring: the write-back wipes it out of the roll-up too, though it was stored, and its number
      is free for the next packet. */
  lemma RacingRepairReusesANumber(cal: Calendar) returns (moves: seq<Move>)
    ensures Runs(cal, Rest([], NEW_ROLLUP), moves)
    ensures var r := After(cal, Rest([], NEW_ROLLUP), moves);
            && r.stored == [Stamped(A, 1), Stamped(B, 2)] && r.gone == 1
            && r.disk.durable == [Stamped(A, 1)] && NextSeq(r.disk.ring, r.disk.roll) == 2
  {
    var r0, m0 := Intruded(cal);
    Landed(cal, r0, [Stamped(A, 1)], [Stamped(A, 1), Stamped(B, 2)], 2);
    GoOn(cal, m0, r0, WriteBack(0, true));
    moves := m0 + [WriteBack(0, true)];
    assert [Stamped(A, 1)][1..] == [];
    assert MaxSeq([Stamped(A, 1)]) == 1;
  }

  /** If another packet reaches the ring before the write-back, no number comes back; but the
      packet in between is uncounted for good: three stored, two counted, none evicted. */
  lemma RacingRepairLosesAPacket(cal: Calendar, now: int, cap: nat) returns (moves: seq<Move>)
    ensures Runs(cal, Rest([], NEW_ROLLUP), moves) && NeverRewinds(cal, Rest([], NEW_ROLLUP), moves)
    ensures var r := After(cal, Rest([], NEW_ROLLUP), moves);
            && r.stored == [Stamped(A, 1), Stamped(B, 2), Stamped(C, 3)] && r.gone == 1 && r.disk.lost == {}
            && Reconciled(cal, r.disk.roll, r.disk.ring, now, cap).total == 2
  {
    var ring := [Stamped(A, 1), Stamped(C, 3)];
    var r0, m0 := Followed(cal);
    assert ring[1..] == [Stamped(C, 3)] && ring[1..][1..] == [];
    assert MaxSeq(ring[1..]) == 3;
    Landed(cal, r0, ring, [Stamped(A, 1), Stamped(B, 2), Stamped(C, 3)], 3);
    var r, all := Onward(cal, m0, r0, WriteBack(0, true));
    moves := all;
    RaceCounts(cal, [], NEW_ROLLUP, moves, now, cap);
  }
}
