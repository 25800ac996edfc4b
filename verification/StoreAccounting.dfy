/** Where every append goes: conservation over runs, the shape of an appended record, and
    the two ways an update is lost when the protocol's assumptions fail. */
module StoreAccounting {
  import opened Basics
  import opened Wrappers
  import opened StoreProtocol
  import opened StoreSafety

  // ----- calls in flight ----------------------------------------------------------------------

  /** A kind of operation. */
  type Kind = Op -> bool

  predicate IsAppend(op: Op) { op.Append? }

  /** Is this thread inside a call of this kind on `p` whose outcome is still open? */
  predicate Calling(l: Local, p: Path, kind: Kind) {
    || (l.pc.Polling? && l.pc.path == p && l.pc.task.Call? && kind(l.pc.task.op))
    || ((l.pc.Ready? || l.pc.HasRead? || l.pc.Staging? || l.pc.Staged?) && l.pc.path == p && kind(l.pc.op))
  }

  function InFlight(s: State, p: Path, kind: Kind): set<Thread> {
    set t | t in s.threads && Calling(s.threads[t], p, kind)
  }

  /** Calls on `p` that a step begins, refuses (lock timeout, failed write or failed delete)
      or kills. */
  function Begins(step: Step, p: Path, kind: Kind): nat {
    if (step.Enter? || step.EnterUnlocked?) && step.path == p && step.task.Call? && kind(step.task.op) then 1 else 0
  }

  function Refuses(s: State, step: Step, p: Path, kind: Kind): nat
    requires Can(s, step)
  {
    if (step.Timeout? || step.FailWrite? || step.FailUnlink?) && Calling(LocalOf(s, step.t), p, kind) then 1 else 0
  }

  function Kills(s: State, step: Step, p: Path, kind: Kind): nat
    requires Can(s, step)
  {
    if step.Crash? then |set t | t in InFlight(s, p, kind) && t.store == step.store| else 0
  }

  function Committed(log: seq<Commit>, p: Path, kind: Kind): nat {
    if log == [] then 0
    else
      var c := log[|log| - 1];
      (if c.path == p && kind(c.op) then 1 else 0) + Committed(log[..|log| - 1], p, kind)
  }

  /** The outcome a call of the actor reaches in this step, if it reaches one. */
  function Commits(s: State, step: Step, p: Path, kind: Kind): nat
    requires Can(s, step)
  {
    if (step.Replace? || step.Unlink?) && Calling(LocalOf(s, step.t), p, kind) then 1 else 0
  }

  lemma CommittedGrows(s: State, step: Step, p: Path, kind: Kind)
    requires Can(s, step)
    ensures Committed(Do(s, step).log, p, kind) == Committed(s.log, p, kind) + Commits(s, step, p, kind)
  {
    if step.Replace? || step.Unlink? {
      var log' := Do(s, step).log;
      assert log'[..|log'| - 1] == s.log;
    }
  }

  lemma ActorInFlight(s: State, step: Step, p: Path, kind: Kind)
    requires Can(s, step) && !step.Crash?
    ensures var l, l' := LocalOf(s, Actor(step)), NextLocal(s, step);
            (if Calling(l', p, kind) then 1 else 0)
            == (if Calling(l, p, kind) then 1 else 0) + Begins(step, p, kind) - Refuses(s, step, p, kind) - Commits(s, step, p, kind)
  {
  }

  lemma InFlightMoves(s: State, step: Step, p: Path, kind: Kind)
    requires Can(s, step) && !step.Crash?
    ensures var t := Actor(step);
            InFlight(Do(s, step), p, kind) - {t} == InFlight(s, p, kind) - {t}
            && (t in InFlight(Do(s, step), p, kind) <==> Calling(NextLocal(s, step), p, kind))
            && (t in InFlight(s, p, kind) <==> Calling(LocalOf(s, t), p, kind))
  {
    var t, s' := Actor(step), Do(s, step);
    forall u | u != t ensures u in InFlight(s', p, kind) <==> u in InFlight(s, p, kind) {
      assert u in s'.threads <==> u in s.threads;
    }
  }

  lemma SizeWithout<T>(a: set<T>, t: T)
    ensures |a| == |a - {t}| + (if t in a then 1 else 0)
  {
    if t in a {
      assert a == a - {t} + {t};
    } else {
      assert a == a - {t};
    }
  }

  lemma CrashSplits(s: State, i: nat, p: Path, kind: Kind)
    ensures |InFlight(s, p, kind)| == |set t | t in InFlight(s, p, kind) && t.store == i| + |InFlight(Do(s, Crash(i)), p, kind)|
  {
    var dead := set t | t in InFlight(s, p, kind) && t.store == i;
    assert InFlight(s, p, kind) == dead + InFlight(Do(s, Crash(i)), p, kind);
    assert dead * InFlight(Do(s, Crash(i)), p, kind) == {};
  }

  /** One step: what is begun is committed, refused, killed or still in flight. */
  lemma StepConserves(s: State, step: Step, p: Path, kind: Kind)
    requires Can(s, step)
    ensures Begins(step, p, kind) + |InFlight(s, p, kind)|
         == Commits(s, step, p, kind) + Refuses(s, step, p, kind) + Kills(s, step, p, kind) + |InFlight(Do(s, step), p, kind)|
  {
    if step.Crash? {
      CrashSplits(s, step.store, p, kind);
    } else {
      ActorInFlight(s, step, p, kind);
      InFlightMoves(s, step, p, kind);
      SizeWithout(InFlight(s, p, kind), Actor(step));
      SizeWithout(InFlight(Do(s, step), p, kind), Actor(step));
    }
  }

  /** What a run did with one kind of call on one record. */
  datatype Ledger = Ledger(begun: nat, refused: nat, killed: nat)

  function Count(s: State, steps: seq<Step>, p: Path, kind: Kind): Ledger
    requires Runs(s, steps, Final(s, steps))
    decreases |steps|
  {
    if steps == [] then Ledger(0, 0, 0)
    else
      var rest := Count(Do(s, steps[0]), steps[1..], p, kind);
      Ledger(rest.begun + Begins(steps[0], p, kind), rest.refused + Refuses(s, steps[0], p, kind),
             rest.killed + Kills(s, steps[0], p, kind))
  }

  /** Where a list of steps ends, taking only those that are enabled. */
  function Final(s: State, steps: seq<Step>): State
    decreases |steps|
  {
    if steps == [] then s
    else if Can(s, steps[0]) then Final(Do(s, steps[0]), steps[1..]) else s
  }

  /** Over every run and for every kind of operation, calls begun are committed, refused,
      killed by a crash or still in flight. */
  lemma {:induction false} RunConserves(s: State, steps: seq<Step>, p: Path, kind: Kind)
    requires Runs(s, steps, Final(s, steps))
    ensures var c := Count(s, steps, p, kind);
            c.begun + |InFlight(s, p, kind)| + Committed(s.log, p, kind)
            == Committed(Final(s, steps).log, p, kind) + c.refused + c.killed + |InFlight(Final(s, steps), p, kind)|
    decreases |steps|
  {
    if steps != [] {
      StepConserves(s, steps[0], p, kind);
      CommittedGrows(s, steps[0], p, kind);
      RunConserves(Do(s, steps[0]), steps[1..], p, kind);
    }
  }

  /** The plain reading of the log: each operation applied to what its predecessor left. */
  function Serial(disk: map<Path, Value>, log: seq<Commit>, p: Path): Value {
    if log == [] then (if p in disk then disk[p] else Missing)
    else
      var before := Serial(disk, log[..|log| - 1], p);
      if log[|log| - 1].path == p then Apply(log[|log| - 1].op, before) else before
  }

  lemma {:induction false} SeeingReplay(disk: map<Path, Value>, log: seq<Commit>, p: Path)
    requires forall k :: 0 <= k < |log| && log[k].path == p ==> !log[k].blind
    ensures Replay(disk, log, p) == Serial(disk, log, p)
  {
    if log != [] {
      SeeingReplay(disk, log[..|log| - 1], p);
    }
  }

  /** The record is the serial execution of its committed operations whenever every read
      inside a transaction returned the file. */
  lemma RunsAreSerial(disk: map<Path, Value>, temps: map<(nat, Path), Temp>, steps: seq<Step>, end: State, p: Path)
    requires Runs(Boot(disk, temps), steps, end) && !end.degraded
    requires forall k :: 0 <= k < |end.log| && end.log[k].path == p ==> !end.log[k].blind
    ensures DiskAt(end, p) == Serial(disk, end.log, p)
  {
    NoLostUpdate(disk, temps, steps, end, p);
    SeeingReplay(disk, end.log, p);
  }

  // ----- what appends leave on disk ----------------------------------------------------------------

  /** The items appended to `p`, in commit order. */
  function Appended(log: seq<Commit>, p: Path): seq<int> {
    if log == [] then []
    else
      var c := log[|log| - 1];
      Appended(log[..|log| - 1], p) + (if c.path == p && c.op.Append? then [c.op.item] else [])
  }

  /** Only appends with this one cap, none of them blind. */
  ghost predicate OnlyAppends(log: seq<Commit>, p: Path, cap: Option<int>) {
    forall k :: 0 <= k < |log| && log[k].path == p ==> log[k].op.Append? && log[k].op.cap == cap && !log[k].blind
  }

  lemma TrimTwice(items: seq<int>, item: int, cap: Option<int>)
    ensures Trim(Trim(items, cap) + [item], cap) == Trim(items + [item], cap)
  {
  }

  lemma {:induction false} AppendsReplay(disk: map<Path, Value>, log: seq<Commit>, p: Path, cap: Option<int>)
    requires OnlyAppends(log, p, cap)
    ensures |Appended(log, p)| == Committed(log, p, IsAppend)
    ensures var start := if p in disk then disk[p] else Missing;
            var now := Replay(disk, log, p);
            if Appended(log, p) == [] then now == start
            else now.Items? && Newest(now.items, ItemsOf(start) + Appended(log, p), cap)
  {
    AppendsTrim(disk, log, p, cap);
    TrimKeepsNewest(ItemsOf(if p in disk then disk[p] else Missing) + Appended(log, p), cap);
  }

  lemma {:induction false} AppendsTrim(disk: map<Path, Value>, log: seq<Commit>, p: Path, cap: Option<int>)
    requires OnlyAppends(log, p, cap)
    ensures |Appended(log, p)| == Committed(log, p, IsAppend)
    ensures var start := if p in disk then disk[p] else Missing;
            Replay(disk, log, p) == if Appended(log, p) == [] then start
                                    else Items(Trim(ItemsOf(start) + Appended(log, p), cap))
  {
    if log != [] {
      var rest, c := log[..|log| - 1], log[|log| - 1];
      AppendsTrim(disk, rest, p, cap);
      var start := if p in disk then disk[p] else Missing;
      if c.path == p {
        assert log[|log| - 1].path == p;
        TrimTwice(ItemsOf(start) + Appended(rest, p), c.op.item, cap);
        assert ItemsOf(start) + Appended(rest, p) + [c.op.item] == ItemsOf(start) + Appended(log, p);
        assert ItemsOf(start) + [] == ItemsOf(start);
      } else {
        assert Appended(log, p) == Appended(rest, p);
      }
    }
  }

  /** attempted = on disk + refused: in a crash-free run of uncapped appends that has come to
      rest, every append either stands on disk after what was there, in commit order, or was
      refused. With a fixed cap the record is the newest `cap` of them. */
  lemma AppendsAccounted(disk: map<Path, Value>, temps: map<(nat, Path), Temp>, steps: seq<Step>,
                         p: Path, cap: Option<int>)
    requires var end := Final(Boot(disk, temps), steps);
             && Runs(Boot(disk, temps), steps, end) && !end.degraded
             && OnlyAppends(end.log, p, cap) && InFlight(end, p, IsAppend) == {}
    requires Count(Boot(disk, temps), steps, p, IsAppend).killed == 0
    ensures var boot := Boot(disk, temps);
            var end, c := Final(boot, steps), Count(boot, steps, p, IsAppend);
            var was, items := ItemsOf(DiskAt(boot, p)), Appended(end.log, p);
            && c.begun == |items| + c.refused
            && (items == [] ==> DiskAt(end, p) == DiskAt(boot, p))
            && (items != [] ==> DiskAt(end, p).Items? && Newest(DiskAt(end, p).items, was + items, cap))
            && (cap == None ==> |was| + c.begun == |ItemsOf(DiskAt(end, p))| + c.refused)
  {
    var boot := Boot(disk, temps);
    RunConserves(boot, steps, p, IsAppend);
    NoLostUpdate(disk, temps, steps, Final(boot, steps), p);
    AppendsReplay(disk, Final(boot, steps).log, p, cap);
    assert InFlight(boot, p, IsAppend) == {};
  }

  // ----- what updates leave on disk ----------------------------------------------------------------

  /** A read-modify-write that puts its own items behind whatever it has read, or an append
      without a cap. */
  ghost predicate AddsItsOwn(op: Op) {
    || (op.Append? && op.cap.None?)
    || (op.Update? && forall v :: op.f(v) == Items(ItemsOf(v) + ItemsOf(op.f(Missing))))
  }

  function OwnItems(op: Op): seq<int> {
    match op
    case Append(item, _) => [item]
    case Update(f) => ItemsOf(f(Missing))
    case _ => []
  }

  /** What the operations on `p` bring along, in commit order. */
  function Brought(log: seq<Commit>, p: Path): seq<int> {
    if log == [] then []
    else
      var c := log[|log| - 1];
      Brought(log[..|log| - 1], p) + (if c.path == p then OwnItems(c.op) else [])
  }

  ghost predicate Touched(log: seq<Commit>, p: Path) {
    exists k :: 0 <= k < |log| && log[k].path == p
  }

  lemma {:induction false} AddingReplay(disk: map<Path, Value>, log: seq<Commit>, p: Path)
    requires forall k :: 0 <= k < |log| && log[k].path == p ==> AddsItsOwn(log[k].op) && !log[k].blind
    ensures var start := if p in disk then disk[p] else Missing;
            Replay(disk, log, p) == if Touched(log, p) then Items(ItemsOf(start) + Brought(log, p)) else start
  {
    if log != [] {
      var rest, c := log[..|log| - 1], log[|log| - 1];
      AddingReplay(disk, rest, p);
      assert Touched(log, p) <==> Touched(rest, p) || c.path == p;
      if !Touched(rest, p) {
        NothingBrought(rest, p);
      }
      var start := ItemsOf(if p in disk then disk[p] else Missing);
      assert start + [] == start && Brought(rest, p) + [] == Brought(rest, p);
      if c.path == p {
        Assoc(start, Brought(rest, p), OwnItems(c.op));
      }
    }
  }

  lemma {:induction false} NothingBrought(log: seq<Commit>, p: Path)
    requires !Touched(log, p)
    ensures Brought(log, p) == []
  {
    if log != [] {
      assert log[|log| - 1].path != p;
      NothingBrought(log[..|log| - 1], p);
    }
  }

  /** No read-modify-write forgets another: if every operation committed on a record puts its
      own items behind what it has read, the record is what it was at the start and then all
      of those items, in commit order, whoever committed them and in whatever interleaving. */
  lemma UpdatesAddUp(disk: map<Path, Value>, temps: map<(nat, Path), Temp>, steps: seq<Step>, end: State, p: Path)
    requires Runs(Boot(disk, temps), steps, end) && !end.degraded
    requires forall k :: 0 <= k < |end.log| && end.log[k].path == p ==> AddsItsOwn(end.log[k].op) && !end.log[k].blind
    ensures var start := DiskAt(Boot(disk, temps), p);
            DiskAt(end, p) == if Touched(end.log, p) then Items(ItemsOf(start) + Brought(end.log, p)) else start
  {
    NoLostUpdate(disk, temps, steps, end, p);
    AddingReplay(disk, end.log, p);
  }

  // ----- when the assumptions fail --------------------------------------------------------------------

  lemma RunsCons(s: State, step: Step, rest: seq<Step>, end: State)
    requires Can(s, step) && Runs(Do(s, step), rest, end)
    ensures Runs(s, [step] + rest, end)
  {
    assert ([step] + rest)[1..] == rest;
  }

  lemma {:induction false} RunsSnoc(s: State, steps: seq<Step>, mid: State, step: Step)
    requires Runs(s, steps, mid) && Can(mid, step)
    ensures Runs(s, steps + [step], Do(mid, step))
    decreases |steps|
  {
    if steps == [] {
      assert [step][1..] == [];
      assert steps + [step] == [step];
    } else {
      assert (steps + [step])[1..] == steps[1..] + [step];
      RunsSnoc(Do(s, steps[0]), steps[1..], mid, step);
    }
  }

  /** The write path of one thread, nobody in between: temp file, flush, rename. */
  lemma WriteOut(s: State, t: Thread) returns (steps: seq<Step>, end: State)
    requires LocalOf(s, t).pc.HasRead?
    ensures Runs(s, steps, end) && end.degraded == s.degraded
    ensures var pc := LocalOf(s, t).pc;
            && DiskAt(end, pc.path) == Apply(pc.op, pc.seen.value)
            && end.log == s.log + [Commit(pc.path, pc.op, pc.seen.fault)]
    ensures forall u :: u != t ==> LocalOf(end, u) == LocalOf(s, u)
  {
    var s1 := Do(s, OpenTemp(t));
    var s2 := Do(s1, FlushTemp(t));
    end := Do(s2, Replace(t));
    steps := [];
    RunsSnoc(s, [], s, OpenTemp(t));
    RunsSnoc(s, [] + [OpenTemp(t)], s1, FlushTemp(t));
    RunsSnoc(s, [] + [OpenTemp(t)] + [FlushTemp(t)], s2, Replace(t));
    steps := [] + [OpenTemp(t)] + [FlushTemp(t)] + [Replace(t)];
    ActorOnly(s, OpenTemp(t));
    ActorOnly(s1, FlushTemp(t));
    ActorOnly(s2, Replace(t));
  }

  lemma {:induction false} RunsJoin(s: State, a: seq<Step>, mid: State, b: seq<Step>, end: State)
    requires Runs(s, a, mid) && Runs(mid, b, end)
    ensures Runs(s, a + b, end)
    decreases |a|
  {
    if a == [] {
      assert a + b == b;
    } else {
      assert (a + b)[1..] == a[1..] + b;
      RunsJoin(Do(s, a[0]), a[1..], mid, b, end);
    }
  }

  /** An append that goes in without its lock and has read the record. */
  lemma ReadUnlocked(s: State, t: Thread, item: int) returns (steps: seq<Step>, end: State)
    requires LocalOf(s, t) == FRESH && t.store !in s.rlocks
    ensures Runs(s, steps, end) && end.degraded && end.log == s.log && end.disk == s.disk
    ensures LocalOf(end, t).pc == HasRead(0, Append(item, None), Seen(DiskAt(s, 0), false))
    ensures forall u :: u != t ==> LocalOf(end, u) == LocalOf(s, u)
    ensures end.rlocks.Keys == s.rlocks.Keys + {t.store}
  {
    var go := EnterUnlocked(t, 0, Call(Append(item, None)));
    var s1 := Do(s, go);
    ActorOnly(s, go);
    var read := ReadList(t, false);
    end := Do(s1, read);
    ActorOnly(s1, read);
    RunsSnoc(s, [], s, go);
    RunsSnoc(s, [] + [go], s1, read);
    steps := [] + [go] + [read];
  }

  /** Two instances that both read the record before either writes. */
  lemma BothRead(a: Thread, b: Thread) returns (steps: seq<Step>, end: State)
    requires a.store != b.store
    ensures Runs(Boot(map[], map[]), steps, end) && end.degraded && end.log == []
    ensures LocalOf(end, a).pc == HasRead(0, Append(1, None), Seen(Missing, false))
    ensures LocalOf(end, b).pc == HasRead(0, Append(2, None), Seen(Missing, false))
  {
    var s0 := Boot(map[], map[]);
    var r1, s1 := ReadUnlocked(s0, a, 1);
    var r2, s2 := ReadUnlocked(s1, b, 2);
    RunsJoin(s0, r1, s1, r2, s2);
    steps, end := r1 + r2, s2;
  }

  /** If a lock file cannot be opened, two instances append to one record and an item is lost:
      both appends commit and the record holds one of them. */
  lemma UnlockedAppendsLoseAnItem() returns (steps: seq<Step>, end: State)
    ensures Runs(Boot(map[], map[]), steps, end) && end.degraded
    ensures Committed(end.log, 0, IsAppend) == 2 && DiskAt(end, 0) == Items([2])
  {
    var a, b := Thread(0, 0), Thread(1, 0);
    var s0 := Boot(map[], map[]);
    var r, s2 := BothRead(a, b);
    var w1, s3 := WriteOut(s2, a);
    var w2, s4 := WriteOut(s3, b);
    RunsJoin(s0, r, s2, w1, s3);
    RunsJoin(s0, r + w1, s3, w2, s4);
    steps, end := r + w1 + w2, s4;
    TwoAppends(s2.log, Commit(0, Append(1, None), false), Commit(0, Append(2, None), false));
    assert [] + [2] == [2];
  }

  lemma TwoAppends(log: seq<Commit>, c: Commit, d: Commit)
    requires log == [] && c.path == 0 && c.op.Append? && d.path == 0 && d.op.Append?
    ensures Committed(log + [c] + [d], 0, IsAppend) == 2
  {
    var one, two := log + [c], log + [c] + [d];
    assert two[..1] == one && one[..0] == [];
    assert Committed(one, 0, IsAppend) == 1;
  }

  /** A read that fails is answered with the default, so the append after it keeps only its
      own item. Under any cap that leaves another record than a good read would have left if
      and only if the record held items and the cap lets more than one stand. */
  lemma BlindAppendForgets(disk: map<Path, Value>, log: seq<Commit>, p: Path, item: int, cap: Option<int>)
    ensures var held := ItemsOf(Replay(disk, log, p));
            var blind := Replay(disk, log + [Commit(p, Append(item, cap), true)], p);
            var seeing := Replay(disk, log + [Commit(p, Append(item, cap), false)], p);
            && blind.Items? && Newest(blind.items, [item], cap)
            && seeing.Items? && Newest(seeing.items, held + [item], cap)
            && (blind != seeing <==> held != [] && (cap.None? || cap.value < 0 || cap.value > 1))
  {
    var held := ItemsOf(Replay(disk, log, p));
    AppendReplays(disk, log, p, item, cap, true);
    AppendReplays(disk, log, p, item, cap, false);
    BlindListDiffers(held, item, cap,
                     Replay(disk, log + [Commit(p, Append(item, cap), true)], p),
                     Replay(disk, log + [Commit(p, Append(item, cap), false)], p));
  }

  lemma BlindListDiffers(held: seq<int>, item: int, cap: Option<int>, blind: Value, seeing: Value)
    requires blind == Items(Trim([item], cap)) && seeing == Items(Trim(held + [item], cap))
    ensures Newest(blind.items, [item], cap) && Newest(seeing.items, held + [item], cap)
    ensures blind != seeing <==> held != [] && (cap.None? || cap.value < 0 || cap.value > 1)
  {
    TrimKeepsNewest([item], cap);
    TrimKeepsNewest(held + [item], cap);
    TrimDiffers(held, item, cap);
  }

  lemma AppendReplays(disk: map<Path, Value>, log: seq<Commit>, p: Path, item: int, cap: Option<int>, blind: bool)
    ensures Replay(disk, log + [Commit(p, Append(item, cap), blind)], p)
         == Items(Trim(if blind then [item] else ItemsOf(Replay(disk, log, p)) + [item], cap))
  {
    assert (log + [Commit(p, Append(item, cap), blind)])[..|log|] == log;
    assert [] + [item] == [item];
  }

  lemma TrimDiffers(held: seq<int>, item: int, cap: Option<int>)
    ensures Trim([item], cap) != Trim(held + [item], cap) <==> held != [] && (cap.None? || cap.value < 0 || cap.value > 1)
  {
    if held != [] && (cap.None? || cap.value < 0 || cap.value > 1) {
      assert |Trim(held + [item], cap)| > 1;
    } else if held == [] {
      assert held + [item] == [item];
    } else {
      var all := held + [item];
      assert Trim(all, cap) == all[|all| - cap.value..];
      assert cap.value == 1 ==> all[|all| - 1..] == [item];
    }
  }

  /** A thread that has its lock and is about to read the list for an append. */
  lemma EnterForAppend(s: State, t: Thread, item: int) returns (steps: seq<Step>, end: State)
    requires LocalOf(s, t) == FRESH && t.store !in s.rlocks && 0 !in s.flocks
    ensures Runs(s, steps, end) && end.degraded == s.degraded && end.log == s.log && end.disk == s.disk
    ensures LocalOf(end, t).pc == Ready(0, Append(item, None))
  {
    var enter := Enter(t, 0, Call(Append(item, None)));
    var s1 := Do(s, enter);
    ActorOnly(s, enter);
    end := Do(s1, Lock(t));
    ActorOnly(s1, Lock(t));
    RunsSnoc(s, [], s, enter);
    RunsSnoc(s, [] + [enter], s1, Lock(t));
    steps := [] + [enter] + [Lock(t)];
  }

  lemma ReadAndWrite(s: State, t: Thread, fault: bool) returns (steps: seq<Step>, end: State)
    requires LocalOf(s, t).pc.Ready? && LocalOf(s, t).pc.op.Append?
    ensures Runs(s, steps, end) && end.degraded == s.degraded
    ensures var pc := LocalOf(s, t).pc; DiskAt(end, pc.path) == Apply(pc.op, Look(s, pc.path, fault).value)
  {
    var read := ReadList(t, fault);
    var s1 := Do(s, read);
    ActorOnly(s, read);
    var w, s2 := WriteOut(s1, t);
    RunsCons(s, read, w, s2);
    steps, end := [read] + w, s2;
  }

  /** And it does happen under the lock: a reachable run whose record loses an item. */
  lemma FailedReadLosesItems() returns (steps: seq<Step>, end: State)
    ensures Runs(Boot(map[0 := Items([1])], map[]), steps, end) && !end.degraded
    ensures DiskAt(end, 0) == Items([2])
  {
    var t, s0 := Thread(0, 0), Boot(map[0 := Items([1])], map[]);
    var a, s1 := EnterForAppend(s0, t, 2);
    var b, s2 := ReadAndWrite(s1, t, true);
    RunsJoin(s0, a, s1, b, s2);
    steps, end := a + b, s2;
    assert [] + [2] == [2];
  }
}
