/** What every step of the store protocol keeps, and what that means over whole runs:
    mutual exclusion, balanced locks and descriptors, and no lost update. */
module StoreSafety {
  import opened Wrappers
  import opened StoreProtocol

  // ----- the shape of one thread --------------------------------------------------------------

  /** The first frame on a record is its outermost, every later one a re-entry. */
  predicate WellNested(stack: seq<Frame>) {
    stack == []
    || var rest, top := stack[..|stack| - 1], stack[|stack| - 1];
       WellNested(rest) && (top.Outer? <==> Depth(rest, top.path) == 0)
  }

  /** Outermost frames on `p` that hold the advisory lock. */
  function LockedFrames(stack: seq<Frame>, p: Path): nat {
    if stack == [] then 0
    else (if stack[|stack| - 1] == Outer(p, true) then 1 else 0) + LockedFrames(stack[..|stack| - 1], p)
  }

  function OpenFrames(stack: seq<Frame>): nat {
    if stack == [] then 0
    else (if stack[|stack| - 1].Outer? && !stack[|stack| - 1].locked then 1 else 0) + OpenFrames(stack[..|stack| - 1])
  }

  predicate Busy(pc: Pc) {
    pc.Ready? || pc.HasRead? || pc.Staging? || pc.Staged? || pc.Leaving?
  }

  /** A thread works on a record it is inside of, and waits for one it is not. */
  predicate GoodLocal(l: Local) {
    && WellNested(l.stack)
    && (l.pc.Polling? ==> Depth(l.stack, l.pc.path) == 0)
    && (Busy(l.pc) ==> Depth(l.stack, l.pc.path) > 0 && l.stack[|l.stack| - 1].path == l.pc.path)
    && forall p :: p in l.snap ==> Depth(l.stack, p) > 0
  }

  lemma PushPop(stack: seq<Frame>, f: Frame)
    ensures (stack + [f])[..|stack|] == stack
    ensures forall p {:trigger Depth(stack + [f], p)} :: Depth(stack + [f], p) == (if f.path == p then 1 else 0) + Depth(stack, p)
    ensures forall p {:trigger LockedFrames(stack + [f], p)} :: LockedFrames(stack + [f], p) == (if f == Outer(p, true) then 1 else 0) + LockedFrames(stack, p)
    ensures OpenFrames(stack + [f]) == (if f.Outer? && !f.locked then 1 else 0) + OpenFrames(stack)
    ensures WellNested(stack + [f]) <==> WellNested(stack) && (f.Outer? <==> Depth(stack, f.path) == 0)
  {
    assert (stack + [f])[..|stack|] == stack;
  }

  /** Inside a record means one outermost frame on it, locked or not. */
  lemma {:induction false} InsideMeansOuter(stack: seq<Frame>, p: Path)
    requires WellNested(stack)
    ensures Depth(stack, p) == 0 ==> LockedFrames(stack, p) == 0
    ensures Depth(stack, p) > 0 && OpenFrames(stack) == 0 ==> LockedFrames(stack, p) == 1
    ensures LockedFrames(stack, p) <= 1
  {
    if stack != [] {
      InsideMeansOuter(stack[..|stack| - 1], p);
    }
  }

  ghost predicate GoodLocals(s: State) {
    forall t :: GoodLocal(LocalOf(s, t))
  }

  /** Who changes in a step: the actor, or everyone of the crashed instance. */
  lemma LocalAfter(s: State, step: Step, t: Thread)
    requires Can(s, step)
    ensures LocalOf(Do(s, step), t)
         == if step.Crash? then (if t.store == step.store then FRESH else LocalOf(s, t))
            else if t == Actor(step) then NextLocal(s, step) else LocalOf(s, t)
  {
  }

  lemma StepKeepsLocals(s: State, step: Step)
    requires GoodLocals(s) && Can(s, step)
    ensures GoodLocals(Do(s, step))
  {
    forall t ensures GoodLocal(LocalOf(Do(s, step), t)) {
      LocalAfter(s, step, t);
      if !step.Crash? && t == Actor(step) {
        ActorStaysGood(s, step);
      }
    }
  }

  lemma ActorStaysGood(s: State, step: Step)
    requires !step.Crash? && Can(s, step) && GoodLocal(LocalOf(s, Actor(step)))
    ensures GoodLocal(NextLocal(s, step))
  {
    if Opens(step) {
      OpeningStaysGood(s, step);
    }
  }

  predicate Opens(step: Step) {
    step.Enter? || step.EnterUnlocked? || step.Lock?
  }

  lemma OpeningStaysGood(s: State, step: Step)
    requires Opens(step) && Can(s, step) && GoodLocal(LocalOf(s, Actor(step)))
    ensures GoodLocal(NextLocal(s, step))
  {
    var l := LocalOf(s, Actor(step));
    if step.Enter? && !Reentry(s, step.t, step.path) {
      assert NextLocal(s, step) == l.(pc := Polling(step.path, step.task));
    } else {
      PushLocal(l, Opened(s, step));
    }
  }

  /** The frame an entry pushes. */
  function Opened(s: State, step: Step): Frame
    requires Opens(step) && Can(s, step)
  {
    match step
    case Enter(_, p, _) => Nested(p)
    case EnterUnlocked(_, p, _) => Outer(p, false)
    case Lock(t) => Outer(LocalOf(s, t).pc.path, true)
  }

  lemma PushLocal(l: Local, f: Frame)
    requires GoodLocal(l) && (f.Outer? <==> Depth(l.stack, f.path) == 0)
    ensures GoodLocal(l.(stack := l.stack + [f], pc := Idle))
    ensures forall op :: GoodLocal(l.(stack := l.stack + [f], pc := Ready(f.path, op)))
  {
    PushPop(l.stack, f);
    assert (l.stack + [f])[|l.stack|] == f;
  }

  // ----- the instance lock ------------------------------------------------------------------------

  /** The lock of an instance is owned by the one thread that has acquired it, as often as
      that thread's open blocks say; nobody else of that instance holds anything. */
  ghost predicate LocksAgree(s: State) {
    && (forall t :: Held(LocalOf(s, t)) > 0 ==> t.store in s.rlocks && s.rlocks[t.store] == RLock(t, Held(LocalOf(s, t))))
    && (forall i :: i in s.rlocks ==>
          s.rlocks[i].owner.store == i && s.rlocks[i].count == Held(LocalOf(s, s.rlocks[i].owner)) > 0)
  }

  /** The lock count an instance should show for its holder. */
  function Shown(rlocks: map<nat, RLock>, t: Thread, n: nat): map<nat, RLock> {
    if n == 0 then rlocks - {t.store} else rlocks[t.store := RLock(t, n)]
  }

  function Delta(s: State, step: Step): int {
    if step.Enter? || step.EnterUnlocked? || step.OpenTemp? then 1
    else if step.Timeout? || step.FailWrite? || step.Replace? || step.Exit? then -1
    else 0
  }

  lemma HeldMoves(s: State, step: Step)
    requires Can(s, step) && !step.Crash? && GoodLocal(LocalOf(s, Actor(step)))
    ensures Held(NextLocal(s, step)) == Held(LocalOf(s, Actor(step))) + Delta(s, step)
    ensures Held(LocalOf(s, Actor(step))) > 0 || step.Enter? || step.EnterUnlocked?
  {
  }

  lemma ActorCanAcquire(s: State, step: Step)
    requires GoodLocals(s) && LocksAgree(s) && Can(s, step) && !step.Crash?
    ensures CanAcquire(s, Actor(step))
    ensures Actor(step).store in s.rlocks ==> s.rlocks[Actor(step).store] == RLock(Actor(step), Held(LocalOf(s, Actor(step))))
    ensures Actor(step).store !in s.rlocks ==> Held(LocalOf(s, Actor(step))) == 0
  {
    var t := Actor(step);
    assert GoodLocal(LocalOf(s, t));
    HeldMoves(s, step);
    if Held(LocalOf(s, t)) > 0 {
      assert t.store in s.rlocks && s.rlocks[t.store] == RLock(t, Held(LocalOf(s, t)));
    }
  }

  lemma NextRlocksShow(s: State, step: Step)
    requires GoodLocals(s) && LocksAgree(s) && Can(s, step) && !step.Crash?
    ensures var t := Actor(step);
            NextRlocks(s, step) == if Delta(s, step) == 0 then s.rlocks else Shown(s.rlocks, t, Held(NextLocal(s, step)))
  {
    assert GoodLocal(LocalOf(s, Actor(step)));
    HeldMoves(s, step);
    ActorCanAcquire(s, step);
  }

  lemma ActorOnly(s: State, step: Step)
    requires Can(s, step) && !step.Crash?
    ensures LocalOf(Do(s, step), Actor(step)) == NextLocal(s, step)
    ensures forall u :: u != Actor(step) ==> LocalOf(Do(s, step), u) == LocalOf(s, u)
  {
    forall u | u != Actor(step) ensures LocalOf(Do(s, step), u) == LocalOf(s, u) {
      LocalAfter(s, step, u);
    }
  }

  lemma CrashOnly(s: State, i: nat)
    ensures forall u :: LocalOf(Do(s, Crash(i)), u) == if u.store == i then FRESH else LocalOf(s, u)
  {
    forall u ensures LocalOf(Do(s, Crash(i)), u) == if u.store == i then FRESH else LocalOf(s, u) {
      LocalAfter(s, Crash(i), u);
    }
  }

  lemma CrashKeepsLocks(s: State, i: nat)
    requires LocksAgree(s)
    ensures LocksAgree(Do(s, Crash(i)))
  {
    var s' := Do(s, Crash(i));
    CrashOnly(s, i);
    forall u | Held(LocalOf(s', u)) > 0
      ensures u.store in s'.rlocks && s'.rlocks[u.store] == RLock(u, Held(LocalOf(s', u)))
    {
      assert Held(LocalOf(s, u)) > 0;
    }
  }

  lemma StepKeepsLocks(s: State, step: Step)
    requires GoodLocals(s) && LocksAgree(s) && Can(s, step)
    ensures LocksAgree(Do(s, step))
  {
    if step.Crash? {
      CrashKeepsLocks(s, step.store);
    } else {
      assert GoodLocal(LocalOf(s, Actor(step)));
      HeldMoves(s, step);
      ActorCanAcquire(s, step);
      NextRlocksShow(s, step);
      ActorOnly(s, step);
      LocksMoved(s, Do(s, step), Actor(step));
    }
  }

  /** One thread changed its open blocks and its lock count together. */
  lemma LocksMoved(s: State, s': State, t: Thread)
    requires LocksAgree(s) && CanAcquire(s, t)
    requires forall u :: u != t ==> LocalOf(s', u) == LocalOf(s, u)
    requires s'.rlocks == Shown(s.rlocks, t, Held(LocalOf(s', t)))
          || (s'.rlocks == s.rlocks && Held(LocalOf(s', t)) == Held(LocalOf(s, t)))
    ensures LocksAgree(s')
  {
    forall u | Held(LocalOf(s', u)) > 0
      ensures u.store in s'.rlocks && s'.rlocks[u.store] == RLock(u, Held(LocalOf(s', u)))
    {
      if u != t {
        assert Held(LocalOf(s, u)) > 0;
      } else if s'.rlocks == s.rlocks {
        assert Held(LocalOf(s, t)) == Held(LocalOf(s', t));
      }
    }
  }

  // ----- the advisory lock and its descriptors -----------------------------------------------------

  function Waiting(l: Local, p: Path): nat {
    if l.pc.Polling? && l.pc.path == p then 1 else 0
  }

  /** The advisory lock of a record is held by exactly the thread with a locked outermost
      block on it, and every open descriptor is either such a block's or being waited on. */
  ghost predicate FilesAgree(s: State) {
    && (forall t, p {:trigger LockedFrames(LocalOf(s, t).stack, p)} ::
          LockedFrames(LocalOf(s, t).stack, p) > 0 <==> p in s.flocks && s.flocks[p] == t)
    && (forall t, p {:trigger Fds(s, t, p)} ::
          Fds(s, t, p) == LockedFrames(LocalOf(s, t).stack, p) + Waiting(LocalOf(s, t), p))
  }

  ghost predicate Owns(flocks: map<Path, Thread>, t: Thread, p: Path) {
    p in flocks && flocks[p] == t
  }

  lemma EnterFlocks(s: State, t: Thread, q: Path, task: Task, p: Path)
    requires Can(s, Enter(t, q, task))
    ensures NextFlocks(s, Enter(t, q, task)) == s.flocks
    ensures LockedFrames(NextLocal(s, Enter(t, q, task)).stack, p) == LockedFrames(LocalOf(s, t).stack, p)
  {
    PushPop(LocalOf(s, t).stack, Nested(q));
  }

  lemma EnterUnlockedFlocks(s: State, t: Thread, q: Path, task: Task, p: Path)
    requires Can(s, EnterUnlocked(t, q, task))
    ensures NextFlocks(s, EnterUnlocked(t, q, task)) == s.flocks
    ensures LockedFrames(NextLocal(s, EnterUnlocked(t, q, task)).stack, p) == LockedFrames(LocalOf(s, t).stack, p)
  {
    PushPop(LocalOf(s, t).stack, Outer(q, false));
  }

  lemma LockFlocks(s: State, t: Thread, p: Path)
    requires Can(s, Lock(t))
    requires LockedFrames(LocalOf(s, t).stack, p) > 0 <==> Owns(s.flocks, t, p)
    ensures LockedFrames(NextLocal(s, Lock(t)).stack, p) > 0 <==> Owns(NextFlocks(s, Lock(t)), t, p)
  {
    PushPop(LocalOf(s, t).stack, Outer(LocalOf(s, t).pc.path, true));
  }

  lemma ExitFlocks(s: State, t: Thread, p: Path)
    requires Can(s, Exit(t)) && WellNested(LocalOf(s, t).stack)
    requires LockedFrames(LocalOf(s, t).stack, p) > 0 <==> Owns(s.flocks, t, p)
    ensures LockedFrames(NextLocal(s, Exit(t)).stack, p) > 0 <==> Owns(NextFlocks(s, Exit(t)), t, p)
  {
    InsideMeansOuter(LocalOf(s, t).stack, p);
  }

  lemma InsideFlocks(s: State, step: Step)
    requires !step.Crash? && !Opens(step) && !step.Exit? && Can(s, step)
    ensures NextFlocks(s, step) == s.flocks && NextLocal(s, step).stack == LocalOf(s, Actor(step)).stack
  {
  }

  lemma ActorFlocks(s: State, step: Step, p: Path)
    requires Can(s, step) && !step.Crash? && WellNested(LocalOf(s, Actor(step)).stack)
    requires LockedFrames(LocalOf(s, Actor(step)).stack, p) > 0 <==> Owns(s.flocks, Actor(step), p)
    ensures LockedFrames(NextLocal(s, step).stack, p) > 0 <==> Owns(NextFlocks(s, step), Actor(step), p)
  {
    match step
    case Enter(t, q, task) => EnterFlocks(s, t, q, task, p);
    case EnterUnlocked(t, q, task) => EnterUnlockedFlocks(s, t, q, task, p);
    case Lock(t) => LockFlocks(s, t, p);
    case Exit(t) => ExitFlocks(s, t, p);
    case _ => InsideFlocks(s, step);
  }

  lemma OthersFlocks(s: State, step: Step, u: Thread, p: Path)
    requires Can(s, step) && !step.Crash? && u != Actor(step)
    requires Unlocks(s, step) ==> Owns(s.flocks, Actor(step), Top(LocalOf(s, Actor(step))).path)
    ensures Owns(NextFlocks(s, step), u, p) <==> Owns(s.flocks, u, p)
  {
  }

  lemma FlocksMove(s: State, step: Step, u: Thread, p: Path)
    requires GoodLocals(s) && FilesAgree(s) && Can(s, step) && !step.Crash?
    ensures LockedFrames(NextLocal(s, step).stack, p) > 0 <==> Owns(NextFlocks(s, step), Actor(step), p)
    ensures u != Actor(step) ==> (Owns(NextFlocks(s, step), u, p) <==> Owns(s.flocks, u, p))
  {
    var t, l := Actor(step), LocalOf(s, Actor(step));
    assert GoodLocal(l);
    assert LockedFrames(l.stack, p) > 0 <==> Owns(s.flocks, t, p);
    ActorFlocks(s, step, p);
    if u != t {
      assert Unlocks(s, step) ==> LockedFrames(l.stack, Top(l).path) > 0;
      OthersFlocks(s, step, u, p);
    }
  }

  /** The actor's descriptors on `p` after a step, by what the step opens or closes. */
  lemma FdCountMoves(s: State, step: Step, p: Path)
    requires FilesAgree(s) && Can(s, step) && !step.Crash?
    ensures Fds(Do(s, step), Actor(step), p) == Fds(s, Actor(step), p) + OpenedOn(s, step, p) - ClosedOn(s, step, p)
  {
    var t, l := Actor(step), LocalOf(s, Actor(step));
    assert Fds(s, t, p) == LockedFrames(l.stack, p) + Waiting(l, p);
  }

  function OpenedOn(s: State, step: Step, p: Path): nat
    requires Can(s, step)
  {
    if step.Enter? && !Reentry(s, step.t, step.path) && step.path == p then 1 else 0
  }

  function ClosedOn(s: State, step: Step, p: Path): nat
    requires Can(s, step)
  {
    if step.Timeout? then (if LocalOf(s, step.t).pc.path == p then 1 else 0)
    else if Unlocks(s, step) && Top(LocalOf(s, step.t)).path == p then 1
    else 0
  }

  function Holds(l: Local, p: Path): nat {
    LockedFrames(l.stack, p) + Waiting(l, p)
  }

  lemma PushedHolds(l: Local, f: Frame, pc: Pc, p: Path)
    requires !pc.Polling?
    ensures Holds(l.(stack := l.stack + [f], pc := pc), p) == LockedFrames(l.stack, p) + (if f == Outer(p, true) then 1 else 0)
  {
    PushPop(l.stack, f);
  }

  lemma EntryHolds(s: State, step: Step, p: Path)
    requires Opens(step) && Can(s, step)
    ensures Holds(NextLocal(s, step), p) == Holds(LocalOf(s, Actor(step)), p) + OpenedOn(s, step, p) - ClosedOn(s, step, p)
  {
    var l, l' := LocalOf(s, Actor(step)), NextLocal(s, step);
    match step
    case Enter(t, q, task) =>
      if Reentry(s, t, q) {
        PushedHolds(l, Nested(q), Start(q, task), p);
      }
    case EnterUnlocked(_, q, task) => PushedHolds(l, Outer(q, false), Start(q, task), p);
    case Lock(_) => PushedHolds(l, Outer(l.pc.path, true), Start(l.pc.path, l.pc.task), p);
  }

  lemma ExitHolds(s: State, step: Step, p: Path)
    requires step.Exit? && Can(s, step)
    ensures Holds(NextLocal(s, step), p) == Holds(LocalOf(s, Actor(step)), p) + OpenedOn(s, step, p) - ClosedOn(s, step, p)
  {
  }

  lemma InsideHolds(s: State, step: Step, p: Path)
    requires !step.Crash? && !Opens(step) && !step.Exit? && Can(s, step)
    ensures Holds(NextLocal(s, step), p) == Holds(LocalOf(s, Actor(step)), p) + OpenedOn(s, step, p) - ClosedOn(s, step, p)
  {
    assert NextLocal(s, step).stack == LocalOf(s, Actor(step)).stack;
  }

  /** Locked blocks and pending waits of the actor move the same way. */
  lemma HoldsMove(s: State, step: Step, p: Path)
    requires Can(s, step) && !step.Crash?
    ensures Holds(NextLocal(s, step), p) == Holds(LocalOf(s, Actor(step)), p) + OpenedOn(s, step, p) - ClosedOn(s, step, p)
  {
    if Opens(step) {
      EntryHolds(s, step, p);
    } else if step.Exit? {
      ExitHolds(s, step, p);
    } else {
      InsideHolds(s, step, p);
    }
  }

  lemma FdsMove(s: State, step: Step, u: Thread, p: Path)
    requires GoodLocals(s) && FilesAgree(s) && Can(s, step) && !step.Crash?
    ensures var s' := Do(s, step);
            Fds(s', u, p) == LockedFrames(LocalOf(s', u).stack, p) + Waiting(LocalOf(s', u), p)
  {
    assert Fds(s, u, p) == LockedFrames(LocalOf(s, u).stack, p) + Waiting(LocalOf(s, u), p);
    ActorOnly(s, step);
    if u == Actor(step) {
      FdCountMoves(s, step, p);
      HoldsMove(s, step, p);
    } else {
      OtherFds(s, step, u, p);
    }
  }

  lemma OtherFds(s: State, step: Step, u: Thread, p: Path)
    requires Can(s, step) && !step.Crash? && u != Actor(step)
    ensures Fds(Do(s, step), u, p) == Fds(s, u, p)
  {
  }

  lemma CrashKeepsFiles(s: State, i: nat)
    requires FilesAgree(s)
    ensures FilesAgree(Do(s, Crash(i)))
  {
    var s' := Do(s, Crash(i));
    CrashOnly(s, i);
    forall t, p
      ensures LockedFrames(LocalOf(s', t).stack, p) > 0 <==> p in s'.flocks && s'.flocks[p] == t
      ensures Fds(s', t, p) == LockedFrames(LocalOf(s', t).stack, p) + Waiting(LocalOf(s', t), p)
    {
      assert LockedFrames(LocalOf(s, t).stack, p) > 0 <==> p in s.flocks && s.flocks[p] == t;
      assert Fds(s, t, p) == LockedFrames(LocalOf(s, t).stack, p) + Waiting(LocalOf(s, t), p);
    }
  }

  lemma StepKeepsFiles(s: State, step: Step)
    requires GoodLocals(s) && FilesAgree(s) && Can(s, step)
    ensures FilesAgree(Do(s, step))
  {
    if step.Crash? {
      CrashKeepsFiles(s, step.store);
    } else {
      var s' := Do(s, step);
      forall t, p
        ensures LockedFrames(LocalOf(s', t).stack, p) > 0 <==> p in s'.flocks && s'.flocks[p] == t
        ensures Fds(s', t, p) == LockedFrames(LocalOf(s', t).stack, p) + Waiting(LocalOf(s', t), p)
      {
        LocalAfter(s, step, t);
        FlocksMove(s, step, t, p);
        FdsMove(s, step, t, p);
        assert LockedFrames(LocalOf(s, t).stack, p) > 0 <==> p in s.flocks && s.flocks[p] == t;
      }
    }
  }

  /** Unless a lock file could not be opened, every outermost block holds its lock. */
  ghost predicate Sealed(s: State) {
    !s.degraded ==> forall t :: OpenFrames(LocalOf(s, t).stack) == 0
  }

  lemma StepKeepsSeal(s: State, step: Step)
    requires Sealed(s) && Can(s, step)
    ensures Sealed(Do(s, step))
  {
    var s' := Do(s, step);
    if !s'.degraded {
      forall t ensures OpenFrames(LocalOf(s', t).stack) == 0 {
        LocalAfter(s, step, t);
        assert OpenFrames(LocalOf(s, t).stack) == 0;
        if !step.Crash? && t == Actor(step) {
          var l := LocalOf(s, t);
          match step
          case Enter(_, q, task) => PushPop(l.stack, Nested(q));
          case Lock(_) => PushPop(l.stack, Outer(l.pc.path, true));
          case _ =>
        }
      }
    }
  }

  // ----- mutual exclusion ---------------------------------------------------------------------------

  lemma OneInside(s: State, t: Thread, u: Thread, p: Path)
    requires GoodLocals(s) && FilesAgree(s) && Sealed(s) && !s.degraded
    requires Depth(LocalOf(s, t).stack, p) > 0 && Depth(LocalOf(s, u).stack, p) > 0
    ensures t == u && p in s.flocks && s.flocks[p] == t
  {
    assert GoodLocal(LocalOf(s, t)) && GoodLocal(LocalOf(s, u));
    InsideMeansOuter(LocalOf(s, t).stack, p);
    InsideMeansOuter(LocalOf(s, u).stack, p);
    assert LockedFrames(LocalOf(s, t).stack, p) > 0 && LockedFrames(LocalOf(s, u).stack, p) > 0;
  }

  // ----- what each thread believes about the disk -------------------------------------------------

  predicate Fresh(s: State, p: Path, seen: Seen) {
    seen.value == if seen.fault then Missing else DiskAt(s, p)
  }

  /** Everything a thread has read inside a transaction is still so, and a finished temp file
      holds its operation applied to what it read. */
  ghost predicate Believes(s: State, t: Thread, l: Local) {
    && (forall p :: p in l.snap ==> Fresh(s, p, l.snap[p]))
    && (l.pc.HasRead? || l.pc.Staging? || l.pc.Staged? ==> Fresh(s, l.pc.path, l.pc.seen))
    && (l.pc.Staged? ==>
          var k := (t.store, l.pc.path);
          k in s.temps && s.temps[k] == Full(Apply(l.pc.op, l.pc.seen.value)))
  }

  ghost predicate AllBelieve(s: State) {
    !s.degraded ==> forall t :: Believes(s, t, LocalOf(s, t))
  }

  lemma ActorBelieves(s: State, step: Step)
    requires Can(s, step) && !step.Crash?
    requires Believes(s, Actor(step), LocalOf(s, Actor(step)))
    ensures Believes(Do(s, step), Actor(step), NextLocal(s, step))
  {
  }

  lemma OthersBelieve(s: State, step: Step, u: Thread)
    requires GoodLocals(s) && LocksAgree(s) && FilesAgree(s) && Sealed(s) && !s.degraded
    requires Can(s, step) && !step.Crash? && u != Actor(step)
    requires Believes(s, u, LocalOf(s, u))
    ensures Believes(Do(s, step), u, LocalOf(s, u))
  {
    var s', t, l := Do(s, step), Actor(step), LocalOf(s, u);
    assert GoodLocal(l) && GoodLocal(LocalOf(s, t));
    if step.Replace? || step.Unlink? {
      var p := LocalOf(s, t).pc.path;
      if Depth(l.stack, p) > 0 {
        OneInside(s, t, u, p);
      }
      assert p !in l.snap;
      assert Busy(l.pc) ==> l.pc.path != p;
      WrittenElsewhere(s, step, u);
    } else {
      NothingWritten(s, step, u);
    }
  }

  /** A write to a record the thread is not inside of. */
  lemma WrittenElsewhere(s: State, step: Step, u: Thread)
    requires (step.Replace? || step.Unlink?) && Can(s, step) && u != Actor(step)
    requires LocalOf(s, Actor(step)).pc.path !in LocalOf(s, u).snap
    requires Busy(LocalOf(s, u).pc) ==> LocalOf(s, u).pc.path != LocalOf(s, Actor(step)).pc.path
    requires Believes(s, u, LocalOf(s, u))
    ensures Believes(Do(s, step), u, LocalOf(s, u))
  {
  }

  lemma NothingWritten(s: State, step: Step, u: Thread)
    requires !step.Crash? && !step.Replace? && !step.Unlink? && Can(s, step) && u != Actor(step)
    requires GoodLocal(LocalOf(s, u)) && GoodLocal(LocalOf(s, Actor(step)))
    requires LocksAgree(s) && Believes(s, u, LocalOf(s, u))
    ensures Believes(Do(s, step), u, LocalOf(s, u))
  {
  }

  lemma StepKeepsBeliefs(s: State, step: Step)
    requires GoodLocals(s) && LocksAgree(s) && FilesAgree(s) && Sealed(s) && AllBelieve(s) && Can(s, step)
    ensures AllBelieve(Do(s, step))
  {
    var s' := Do(s, step);
    if !s'.degraded {
      forall u ensures Believes(s', u, LocalOf(s', u)) {
        LocalAfter(s, step, u);
        assert Believes(s, u, LocalOf(s, u));
        if step.Crash? {
        } else if u == Actor(step) {
          ActorBelieves(s, step);
        } else {
          OthersBelieve(s, step, u);
        }
      }
    }
  }

  // ----- the disk is the log ------------------------------------------------------------------------

  ghost predicate DiskIsLog(disk: map<Path, Value>, s: State) {
    !s.degraded ==> forall p :: DiskAt(s, p) == Replay(disk, s.log, p)
  }

  lemma StepKeepsLog(disk: map<Path, Value>, s: State, step: Step)
    requires AllBelieve(s) && DiskIsLog(disk, s) && Can(s, step)
    ensures DiskIsLog(disk, Do(s, step))
  {
    var s' := Do(s, step);
    if !s'.degraded && (step.Replace? || step.Unlink?) {
      var t := step.t;
      assert Believes(s, t, LocalOf(s, t));
      assert s'.log[..|s'.log| - 1] == s.log;
      forall p ensures DiskAt(s', p) == Replay(disk, s'.log, p) {
        assert DiskAt(s, p) == Replay(disk, s.log, p);
      }
    }
  }

  // ----- whole runs -----------------------------------------------------------------------------------

  ghost predicate Safe(disk: map<Path, Value>, s: State) {
    && GoodLocals(s) && LocksAgree(s) && FilesAgree(s) && Sealed(s) && AllBelieve(s) && DiskIsLog(disk, s)
  }

  lemma BootIsSafe(disk: map<Path, Value>, temps: map<(nat, Path), Temp>)
    ensures Safe(disk, Boot(disk, temps))
  {
  }

  lemma StepIsSafe(disk: map<Path, Value>, s: State, step: Step)
    requires Safe(disk, s) && Can(s, step)
    ensures Safe(disk, Do(s, step))
  {
    StepKeepsLocals(s, step);
    StepKeepsLocks(s, step);
    StepKeepsFiles(s, step);
    StepKeepsSeal(s, step);
    StepKeepsBeliefs(s, step);
    StepKeepsLog(disk, s, step);
  }

  lemma {:induction false} RunIsSafe(disk: map<Path, Value>, s: State, steps: seq<Step>, end: State)
    requires Safe(disk, s) && Runs(s, steps, end)
    ensures Safe(disk, end)
    decreases |steps|
  {
    if steps != [] {
      StepIsSafe(disk, s, steps[0]);
      RunIsSafe(disk, Do(s, steps[0]), steps[1..], end);
    }
  }

  /** No lost update, over every interleaving of instances, threads, timeouts and crashes: the
      record on disk is the committed operations in commit order, each applied to the value
      its predecessor left. */
  lemma NoLostUpdate(disk: map<Path, Value>, temps: map<(nat, Path), Temp>, steps: seq<Step>, end: State, p: Path)
    requires Runs(Boot(disk, temps), steps, end) && !end.degraded
    ensures DiskAt(end, p) == Replay(disk, end.log, p)
  {
    BootIsSafe(disk, temps);
    RunIsSafe(disk, Boot(disk, temps), steps, end);
  }

  /** What a commit leaves, in any reachable state: a write leaves its document; an update its
      function of the record as it is at that moment, or of the default after a failed read;
      an append the newest items of that record and its own. No other record changes. */
  lemma CommitWrites(disk: map<Path, Value>, temps: map<(nat, Path), Temp>, steps: seq<Step>, s: State, t: Thread)
    requires Runs(Boot(disk, temps), steps, s) && !s.degraded && Can(s, Replace(t))
    ensures var pc := LocalOf(s, t).pc;
            var read := if pc.seen.fault then Missing else DiskAt(s, pc.path);
            var now := DiskAt(Do(s, Replace(t)), pc.path);
            && (pc.op.Put? ==> now == pc.op.doc)
            && (pc.op.Update? ==> now == pc.op.f(read))
            && (pc.op.Append? ==> now.Items?
                                  && Newest(now.items, (if read.Items? then read.items else []) + [pc.op.item], pc.op.cap))
    ensures forall q :: q != LocalOf(s, t).pc.path ==> DiskAt(Do(s, Replace(t)), q) == DiskAt(s, q)
  {
    BootIsSafe(disk, temps);
    RunIsSafe(disk, Boot(disk, temps), steps, s);
    var pc := LocalOf(s, t).pc;
    assert Believes(s, t, LocalOf(s, t));
    if pc.op.Append? {
      TrimKeepsNewest(ItemsOf(pc.seen.value) + [pc.op.item], pc.op.cap);
    }
  }

  /** Mutual exclusion: two threads inside one record, of one instance or of two, are one
      thread, and it holds the record's advisory lock. */
  lemma MutualExclusion(disk: map<Path, Value>, temps: map<(nat, Path), Temp>, steps: seq<Step>, end: State,
                        t: Thread, u: Thread, p: Path)
    requires Runs(Boot(disk, temps), steps, end) && !end.degraded
    requires Depth(LocalOf(end, t).stack, p) > 0 && Depth(LocalOf(end, u).stack, p) > 0
    ensures t == u && p in end.flocks && end.flocks[p] == t
  {
    BootIsSafe(disk, temps);
    RunIsSafe(disk, Boot(disk, temps), steps, end);
    OneInside(end, t, u, p);
  }

  /** Descriptors and locks balance in every reachable state, degraded or not: at most one
      descriptor per thread and record, however deep the nesting; a thread's depth is positive
      exactly while it holds the record (lock or degraded block); and a thread with no open
      block and no pending wait holds no instance lock, no advisory lock and no descriptor. */
  lemma LocksBalance(disk: map<Path, Value>, temps: map<(nat, Path), Temp>, steps: seq<Step>, end: State,
                     t: Thread, p: Path)
    requires Runs(Boot(disk, temps), steps, end)
    ensures Fds(end, t, p) <= 1
    ensures Depth(LocalOf(end, t).stack, p) > 0 && !end.degraded <==> !end.degraded && p in end.flocks && end.flocks[p] == t
    ensures LocalOf(end, t).stack == [] && LocalOf(end, t).pc.Idle? ==>
              && Fds(end, t, p) == 0
              && (p in end.flocks ==> end.flocks[p] != t)
              && (t.store in end.rlocks ==> end.rlocks[t.store].owner != t)
  {
    BootIsSafe(disk, temps);
    RunIsSafe(disk, Boot(disk, temps), steps, end);
    var l := LocalOf(end, t);
    assert GoodLocal(l);
    InsideMeansOuter(l.stack, p);
    assert Fds(end, t, p) == LockedFrames(l.stack, p) + Waiting(l, p);
    assert LockedFrames(l.stack, p) > 0 <==> p in end.flocks && end.flocks[p] == t;
  }
}
