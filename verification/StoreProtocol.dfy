/** The store's write protocol as a step system: any number of store instances, each with
    any number of threads, one re-entrant lock per instance outside an advisory lock per
    record, a temp file and an atomic rename, and a crash of any instance at any point. */
module StoreProtocol {
  import opened Wrappers

  // ----- records and operations -----------------------------------------------------------

  /** A record's file: absent, a JSON list, or any other JSON document. */
  datatype Value = Missing | Items(items: seq<int>) | Scalar(v: int)
  type Doc = v: Value | v != Missing witness Items([])

  type Path = nat

  /** `Update` is a write of a value computed from what the same transaction read. */
  datatype Op = Put(doc: Doc) | Append(item: int, cap: Option<int>) | Update(f: Value -> Doc) | Remove

  function Trim(items: seq<int>, cap: Option<int>): seq<int> {
    if cap.Some? && cap.value >= 0 && |items| > cap.value then items[|items| - cap.value..] else items
  }

  /** The newest `cap` of `all`, or all of them when there is no cap or it does not bite. */
  predicate Newest(kept: seq<int>, all: seq<int>, cap: Option<int>) {
    && |kept| == (if cap.Some? && 0 <= cap.value < |all| then cap.value else |all|)
    && kept == all[|all| - |kept|..]
  }

  lemma TrimKeepsNewest(items: seq<int>, cap: Option<int>)
    ensures Newest(Trim(items, cap), items, cap)
  {
  }

  function ItemsOf(v: Value): seq<int> {
    if v.Items? then v.items else []
  }

  function Apply(op: Op, base: Value): Value {
    match op
    case Put(doc) => doc
    case Append(item, cap) => Items(Trim(ItemsOf(base) + [item], cap))
    case Update(f) => f(base)
    case Remove => Missing
  }

  // ----- threads ---------------------------------------------------------------------------

  /** Thread `id` of store instance `store`. */
  datatype Thread = Thread(store: nat, id: nat)

  /** One open `with` block: the outermost on its record, with or without its advisory lock,
      or a re-entry. */
  datatype Frame = Outer(path: Path, locked: bool) | Nested(path: Path)

  /** What a read inside the transaction returned; `fault` when the file could not be read
      and the default came back instead. */
  datatype Seen = Seen(value: Value, fault: bool)

  datatype Task = Transaction | Call(op: Op)

  datatype Pc =
    | Idle
    | Polling(path: Path, task: Task)
    | Ready(path: Path, op: Op)
    | HasRead(path: Path, op: Op, seen: Seen)
    | Staging(path: Path, op: Op, seen: Seen)
    | Staged(path: Path, op: Op, seen: Seen)
    | Leaving(path: Path)

  datatype Local = Local(stack: seq<Frame>, pc: Pc, snap: map<Path, Seen>)

  const FRESH := Local([], Idle, map[])

  function Depth(stack: seq<Frame>, p: Path): nat {
    if stack == [] then 0
    else (if stack[|stack| - 1].path == p then 1 else 0) + Depth(stack[..|stack| - 1], p)
  }

  /** How often this thread has acquired its store's re-entrant lock. */
  function Held(l: Local): nat {
    |l.stack| + (if l.pc.Polling? || l.pc.Staging? || l.pc.Staged? then 1 else 0)
  }

  // ----- the shared state --------------------------------------------------------------------

  datatype RLock = RLock(owner: Thread, count: nat)
  datatype Temp = Partial | Full(value: Value)

  /** One committed operation; `blind` when it was computed from a read that failed. */
  datatype Commit = Commit(path: Path, op: Op, blind: bool)

  datatype State = State(
    threads: map<Thread, Local>,
    rlocks: map<nat, RLock>,
    flocks: map<Path, Thread>,
    fds: map<(Thread, Path), nat>,
    disk: map<Path, Value>,
    temps: map<(nat, Path), Temp>,
    log: seq<Commit>,
    degraded: bool)

  function LocalOf(s: State, t: Thread): Local {
    if t in s.threads then s.threads[t] else FRESH
  }

  function DiskAt(s: State, p: Path): Value {
    if p in s.disk then s.disk[p] else Missing
  }

  function Fds(s: State, t: Thread, p: Path): nat {
    if (t, p) in s.fds then s.fds[(t, p)] else 0
  }

  /** Free, or already ours: `RLock.acquire` does not block. */
  predicate CanAcquire(s: State, t: Thread) {
    t.store !in s.rlocks || s.rlocks[t.store].owner == t
  }

  function Start(p: Path, task: Task): Pc {
    match task
    case Transaction => Idle
    case Call(op) => Ready(p, op)
  }

  // ----- steps -------------------------------------------------------------------------------

  datatype Step =
    | Enter(t: Thread, path: Path, task: Task)
    | EnterUnlocked(t: Thread, path: Path, task: Task)
    | Lock(t: Thread)
    | Timeout(t: Thread)
    | ReadRecord(t: Thread, path: Path, fault: bool)
    | ReadList(t: Thread, fault: bool)
    | OpenTemp(t: Thread)
    | FlushTemp(t: Thread)
    | FailWrite(t: Thread)
    | Replace(t: Thread)
    | Unlink(t: Thread)
    | FailUnlink(t: Thread)
    | Exit(t: Thread)
    | Crash(store: nat)

  function Look(s: State, p: Path, fault: bool): Seen {
    if fault then Seen(Missing, true) else Seen(DiskAt(s, p), false)
  }

  /** What a write is computed from: its own read, the transaction's snapshot, or nothing. A
      plain write ignores it. */
  predicate HasBase(l: Local) {
    || l.pc.HasRead?
    || (l.pc.Ready? && (l.pc.op.Put? || (l.pc.op.Update? && l.pc.path in l.snap)))
  }

  function Base(s: State, l: Local): Seen
    requires HasBase(l)
  {
    if l.pc.HasRead? then l.pc.seen
    else if l.pc.op.Update? then l.snap[l.pc.path]
    else Look(s, l.pc.path, false)
  }

  predicate Removing(l: Local) {
    l.pc.Ready? && l.pc.op.Remove?
  }

  predicate Can(s: State, step: Step) {
    match step
    case Enter(t, p, task) => LocalOf(s, t).pc.Idle? && CanAcquire(s, t)
    case EnterUnlocked(t, p, task) =>
      LocalOf(s, t).pc.Idle? && CanAcquire(s, t) && Depth(LocalOf(s, t).stack, p) == 0
    case Lock(t) => LocalOf(s, t).pc.Polling? && LocalOf(s, t).pc.path !in s.flocks
    case Timeout(t) => LocalOf(s, t).pc.Polling?
    case ReadRecord(t, p, fault) => LocalOf(s, t).pc.Idle? && Depth(LocalOf(s, t).stack, p) > 0
    case ReadList(t, fault) => LocalOf(s, t).pc.Ready? && LocalOf(s, t).pc.op.Append?
    case OpenTemp(t) => HasBase(LocalOf(s, t))
    case FlushTemp(t) => LocalOf(s, t).pc.Staging?
    case FailWrite(t) => LocalOf(s, t).pc.Staging? || LocalOf(s, t).pc.Staged?
    case Replace(t) => LocalOf(s, t).pc.Staged?
    case Unlink(t) => Removing(LocalOf(s, t)) && DiskAt(s, LocalOf(s, t).pc.path) != Missing
    case FailUnlink(t) => Removing(LocalOf(s, t))
    case Exit(t) => (LocalOf(s, t).pc.Idle? || LocalOf(s, t).pc.Leaving?) && LocalOf(s, t).stack != []
    case Crash(i) => true
  }

  /** The thread that takes the step; a crash is taken by nobody. */
  function Actor(step: Step): Thread
    requires !step.Crash?
  {
    step.t
  }

  predicate Reentry(s: State, t: Thread, p: Path) {
    Depth(LocalOf(s, t).stack, p) > 0
  }

  function Top(l: Local): Frame
    requires l.stack != []
  {
    l.stack[|l.stack| - 1]
  }

  /** The acting thread afterwards. A re-entry pushes a frame at once; an outermost entry
      first polls; an exit closes the innermost block. */
  function NextLocal(s: State, step: Step): Local
    requires !step.Crash? && Can(s, step)
  {
    var l := LocalOf(s, Actor(step));
    match step
    case Enter(t, p, task) =>
      if Reentry(s, t, p) then l.(stack := l.stack + [Nested(p)], pc := Start(p, task))
      else l.(pc := Polling(p, task))
    case EnterUnlocked(t, p, task) => l.(stack := l.stack + [Outer(p, false)], pc := Start(p, task))
    case Lock(t) => l.(stack := l.stack + [Outer(l.pc.path, true)], pc := Start(l.pc.path, l.pc.task))
    case Timeout(t) => l.(pc := Idle)
    case ReadRecord(t, p, fault) => l.(snap := l.snap[p := Look(s, p, fault)])
    case ReadList(t, fault) => l.(pc := HasRead(l.pc.path, l.pc.op, Look(s, l.pc.path, fault)))
    case OpenTemp(t) => l.(pc := Staging(l.pc.path, l.pc.op, Base(s, l)))
    case FlushTemp(t) => l.(pc := Staged(l.pc.path, l.pc.op, l.pc.seen))
    case FailWrite(t) => l.(pc := Leaving(l.pc.path))
    case Replace(t) => l.(pc := Leaving(l.pc.path), snap := l.snap - {l.pc.path})
    case Unlink(t) => l.(pc := Leaving(l.pc.path), snap := l.snap - {l.pc.path})
    case FailUnlink(t) => l.(pc := Leaving(l.pc.path))
    case Exit(t) =>
      Local(l.stack[..|l.stack| - 1], Idle, if Top(l).Outer? then l.snap - {Top(l).path} else l.snap)
  }

  function NextThreads(s: State, step: Step): map<Thread, Local>
    requires Can(s, step)
  {
    if step.Crash? then map t | t in s.threads && t.store != step.store :: s.threads[t]
    else s.threads[Actor(step) := NextLocal(s, step)]
  }

  /** The instance lock: acquired before a block opens and around the file write, released
      on the way out of either, on a timeout too. */
  function NextRlocks(s: State, step: Step): map<nat, RLock>
    requires Can(s, step)
  {
    match step
    case Crash(i) => s.rlocks - {i}
    case Enter(t, _, _) => Acquired(s, t)
    case EnterUnlocked(t, _, _) => Acquired(s, t)
    case OpenTemp(t) => Acquired(s, t)
    case Timeout(t) => Released(s, t)
    case FailWrite(t) => Released(s, t)
    case Replace(t) => Released(s, t)
    case Exit(t) => Released(s, t)
    case _ => s.rlocks
  }

  function Acquired(s: State, t: Thread): map<nat, RLock> {
    s.rlocks[t.store := RLock(t, (if t.store in s.rlocks then s.rlocks[t.store].count else 0) + 1)]
  }

  function Released(s: State, t: Thread): map<nat, RLock> {
    if t.store !in s.rlocks then s.rlocks
    else if s.rlocks[t.store].count <= 1 then s.rlocks - {t.store}
    else s.rlocks[t.store := RLock(t, s.rlocks[t.store].count - 1)]
  }

  /** Does this exit leave an outermost block that holds the advisory lock? */
  predicate Unlocks(s: State, step: Step)
    requires Can(s, step)
  {
    step.Exit? && Top(LocalOf(s, step.t)).Outer? && Top(LocalOf(s, step.t)).locked
  }

  /** The advisory lock belongs to an open descriptor, so a crash frees it. */
  function NextFlocks(s: State, step: Step): map<Path, Thread>
    requires Can(s, step)
  {
    if step.Crash? then map p | p in s.flocks && s.flocks[p].store != step.store :: s.flocks[p]
    else if step.Lock? then s.flocks[LocalOf(s, step.t).pc.path := step.t]
    else if Unlocks(s, step) then s.flocks - {Top(LocalOf(s, step.t)).path}
    else s.flocks
  }

  /** One descriptor per outermost acquisition, closed on every way out. */
  function NextFds(s: State, step: Step): map<(Thread, Path), nat>
    requires Can(s, step)
  {
    if step.Crash? then map k | k in s.fds && k.0.store != step.store :: s.fds[k]
    else if step.Enter? && !Reentry(s, step.t, step.path)
    then s.fds[(step.t, step.path) := Fds(s, step.t, step.path) + 1]
    else if step.Timeout? then Closed(s, step.t, LocalOf(s, step.t).pc.path)
    else if Unlocks(s, step) then Closed(s, step.t, Top(LocalOf(s, step.t)).path)
    else s.fds
  }

  function Closed(s: State, t: Thread, p: Path): map<(Thread, Path), nat> {
    if Fds(s, t, p) == 0 then s.fds else s.fds[(t, p) := Fds(s, t, p) - 1]
  }

  function TempKey(s: State, t: Thread): (nat, Path)
    requires !LocalOf(s, t).pc.Idle?
  {
    (t.store, LocalOf(s, t).pc.path)
  }

  /** What the rename publishes: the temp file as it is. */
  function TempValue(s: State, t: Thread): Value
    requires !LocalOf(s, t).pc.Idle?
  {
    var k := TempKey(s, t);
    if k in s.temps && s.temps[k].Full? then s.temps[k].value else Missing
  }

  function NextDisk(s: State, step: Step): map<Path, Value>
    requires Can(s, step)
  {
    match step
    case Replace(t) => s.disk[LocalOf(s, t).pc.path := TempValue(s, t)]
    case Unlink(t) => s.disk[LocalOf(s, t).pc.path := Missing]
    case _ => s.disk
  }

  /** A half-written temp file survives a crash and is overwritten by the next writer. */
  function NextTemps(s: State, step: Step): map<(nat, Path), Temp>
    requires Can(s, step)
  {
    match step
    case OpenTemp(t) => s.temps[TempKey(s, t) := Partial]
    case FlushTemp(t) =>
      var pc := LocalOf(s, t).pc;
      s.temps[TempKey(s, t) := Full(Apply(pc.op, pc.seen.value))]
    case FailWrite(t) => s.temps - {TempKey(s, t)}
    case Replace(t) => s.temps - {TempKey(s, t)}
    case _ => s.temps
  }

  function NextLog(s: State, step: Step): seq<Commit>
    requires Can(s, step)
  {
    match step
    case Replace(t) =>
      var pc := LocalOf(s, t).pc;
      s.log + [Commit(pc.path, pc.op, pc.seen.fault)]
    case Unlink(t) => s.log + [Commit(LocalOf(s, t).pc.path, Remove, false)]
    case _ => s.log
  }

  function Do(s: State, step: Step): State
    requires Can(s, step)
  {
    State(NextThreads(s, step), NextRlocks(s, step), NextFlocks(s, step), NextFds(s, step),
          NextDisk(s, step), NextTemps(s, step), NextLog(s, step), s.degraded || step.EnterUnlocked?)
  }

  // ----- runs ---------------------------------------------------------------------------------

  /** Nobody inside, any files on disk, any leftover temp files. */
  function Boot(disk: map<Path, Value>, temps: map<(nat, Path), Temp>): State {
    State(map[], map[], map[], map[], disk, temps, [], false)
  }

  ghost predicate Runs(s: State, steps: seq<Step>, end: State)
    decreases |steps|
  {
    if steps == [] then end == s
    else Can(s, steps[0]) && Runs(Do(s, steps[0]), steps[1..], end)
  }

  /** The committed operations on one record, each applied to what its predecessor left; a
      blind one to the default. */
  function Replay(disk: map<Path, Value>, log: seq<Commit>, p: Path): Value {
    if log == [] then (if p in disk then disk[p] else Missing)
    else
      var c := log[|log| - 1];
      var before := Replay(disk, log[..|log| - 1], p);
      if c.path != p then before
      else Apply(c.op, if c.blind then Missing else before)
  }
}
