/** One thread's view of the store object: bounded lock polling, the re-entrant transaction
    block, and the three writers built on it. */
module JsonStore {
  import opened Basics
  import opened Wrappers
  import opened StoreProtocol

  // ----- backoff -------------------------------------------------------------------------------

  const BASE: real := 0.0005
  const CAP: real := 0.002
  const MAX_SHIFT: nat := 32

  function Min(a: real, b: real): real {
    if a <= b then a else b
  }

  /** Uniform jitter, whatever the generator draws. */
  type Jitter = r: real | 0.0 <= r <= BASE

  function Backoff(attempt: nat): real {
    Min(CAP, BASE * Pow2(if attempt < MAX_SHIFT then attempt else MAX_SHIFT) as real)
  }

  function Delay(attempt: nat, jitter: Jitter, left: real): real {
    Min(Backoff(attempt) + jitter, left)
  }

  lemma {:induction false} BackoffBounds(attempt: nat)
    ensures BASE <= Backoff(attempt) <= CAP
    ensures attempt >= 2 ==> Backoff(attempt) == CAP
  {
    var k := if attempt < MAX_SHIFT then attempt else MAX_SHIFT;
    assert Pow2(2) == 4;
    if attempt >= 2 {
      Pow2Grows(2, k);
    }
  }

  /** The exponent clamp changes no delay: with or without it the backoff is the same. */
  lemma {:induction false} ClampDiscardsNothing(attempt: nat)
    ensures Backoff(attempt) == Min(CAP, BASE * Pow2(attempt) as real)
  {
    BackoffBounds(attempt);
    if attempt >= 2 {
      assert Pow2(2) == 4;
      Pow2Grows(2, attempt);
    }
  }

  // ----- polling ---------------------------------------------------------------------------------

  /** How polling ended: what was asked of `sleep` in all, and how often it was asked. */
  datatype Wait = Wait(granted: bool, asked: real, attempts: nat)

  /** Polls still possible within what is left of the budget. */
  function Left(timeout: real, asked: real): nat {
    if asked < timeout then ((timeout - asked) / BASE).Floor + 1 else 0
  }

  function Poll(polls: nat -> bool, jitter: nat -> Jitter, timeout: real, asked: real, attempt: nat): Wait
    decreases Left(timeout, asked)
  {
    if polls(attempt) then Wait(true, asked, attempt)
    else if asked < timeout then
      Poll(polls, jitter, timeout, asked + Delay(attempt, jitter(attempt), timeout - asked), attempt + 1)
    else Wait(false, asked, attempt)
  }

  /** Polling ends; it sleeps no longer than the budget and exactly the budget when refused;
      it polls no more often than the budget holds base delays; and it is granted exactly by
      the first poll that succeeds. */
  lemma {:induction false} PollBounds(polls: nat -> bool, jitter: nat -> Jitter, timeout: real, asked: real, attempt: nat)
    ensures var w := Poll(polls, jitter, timeout, asked, attempt);
            && attempt <= w.attempts <= attempt + Left(timeout, asked)
            && (asked <= timeout ==> asked <= w.asked <= timeout)
            && (asked <= timeout && !w.granted ==> w.asked == timeout)
            && (w.granted <==> polls(w.attempts))
            && (forall k :: attempt <= k < w.attempts ==> !polls(k))
    decreases Left(timeout, asked)
  {
    if !polls(attempt) && asked < timeout {
      PollBounds(polls, jitter, timeout, asked + Delay(attempt, jitter(attempt), timeout - asked), attempt + 1);
    }
  }

  /** What the first `n` refused polls back off, jitter aside: half a millisecond, one, and two
      each from then on. */
  function Nominal(n: nat): real {
    if n == 0 then 0.0 else if n == 1 then 0.0005 else 0.0015 + 0.002 * (n - 2) as real
  }

  function Jitters(jitter: nat -> Jitter, n: nat): real {
    if n == 0 then 0.0 else Jitters(jitter, n - 1) + jitter(n - 1)
  }

  /** The sleep asked for after `n` refused polls, cut at the budget. */
  function Slept(jitter: nat -> Jitter, timeout: real, n: nat): real {
    if n == 0 then 0.0 else Min(timeout, Nominal(n) + Jitters(jitter, n))
  }

  lemma NominalGrows(n: nat)
    ensures Nominal(n + 1) == Nominal(n) + Backoff(n)
  {
    BackoffBounds(n);
    assert Pow2(0) == 1 && Pow2(1) == 2;
  }

  lemma {:induction false} PollsSleep(polls: nat -> bool, jitter: nat -> Jitter, timeout: real, asked: real, attempt: nat)
    requires asked == Slept(jitter, timeout, attempt)
    ensures var w := Poll(polls, jitter, timeout, asked, attempt); w.asked == Slept(jitter, timeout, w.attempts)
    decreases Left(timeout, asked)
  {
    if !polls(attempt) && asked < timeout {
      NominalGrows(attempt);
      PollsSleep(polls, jitter, timeout, asked + Delay(attempt, jitter(attempt), timeout - asked), attempt + 1);
    }
  }

  /** What is slept in all: every refused poll sleeps its backoff and its jitter, and the
      budget cuts the last one. */
  lemma SleepsAddUp(polls: nat -> bool, jitter: nat -> Jitter, timeout: real)
    ensures var w := Poll(polls, jitter, timeout, 0.0, 0); w.asked == Slept(jitter, timeout, w.attempts)
  {
    PollsSleep(polls, jitter, timeout, 0.0, 0);
  }

  method WaitFlock(polls: nat -> bool, jitter: nat -> Jitter, timeout: real, elapsed: real)
    returns (waited: Option<real>, asked: real, attempts: nat)
    ensures var w := Poll(polls, jitter, timeout, 0.0, 0);
            && asked == w.asked && attempts == w.attempts
            && waited == if w.granted then None else Some(if elapsed >= asked then elapsed else asked)
  {
    asked, attempts := 0.0, 0;
    if polls(0) {
      return None, asked, attempts;
    }
    while asked < timeout
      invariant !polls(attempts)
      invariant Poll(polls, jitter, timeout, asked, attempts) == Poll(polls, jitter, timeout, 0.0, 0)
      decreases Left(timeout, asked)
    {
      var delay := Delay(attempts, jitter(attempts), timeout - asked);
      asked := asked + delay;
      attempts := attempts + 1;
      if polls(attempts) {
        return None, asked, attempts;
      }
    }
    waited := Some(if elapsed >= asked then elapsed else asked);
  }

  // ----- the object ---------------------------------------------------------------------------------

  /** What the outside decides during one call: whether the lock file opens, the lock attempts,
      the jitter, the clock, and whether the record's file can be read and written. */
  datatype World = World(opens: bool, polls: nat -> bool, jitter: nat -> Jitter, elapsed: real,
                         readOk: bool, fileOk: bool)

  function DepthOf(depths: map<Path, nat>, p: Path): nat {
    if p in depths then depths[p] else 0
  }

  /** Is the transaction granted: a re-entry always, and so is one whose lock file does not
      open; else within the lock budget. */
  predicate Granted(timeout: real, depths: map<Path, nat>, p: Path, w: World) {
    DepthOf(depths, p) > 0 || !w.opens || Poll(w.polls, w.jitter, timeout, 0.0, 0).granted
  }

  /** The records whose advisory lock is held once a block on `p` is open. */
  function FdsInside(depths: map<Path, nat>, fds: set<Path>, p: Path, w: World): set<Path> {
    if DepthOf(depths, p) == 0 && w.opens then fds + {p} else fds
  }

  class Store {
    const timeout: real
    /** This thread's acquisitions of the instance lock, its nesting depths, and the records
        whose lock file it has open. */
    var held: nat
    var depths: map<Path, nat>
    var fds: set<Path>
    var lockTimeouts: nat
    var disk: map<Path, Value>
    var temps: set<Path>

    constructor (budget: real, files: map<Path, Value>)
      ensures timeout == budget && disk == files
      ensures held == 0 && depths == map[] && fds == {} && lockTimeouts == 0 && temps == {}
    {
      timeout, disk := budget, files;
      held, depths, fds, lockTimeouts, temps := 0, map[], {}, 0, {};
    }

    function At(p: Path): Value
      reads this
    {
      if p in disk then disk[p] else Missing
    }

    /** No descriptor outlives its block. */
    predicate Valid()
      reads this
    {
      (forall p :: p in depths ==> depths[p] > 0) && fds <= depths.Keys
    }

    /** Open the block. Refused means everything taken on the way was given back, and the
        refusal was recorded. A lock file that does not open leaves the block without the
        advisory lock. */
    method Begin(p: Path, w: World) returns (ok: bool)
      requires Valid()
      modifies this`held, this`depths, this`fds, this`lockTimeouts
      ensures Valid() && ok == Granted(timeout, old(depths), p, w)
      ensures ok ==>
                && held == old(held) + 1 && lockTimeouts == old(lockTimeouts)
                && depths == old(depths)[p := DepthOf(old(depths), p) + 1]
                && fds == FdsInside(old(depths), old(fds), p, w)
      ensures !ok ==>
                && held == old(held) && depths == old(depths) && fds == old(fds)
                && lockTimeouts == old(lockTimeouts) + 1
    {
      held := held + 1;
      if DepthOf(depths, p) > 0 {
        depths := depths[p := DepthOf(depths, p) + 1];
        return true;
      }
      if w.opens {
        fds := fds + {p};
        var waited, asked, attempts := WaitFlock(w.polls, w.jitter, timeout, w.elapsed);
        if waited.Some? {
          lockTimeouts := lockTimeouts + 1;
          fds := fds - {p};
          held := held - 1;
          return false;
        }
      }
      depths := depths[p := 1];
      ok := true;
    }

    /** Close the block, on every way out of it. */
    method End(p: Path)
      requires Valid() && DepthOf(depths, p) > 0 && held > 0
      modifies this`held, this`depths, this`fds
      ensures Valid() && held == old(held) - 1
      ensures depths == if DepthOf(old(depths), p) > 1 then old(depths)[p := DepthOf(old(depths), p) - 1]
                        else old(depths) - {p}
      ensures fds == if DepthOf(old(depths), p) > 1 then old(fds) else old(fds) - {p}
    {
      if depths[p] > 1 {
        depths := depths[p := depths[p] - 1];
      } else {
        depths := depths - {p};
        fds := fds - {p};
      }
      held := held - 1;
    }

    /** Temp file, flush, rename; a failure leaves the old record and no temp file. */
    method WritePath(p: Path, doc: Doc, fileOk: bool) returns (ok: bool)
      modifies this`held, this`disk, this`temps
      ensures held == old(held) && temps == old(temps) - {p} && ok == fileOk
      ensures disk == if fileOk then old(disk)[p := doc] else old(disk)
    {
      held := held + 1;
      temps := temps + {p};
      if fileOk {
        disk := disk[p := doc];
      }
      temps := temps - {p};
      held := held - 1;
      ok := fileOk;
    }

    /** A whole write: granted and writable, or nothing changes; locks and descriptors are as
        before either way. */
    method LockedWrite(p: Path, doc: Doc, w: World) returns (ok: bool)
      requires Valid()
      modifies this
      ensures Valid() && held == old(held) && depths == old(depths) && fds == old(fds)
      ensures ok == (Granted(timeout, old(depths), p, w) && w.fileOk)
      ensures disk == if ok then old(disk)[p := doc] else old(disk)
      ensures lockTimeouts == old(lockTimeouts) + (if Granted(timeout, old(depths), p, w) then 0 else 1)
    {
      var granted := Begin(p, w);
      if !granted {
        return false;
      }
      ok := WritePath(p, doc, w.fileOk);
      End(p);
    }

    /** What a read answers: the record, or the default when the file cannot be read. */
    function ReadOr(p: Path, readOk: bool): Value
      reads this
    {
      if readOk then At(p) else Missing
    }

    /** A whole append: the new list, or `None` when refused or not written. */
    method AppendPath(p: Path, item: int, cap: Option<int>, w: World) returns (r: Option<seq<int>>)
      requires Valid()
      modifies this
      ensures Valid() && held == old(held) && depths == old(depths) && fds == old(fds)
      ensures r.Some? <==> Granted(timeout, old(depths), p, w) && w.fileOk
      ensures r.Some? ==> Newest(r.value, ItemsOf(old(ReadOr(p, w.readOk))) + [item], cap)
      ensures disk == if r.Some? then old(disk)[p := Items(r.value)] else old(disk)
      ensures lockTimeouts == old(lockTimeouts) + (if Granted(timeout, old(depths), p, w) then 0 else 1)
    {
      var granted := Begin(p, w);
      if !granted {
        return None;
      }
      var items := ItemsOf(ReadOr(p, w.readOk)) + [item];
      if cap.Some? && cap.value >= 0 && |items| > cap.value {
        items := items[|items| - cap.value..];
      }
      var written := WritePath(p, Items(items), w.fileOk);
      End(p);
      r := if written then Some(items) else None;
    }

    /** A whole delete: true when a file was there and is gone. The sidecar lock stays. */
    method LockedDelete(p: Path, w: World) returns (ok: bool)
      requires Valid()
      modifies this
      ensures Valid() && held == old(held) && depths == old(depths) && fds == old(fds)
      ensures ok == (Granted(timeout, old(depths), p, w) && w.fileOk && old(p in disk))
      ensures disk == if ok then old(disk) - {p} else old(disk)
      ensures lockTimeouts == old(lockTimeouts) + (if Granted(timeout, old(depths), p, w) then 0 else 1)
    {
      var granted := Begin(p, w);
      if !granted {
        return false;
      }
      ok := w.fileOk && p in disk;
      if ok {
        disk := disk - {p};
      }
      End(p);
    }
  }
}
