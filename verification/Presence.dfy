/** The presence state machine: face events become arrivals, departures and flickers. */
module Presence {
  import opened Wrappers

  /** The two thresholds, in seconds. */
  datatype Knobs = Knobs(flicker: real, minPresent: real)

  const HISTORY_MAX := 20

  datatype Slot = Qr | Marker | Book
  datatype Kind = FoundFace | LostTarget | LostFace | Scan(slot: Slot) | Unmodelled
  datatype Event = Event(kind: Kind, at: real, value: string)

  datatype Signal =
    | Arrived(at: real, away: Option<real>)
    | Left(at: real, present: real)
    | Flicker(at: real, found: bool, gap: real)
    | Scanned(at: real, slot: Slot, value: string)

  datatype Announced = Nothing | AnArrival | ALeaving

  datatype State = State(
    face: Option<bool>, lastSeen: Option<real>, lastLost: Option<real>,
    presentSince: Option<real>, absentSince: Option<real>,
    facesSeen: nat, arrivalAway: Option<real>, announced: Announced,
    flickers: nat, events: nat, scans: map<Slot, (string, real)>,
    history: seq<Event>, updatedAt: Option<real>)

  const NEW_STATE := State(None, None, None, None, None, 0, None, Nothing, 0, 0, map[], [], None)

  predicate Modelled(e: Event) {
    !e.kind.Unmodelled?
  }

  predicate Lost(e: Event) {
    e.kind.LostTarget? || e.kind.LostFace?
  }

  /** Never negative, so a clock that steps back reads as no gap. */
  function Gap(now: real, since: real): real {
    if now - since > 0.0 then now - since else 0.0
  }

  function Since(now: real, since: Option<real>): Option<real> {
    match since
    case None => None
    case Some(t) => Some(Gap(now, t))
  }

  function LastN(events: seq<Event>, n: nat): (r: seq<Event>)
    ensures |r| <= n || r == events
  {
    if |events| > n then events[|events| - n..] else events
  }

  function Noted(st: State, e: Event): State {
    st.(history := LastN(st.history, HISTORY_MAX - 1) + [e], events := st.events + 1, updatedAt := Some(e.at))
  }

  predicate TooSoon(k: Knobs, gap: Option<real>) {
    gap.Some? && gap.value < k.flicker
  }

  function OnFound(k: Knobs, st: State, at: real): (State, seq<Signal>) {
    var away := Since(at, st.lastLost);
    var here := st.(lastSeen := Some(at), face := Some(true), absentSince := None);
    if st.face == Some(true) then (here, [])
    else if TooSoon(k, away) then (here.(flickers := st.flickers + 1), [Flicker(at, true, away.value)])
    else
      (here.(facesSeen := st.facesSeen + 1, presentSince := Some(at), arrivalAway := away, announced := AnArrival),
       [Arrived(at, away)])
  }

  /** Already reported as over, or too short to be real. */
  predicate Quiet(k: Knobs, st: State, present: Option<real>) {
    st.announced.ALeaving? || (present.Some? && present.value < k.minPresent)
  }

  function Seconds(x: Option<real>): real {
    if x.Some? then x.value else 0.0
  }

  function OnLost(k: Knobs, st: State, at: real): (State, seq<Signal>) {
    var present := Since(at, st.presentSince);
    var gone := st.(lastLost := Some(at), face := Some(false), absentSince := Some(at));
    if st.face != Some(true) then (gone, [])
    else if Quiet(k, st, present) then (gone.(flickers := st.flickers + 1), [Flicker(at, false, Seconds(present))])
    else (gone.(announced := ALeaving), [Left(at, Seconds(present))])
  }

  function Update(k: Knobs, st: State, e: Event): (State, seq<Signal>) {
    match e.kind
    case Unmodelled => (st, [])
    case FoundFace => OnFound(k, Noted(st, e), e.at)
    case Scan(slot) =>
      var noted := Noted(st, e);
      (noted.(scans := noted.scans[slot := (e.value, e.at)]), [Scanned(e.at, slot, e.value)])
    case _ => OnLost(k, Noted(st, e), e.at)
  }

  method UpdatePresence(k: Knobs, state: State, e: Event) returns (st: State, signals: seq<Signal>)
    ensures (st, signals) == Update(k, state, e)
  {
    st, signals := state, [];
    if e.kind.Unmodelled? {
      return;
    }
    st := st.(history := LastN(st.history, HISTORY_MAX - 1));
    st := st.(history := st.history + [e], events := st.events + 1, updatedAt := Some(e.at));
    if e.kind.FoundFace? {
      var was := st.face;
      var away := Since(e.at, st.lastLost);
      st := st.(lastSeen := Some(e.at));
      if was == Some(true) {
      } else if away.Some? && away.value < k.flicker {
        st := st.(flickers := st.flickers + 1);
        signals := [Flicker(e.at, true, away.value)];
      } else {
        st := st.(facesSeen := st.facesSeen + 1, presentSince := Some(e.at), arrivalAway := away, announced := AnArrival);
        signals := [Arrived(e.at, away)];
      }
      st := st.(face := Some(true), absentSince := None);
    } else if Lost(e) {
      var was := st.face;
      var present := Since(e.at, st.presentSince);
      st := st.(lastLost := Some(e.at));
      if was != Some(true) {
      } else if st.announced.ALeaving? || (present.Some? && present.value < k.minPresent) {
        st := st.(flickers := st.flickers + 1);
        signals := [Flicker(e.at, false, Seconds(present))];
      } else {
        st := st.(announced := ALeaving);
        signals := [Left(e.at, Seconds(present))];
      }
      st := st.(face := Some(false), absentSince := Some(e.at));
    } else {
      st := st.(scans := st.scans[e.kind.slot := (e.value, e.at)]);
      signals := [Scanned(e.at, e.kind.slot, e.value)];
    }
  }

  // ----- runs --------------------------------------------------------------------------------

  function After(k: Knobs, events: seq<Event>): State {
    if events == [] then NEW_STATE else Update(k, After(k, events[..|events| - 1]), events[|events| - 1]).0
  }

  function Emitted(k: Knobs, e: Event, before: seq<Event>): seq<Signal> {
    Update(k, After(k, before), e).1
  }

  function Signals(k: Knobs, events: seq<Event>): seq<Signal> {
    if events == [] then []
    else Signals(k, events[..|events| - 1]) + Emitted(k, events[|events| - 1], events[..|events| - 1])
  }

  // ----- counting ------------------------------------------------------------------------------

  function Count(signals: seq<Signal>, p: Signal -> bool): nat {
    if signals == [] then 0
    else Count(signals[..|signals| - 1], p) + (if p(signals[|signals| - 1]) then 1 else 0)
  }

  function ModelledOf(events: seq<Event>): seq<Event> {
    if events == [] then []
    else ModelledOf(events[..|events| - 1]) + (if Modelled(events[|events| - 1]) then [events[|events| - 1]] else [])
  }

  predicate IsArrival(s: Signal) { s.Arrived? }
  predicate IsLeaving(s: Signal) { s.Left? }
  predicate IsFlicker(s: Signal) { s.Flicker? }

  lemma {:induction false} CountConcat(a: seq<Signal>, b: seq<Signal>, p: Signal -> bool)
    ensures Count(a + b, p) == Count(a, p) + Count(b, p)
    decreases |b|
  {
    if b == [] {
      assert a + b == a;
    } else {
      assert (a + b)[..|a + b| - 1] == a + b[..|b| - 1];
      CountConcat(a, b[..|b| - 1], p);
    }
  }

  /** One event adds to each counter what it signals. */
  lemma StepCounts(k: Knobs, st: State, e: Event)
    ensures var (st', out) := Update(k, st, e);
            && st'.facesSeen == st.facesSeen + Count(out, IsArrival)
            && st'.flickers == st.flickers + Count(out, IsFlicker)
            && st'.events == st.events + (if Modelled(e) then 1 else 0)
            && |out| <= 1
  {
    var (st', out) := Update(k, st, e);
    if out != [] {
      assert out == [out[0]];
    }
  }

  lemma StepHistory(k: Knobs, st: State, e: Event, past: seq<Event>)
    requires st.history == LastN(past, HISTORY_MAX)
    ensures Update(k, st, e).0.history == LastN(past + (if Modelled(e) then [e] else []), HISTORY_MAX)
  {
    assert past + [] == past;
  }

  /** The last 20 of all, or all of them. */
  predicate Recent(kept: seq<Event>, all: seq<Event>) {
    |kept| == (if |all| < 20 then |all| else 20) && kept == all[|all| - |kept|..]
  }

  /** The counters count the signals and the events, and the history is the last 20 events. */
  lemma CountersAgree(k: Knobs, events: seq<Event>)
    ensures var st, out := After(k, events), Signals(k, events);
            && st.facesSeen == Count(out, IsArrival)
            && st.flickers == Count(out, IsFlicker)
            && st.events == |ModelledOf(events)|
            && Recent(st.history, ModelledOf(events))
  {
    CountersFold(k, events);
  }

  lemma {:induction false} CountersFold(k: Knobs, events: seq<Event>)
    ensures var st, out := After(k, events), Signals(k, events);
            && st.facesSeen == Count(out, IsArrival)
            && st.flickers == Count(out, IsFlicker)
            && st.events == |ModelledOf(events)|
            && st.history == LastN(ModelledOf(events), HISTORY_MAX)
  {
    if events != [] {
      var front, e := events[..|events| - 1], events[|events| - 1];
      CountersFold(k, front);
      StepCounts(k, After(k, front), e);
      StepHistory(k, After(k, front), e, ModelledOf(front));
      CountConcat(Signals(k, front), Emitted(k, e, front), IsArrival);
      CountConcat(Signals(k, front), Emitted(k, e, front), IsFlicker);
    }
  }

  // ----- arrivals and departures ------------------------------------------------------------------

  /** The arrivals and departures among the signals. */
  function Turns(signals: seq<Signal>): seq<Signal> {
    if signals == [] then []
    else
      var last := signals[|signals| - 1];
      Turns(signals[..|signals| - 1]) + (if last.Arrived? || last.Left? then [last] else [])
  }

  lemma {:induction false} TurnsConcat(a: seq<Signal>, b: seq<Signal>)
    ensures Turns(a + b) == Turns(a) + Turns(b)
    decreases |b|
  {
    if b == [] {
      assert a + b == a;
    } else {
      assert (a + b)[..|a + b| - 1] == a + b[..|b| - 1];
      TurnsConcat(a, b[..|b| - 1]);
    }
  }

  function Told(turns: seq<Signal>): Announced {
    if turns == [] then Nothing else if turns[|turns| - 1].Arrived? then AnArrival else ALeaving
  }

  /** No departure follows a departure. */
  ghost predicate Alternates(turns: seq<Signal>) {
    && (forall i :: 0 <= i < |turns| ==> turns[i].Arrived? || turns[i].Left?)
    && (forall i :: 0 <= i < |turns| - 1 && turns[i].Left? ==> turns[i + 1].Arrived?)
  }

  /** Every departure ends a run that was long enough, save a first one whose run was never
      announced. */
  ghost predicate LongEnough(k: Knobs, turns: seq<Signal>) {
    forall i :: 1 <= i < |turns| && turns[i].Left? ==> turns[i].present >= k.minPresent
  }

  /** What the state remembers of the turns so far. */
  ghost predicate Remembers(k: Knobs, st: State, turns: seq<Signal>) {
    && st.announced == Told(turns) && Alternates(turns) && LongEnough(k, turns)
    && (st.announced.AnArrival? ==> st.presentSince.Some?)
    && (st.announced.Nothing? ==> st.presentSince.None?)
  }

  /** One more turn: after a departure only an arrival, and no departure but a first one ends a
      run that was too short. */
  lemma OneMoreTurn(k: Knobs, turns: seq<Signal>, turn: Signal)
    requires Alternates(turns) && LongEnough(k, turns) && (turn.Arrived? || turn.Left?)
    requires turn.Left? ==> !Told(turns).ALeaving? && (turns != [] ==> turn.present >= k.minPresent)
    ensures Alternates(turns + [turn]) && LongEnough(k, turns + [turn]) && Told(turns + [turn]) == if turn.Arrived? then AnArrival else ALeaving
  {
    var all := turns + [turn];
    assert all[|turns|] == turn && forall i :: 0 <= i < |turns| ==> all[i] == turns[i];
  }

  lemma StepRemembers(k: Knobs, st: State, e: Event, turns: seq<Signal>)
    requires Remembers(k, st, turns)
    ensures Remembers(k, Update(k, st, e).0, turns + Turns(Update(k, st, e).1))
  {
    var out := Update(k, st, e).1;
    StepCounts(k, st, e);
    FewTurns(out);
    if Turns(out) == [] {
      assert turns + Turns(out) == turns;
    } else {
      OneMoreTurn(k, turns, out[0]);
    }
  }

  lemma {:induction false} RunRemembers(k: Knobs, events: seq<Event>)
    ensures Remembers(k, After(k, events), Turns(Signals(k, events)))
  {
    if events != [] {
      var front, e := events[..|events| - 1], events[|events| - 1];
      RunRemembers(k, front);
      StepRemembers(k, After(k, front), e, Turns(Signals(k, front)));
      TurnsConcat(Signals(k, front), Emitted(k, e, front));
    }
  }

  // ----- how a run can start with a departure ---------------------------------------------------------

  /** The face events of a run so far, as far as its first turn depends on them: nothing yet,
      lost only (and when last), found within the flicker window of that loss, or settled. */
  datatype Opening = Unheard | LostOnly(at: real) | FoundTooSoon | FoundAtOnce

  function NextOpening(k: Knobs, o: Opening, e: Event): Opening {
    if Lost(e) then (if o.Unheard? || o.LostOnly? then LostOnly(e.at) else o)
    else if e.kind.FoundFace? then
      match o
      case Unheard => FoundAtOnce
      case LostOnly(at) => if Gap(e.at, at) < k.flicker then FoundTooSoon else FoundAtOnce
      case _ => o
    else o
  }

  /** The first face event is a loss, and the first found comes within the flicker window of
      the loss before it. */
  function OpeningOf(k: Knobs, events: seq<Event>): Opening {
    if events == [] then Unheard else NextOpening(k, OpeningOf(k, events[..|events| - 1]), events[|events| - 1])
  }

  ghost predicate Opened(st: State, o: Opening, turns: seq<Signal>) {
    match o
    case Unheard => st.face == None && st.lastLost == None && turns == []
    case LostOnly(at) => st.face == Some(false) && st.lastLost == Some(at) && turns == []
    case FoundTooSoon => if turns == [] then st.face == Some(true) else turns[0].Left?
    case FoundAtOnce => turns != [] && turns[0].Arrived?
  }

  lemma StepOpens(k: Knobs, st: State, e: Event, o: Opening, turns: seq<Signal>)
    requires Opened(st, o, turns) && Remembers(k, st, turns)
    ensures Opened(Update(k, st, e).0, NextOpening(k, o, e), turns + Turns(Update(k, st, e).1))
  {
    var out := Update(k, st, e).1;
    StepCounts(k, st, e);
    if Turns(out) == [] {
      assert turns + Turns(out) == turns;
    } else {
      assert turns == [] ==> turns + out == out;
    }
  }

  lemma SignalsSnoc(k: Knobs, front: seq<Event>, e: Event)
    ensures After(k, front + [e]) == Update(k, After(k, front), e).0
    ensures Turns(Signals(k, front + [e])) == Turns(Signals(k, front)) + Turns(Update(k, After(k, front), e).1)
    ensures OpeningOf(k, front + [e]) == NextOpening(k, OpeningOf(k, front), e)
  {
    assert (front + [e])[..|front|] == front;
    TurnsConcat(Signals(k, front), Emitted(k, e, front));
  }

  lemma {:induction false} RunOpens(k: Knobs, events: seq<Event>)
    ensures Opened(After(k, events), OpeningOf(k, events), Turns(Signals(k, events)))
  {
    if events != [] {
      var front, e := events[..|events| - 1], events[|events| - 1];
      assert front + [e] == events;
      RunOpens(k, front);
      RunRemembers(k, front);
      StepOpens(k, After(k, front), e, OpeningOf(k, front), Turns(Signals(k, front)));
      SignalsSnoc(k, front, e);
    }
  }

  lemma {:induction false} TurnsCount(signals: seq<Signal>)
    ensures Count(Turns(signals), IsArrival) == Count(signals, IsArrival)
    ensures Count(Turns(signals), IsLeaving) == Count(signals, IsLeaving)
  {
    if signals != [] {
      var front, last := signals[..|signals| - 1], signals[|signals| - 1];
      TurnsCount(front);
      CountConcat(Turns(front), [last], IsArrival);
      CountConcat(Turns(front), [last], IsLeaving);
      if !last.Arrived? && !last.Left? {
        assert Turns(signals) == Turns(front);
      }
    }
  }

  /** Departures without two in a row number at most the arrivals, plus one when the first
      turn is a departure. */
  lemma {:induction false} AlternatingCounts(turns: seq<Signal>)
    requires Alternates(turns)
    ensures var first := if turns != [] && turns[0].Left? then 1 else 0;
            Count(turns, IsLeaving) + (if turns != [] && turns[|turns| - 1].Arrived? then 1 else 0)
            <= Count(turns, IsArrival) + first
  {
    if turns != [] {
      var front, last := turns[..|turns| - 1], turns[|turns| - 1];
      assert Alternates(front);
      AlternatingCounts(front);
      if front != [] {
        assert front[|front| - 1] == turns[|turns| - 2];
      }
    }
  }

  /** Over every run of events, whatever the clock: departures never follow each other without
      an arrival in between, each but a first unannounced one ends a run of at least the
      minimum, and they outnumber the arrivals by at most one, which happens only when the
      run opens with a loss and its first found falls inside the flicker window; a run that
      opens so, and no other, announces a departure before any arrival. */
  lemma OneLeavingPerArrival(k: Knobs, events: seq<Event>)
    ensures var out := Signals(k, events);
            && Alternates(Turns(out)) && LongEnough(k, Turns(out))
            && Count(out, IsLeaving) <= Count(out, IsArrival) + 1
            && (Count(out, IsLeaving) == Count(out, IsArrival) + 1 ==> OpeningOf(k, events).FoundTooSoon?)
            && (Turns(out) != [] ==> (Turns(out)[0].Left? <==> OpeningOf(k, events).FoundTooSoon?))
  {
    var out := Signals(k, events);
    RunRemembers(k, events);
    RunOpens(k, events);
    TurnsCount(out);
    AlternatingCounts(Turns(out));
  }

  // ----- the signals from the history alone ---------------------------------------------------------

  /** Was the last face event a find? */
  predicate FaceThere(events: seq<Event>) {
    events != [] && (var e := events[|events| - 1];
                     if e.kind.FoundFace? then true else if Lost(e) then false else FaceThere(events[..|events| - 1]))
  }

  function LostAt(events: seq<Event>): Option<real> {
    if events == [] then None
    else if Lost(events[|events| - 1]) then Some(events[|events| - 1].at)
    else LostAt(events[..|events| - 1])
  }

  function ArrivedAt(turns: seq<Signal>): Option<real> {
    if turns == [] then None
    else if turns[|turns| - 1].Arrived? then Some(turns[|turns| - 1].at)
    else ArrivedAt(turns[..|turns| - 1])
  }

  /** The seconds from one moment to a later one; none if the clock has stepped back. */
  function Elapsed(from: Option<real>, to: real): Option<real> {
    if from.None? then None else Some(if to < from.value then 0.0 else to - from.value)
  }

  /** What an event should say, given only the events and the turns before it. A find of a
      face that is there says nothing; soon after a loss it is a flicker; else an arrival. A
      loss of a face that is not there says nothing; it is a flicker when the departure was
      told already or the time since the last arrival is too short; else a departure. */
  function Expected(k: Knobs, past: seq<Event>, turns: seq<Signal>, e: Event): seq<Signal> {
    var away, present := Elapsed(LostAt(past), e.at), Elapsed(ArrivedAt(turns), e.at);
    if e.kind.FoundFace? then
      if FaceThere(past) then []
      else if TooSoon(k, away) then [Flicker(e.at, true, away.value)]
      else [Arrived(e.at, away)]
    else if Lost(e) then
      if !FaceThere(past) then []
      else if Told(turns).ALeaving? || (present.Some? && present.value < k.minPresent) then [Flicker(e.at, false, Seconds(present))]
      else [Left(e.at, Seconds(present))]
    else if e.kind.Scan? then [Scanned(e.at, e.kind.slot, e.value)]
    else []
  }

  /** The last event with a property. */
  function LastOf(past: seq<Event>, p: Event -> bool): Option<Event> {
    if past == [] then None
    else if p(past[|past| - 1]) then Some(past[|past| - 1])
    else LastOf(past[..|past| - 1], p)
  }

  predicate Found(e: Event) { e.kind.FoundFace? }
  predicate Facing(e: Event) { e.kind.FoundFace? || Lost(e) }

  function Scans(slot: Slot): Event -> bool {
    (e: Event) => e.kind == Scan(slot)
  }

  function At(e: Option<Event>): Option<real> {
    if e.Some? then Some(e.value.at) else None
  }

  function LastAway(turns: seq<Signal>): Option<real> {
    if turns == [] then None
    else if turns[|turns| - 1].Arrived? then turns[|turns| - 1].away
    else LastAway(turns[..|turns| - 1])
  }

  /** Everything else a snapshot is built from: when a face was last seen, since when it is
      away, when anything last happened. */
  ghost predicate Dates(st: State, past: seq<Event>) {
    && st.lastSeen == At(LastOf(past, Found)) && st.updatedAt == At(LastOf(past, Modelled))
    && st.absentSince == (var f := LastOf(past, Facing); if f.Some? && Lost(f.value) then At(f) else None)
  }

  /** And the last scan of each slot. */
  ghost predicate Scanning(st: State, past: seq<Event>, slot: Slot) {
    var scan := LastOf(past, Scans(slot));
    (slot in st.scans <==> scan.Some?) && (scan.Some? ==> st.scans[slot] == (scan.value.value, scan.value.at))
  }

  lemma LastOfMore(past: seq<Event>, e: Event, p: Event -> bool)
    ensures LastOf(past + [e], p) == if p(e) then Some(e) else LastOf(past, p)
  {
    assert (past + [e])[..|past|] == past;
  }

  lemma LastAwayMore(turns: seq<Signal>, more: seq<Signal>)
    requires |more| <= 1 && forall i :: 0 <= i < |more| ==> more[i].Arrived? || more[i].Left?
    ensures LastAway(turns + more) == if more != [] && more[0].Arrived? then more[0].away else LastAway(turns)
  {
    if more == [] {
      assert turns + more == turns;
    } else {
      assert (turns + more)[..|turns|] == turns;
    }
  }

  lemma FewTurns(out: seq<Signal>)
    requires |out| <= 1
    ensures Turns(out) == if out != [] && (out[0].Arrived? || out[0].Left?) then out else []
  {
    if out != [] {
      assert out[..|out| - 1] == [] && out == [out[0]];
    }
  }

  lemma StepDates(k: Knobs, st: State, past: seq<Event>, e: Event)
    requires Dates(st, past)
    ensures Dates(Update(k, st, e).0, past + [e])
  {
    LastOfMore(past, e, Found);
    LastOfMore(past, e, Modelled);
    LastOfMore(past, e, Facing);
  }

  lemma StepAway(k: Knobs, st: State, turns: seq<Signal>, e: Event)
    requires st.arrivalAway == LastAway(turns)
    ensures Update(k, st, e).0.arrivalAway == LastAway(turns + Turns(Update(k, st, e).1))
  {
    StepCounts(k, st, e);
    FewTurns(Update(k, st, e).1);
    LastAwayMore(turns, Turns(Update(k, st, e).1));
  }

  lemma StepScans(k: Knobs, st: State, past: seq<Event>, e: Event, slot: Slot)
    requires Scanning(st, past, slot)
    ensures Scanning(Update(k, st, e).0, past + [e], slot)
  {
    LastOfMore(past, e, Scans(slot));
  }

  /** What the next event depends on. */
  ghost predicate Tells(st: State, past: seq<Event>, turns: seq<Signal>) {
    && (st.face == Some(true) <==> FaceThere(past)) && st.lastLost == LostAt(past)
    && st.presentSince == ArrivedAt(turns) && st.announced == Told(turns)
  }

  /** The state is a summary of the history; `arrivalAway` is how long a face had been away at
      the last arrival. */
  ghost predicate Summarises(st: State, past: seq<Event>, turns: seq<Signal>) {
    Tells(st, past, turns) && Dates(st, past) && st.arrivalAway == LastAway(turns) && forall slot :: Scanning(st, past, slot)
  }

  lemma StepTells(k: Knobs, st: State, past: seq<Event>, turns: seq<Signal>, e: Event)
    requires Tells(st, past, turns)
    ensures Update(k, st, e).1 == Expected(k, past, turns, e)
    ensures Tells(Update(k, st, e).0, past + [e], turns + Turns(Update(k, st, e).1))
  {
    var out := Update(k, st, e).1;
    StepCounts(k, st, e);
    assert (past + [e])[..|past|] == past;
    if Turns(out) == [] {
      assert turns + Turns(out) == turns;
    } else {
      assert (turns + out)[..|turns|] == turns;
    }
  }

  lemma StepSummarises(k: Knobs, st: State, past: seq<Event>, turns: seq<Signal>, e: Event)
    requires Summarises(st, past, turns)
    ensures Update(k, st, e).1 == Expected(k, past, turns, e)
    ensures Summarises(Update(k, st, e).0, past + [e], turns + Turns(Update(k, st, e).1))
  {
    StepTells(k, st, past, turns, e);
    StepDates(k, st, past, e);
    StepAway(k, st, turns, e);
    forall slot ensures Scanning(Update(k, st, e).0, past + [e], slot) {
      StepScans(k, st, past, e, slot);
    }
  }

  lemma {:induction false} RunSummarises(k: Knobs, events: seq<Event>)
    ensures Summarises(After(k, events), events, Turns(Signals(k, events)))
  {
    if events != [] {
      var front, e := events[..|events| - 1], events[|events| - 1];
      assert front + [e] == events;
      RunSummarises(k, front);
      StepSummarises(k, After(k, front), front, Turns(Signals(k, front)), e);
      SignalsSnoc(k, front, e);
    }
  }

  /** After any run of events the state is a summary of the history, every field of it, and the
      next event says exactly what the history calls for. */
  lemma SignalsFromHistory(k: Knobs, past: seq<Event>, e: Event)
    ensures Summarises(After(k, past), past, Turns(Signals(k, past)))
    ensures Emitted(k, e, past) == Expected(k, past, Turns(Signals(k, past)), e)
  {
    RunSummarises(k, past);
    StepSummarises(k, After(k, past), past, Turns(Signals(k, past)), e);
  }

  /** Such a run: the departure of somebody whose arrival was never announced. */
  lemma LeavingFirst(k: Knobs)
    requires k.flicker > 1.0
    ensures var events := [Event(LostFace, 0.0, ""), Event(FoundFace, 1.0, ""), Event(LostFace, 2.0, "")];
            Signals(k, events) == [Flicker(1.0, true, 1.0), Left(2.0, 0.0)]
  {
    var a, b, c := Event(LostFace, 0.0, ""), Event(FoundFace, 1.0, ""), Event(LostFace, 2.0, "");
    assert [a, b, c][..2] == [a, b] && [a, b][..1] == [a] && [a][..0] == [];
    assert Signals(k, []) == [] && Signals(k, [a]) == [];
    assert After(k, [a]).face == Some(false) && After(k, [a]).lastLost == Some(0.0);
    assert Signals(k, [a, b]) == [Flicker(1.0, true, 1.0)];
    assert Emitted(k, c, [a, b]) == [Left(2.0, 0.0)];
  }
}
