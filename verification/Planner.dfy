/** The behavior planner: a line is laid out in beats, checked against the catalog, then
    rendered once. */
module Planner {
  import opened Basics
  import opened Text
  import opened Segmenter
  import opened Wrappers
  import opened Speech
  import opened Vocab
  import opened Clauses

  const MAX_PLAN_CHARS := 2000
  const MAX_MOOD_MARKS := 2
  const MAX_BEATS := 96

  /** One run of words performed in one state. */
  datatype Beat = Beat(
    text: string, mood: Option<int>, strength: int, gesture: Option<Gesture>,
    tree: Option<string>, gaze: Option<string>, icon: Option<string>, sfx: Option<string>,
    spurt: Option<string>, usel: Option<string>, breakAfter: Option<real>)

  /** A refused value and the slot it was meant for. */
  datatype Drop =
    | DropId(slot: string, id: string)
    | DropGesture(gesture: Gesture)
    | DropMood(mood: int)
    | DropIntensity(intensity: int)
    | DropPause(seconds: real)

  datatype Performance = Performance(
    beats: seq<Beat>, act: Option<string>, emotion: Option<string>, signal: Option<string>,
    mood: Option<int>, strength: int, dropped: seq<Drop>)

  /** What the line decided before its beats are laid out: the act's profile and the hints. */
  datatype Stage = Stage(
    rules: Rules, mood: int, strength: int, hint: Option<Gesture>,
    actGesture: Option<Gesture>, noGesture: bool,
    tree: Option<string>, gaze: Option<string>, icon: Option<string>, sfx: Option<string>,
    chunkIndex: int)

  /** The counters that run along the line. */
  datatype Run = Run(perSentence: nat, emitted: nat, moods: nat, last: Option<int>, placed: bool) {
    predicate Room() {
      perSentence < MAX_GESTURES_PER_SENTENCE && emitted < MAX_GESTURES_PER_LINE
    }
    function Spend(): Run {
      this.(perSentence := perSentence + 1, emitted := emitted + 1)
    }
  }

  // ----- one clause -----------------------------------------------------------------------

  predicate SentenceHasTree(st: Stage, si: nat) {
    st.tree.Some? && si == 0
  }

  /** The word that would carry this clause's gesture, caps aside. */
  function Wanted(st: Stage, run: Run, words: seq<string>, si: nat, ci: nat): (r: Option<(nat, Gesture)>)
    requires words != []
    ensures r.Some? ==> r.value.0 < |words|
  {
    if st.noGesture || SentenceHasTree(st, si) then None
    else if st.hint.Some? && !run.placed then Some((0, st.hint.value))
    else if st.actGesture.Some? && !run.placed && si == 0 && ci == 0 then Some((0, st.actGesture.value))
    else ClauseGesture(st.rules, words, 0, |words|)
  }

  /** The carrying gesture, dropped when a cap is reached. */
  function Admitted(st: Stage, run: Run, words: seq<string>, si: nat, ci: nat): (r: Option<(nat, Gesture)>)
    requires words != []
    ensures r.Some? ==> r.value.0 < |words|
  {
    var w := Wanted(st, run, words, si, ci);
    if w.Some? && run.Room() then w else None
  }

  function AfterCarry(st: Stage, run: Run, words: seq<string>, si: nat, ci: nat): Run
    requires words != []
  {
    if Admitted(st, run, words, si, ci).Some? then run.Spend().(placed := true) else run
  }

  /** Stride positions from `pos` that the digest lets through. */
  function TalkHits(rules: Rules, si: nat, pos: nat, n: nat): (h: seq<nat>)
    ensures forall k :: 0 <= k < |h| ==> pos <= h[k] && h[k] + TALK_TAIL < n
    ensures forall j, k :: 0 <= j < k < |h| ==> h[j] + TALK_EVERY <= h[k]
    decreases n - pos
  {
    if pos + TALK_TAIL < n then
      var rest := TalkHits(rules, si, pos + TALK_EVERY, n);
      if rules.roll(si, pos) then [pos] + rest else rest
    else []
  }

  function TalkPositions(rules: Rules, words: seq<string>, anchor: nat, si: nat): seq<nat> {
    if |words| < TALK_MIN_WORDS then [] else TalkHits(rules, si, anchor + TALK_EVERY, |words|)
  }

  /** Where the clause is cut into beats: at 0 and at every talking position. */
  function Cuts(st: Stage, words: seq<string>, carry: Option<(nat, Gesture)>, si: nat): seq<nat> {
    [0] + (if st.noGesture || SentenceHasTree(st, si) then []
           else TalkPositions(st.rules, words, if carry.Some? then carry.value.0 else 0, si))
  }

  /** The face change this clause asks for, within the two-marks budget. */
  function MoodChange(st: Stage, run: Run, words: seq<string>): Option<int> {
    if st.chunkIndex == 0 && run.moods < MAX_MOOD_MARKS then
      if run.last == None then Some(st.mood)
      else
        var scored := st.rules.scoreMood(Join(words)).0;
        if scored != 0 && Some(scored) != run.last then Some(scored) else None
    else None
  }

  function AfterMood(st: Stage, run: Run, words: seq<string>): Run {
    var m := MoodChange(st, run, words);
    if m.Some? then run.(last := m, moods := run.moods + 1) else run
  }

  /** Where a clause stands in its line. */
  datatype Place = Place(si: nat, ci: nat, lastClause: bool, lastSentence: bool, genre: Option<string>)

  function PauseAfter(st: Stage, words: seq<string>, at: Place): Option<real> {
    if at.lastClause && !at.lastSentence then Some(BREAK_TIME)
    else if at.ci == 0 && !at.lastClause && LeadPause(st.rules, Join(words)) then Some(BREAK_TIME)
    else None
  }

  function StopOf(words: seq<string>, cuts: seq<nat>, k: nat): nat
    requires k < |cuts|
  {
    if k + 1 < |cuts| then cuts[k + 1] else |words|
  }

  function GestureAt(cuts: seq<nat>, k: nat, stop: nat, carry: Option<(nat, Gesture)>, run: Run): Option<Gesture>
    requires k < |cuts|
  {
    if carry.Some? && cuts[k] <= carry.value.0 < stop then Some(carry.value.1)
    else if k > 0 && run.Room() then Some(Talk)
    else None
  }

  function RunAfter(cuts: seq<nat>, k: nat, stop: nat, carry: Option<(nat, Gesture)>, run: Run): Run
    requires k < |cuts|
  {
    if carry.Some? && cuts[k] <= carry.value.0 < stop then run
    else if k > 0 && run.Room() then run.Spend()
    else run
  }

  /** Cuts that ascend strictly from 0 inside the clause. */
  predicate Ascending(cuts: seq<nat>, n: nat) {
    && |cuts| > 0 && cuts[0] == 0
    && (forall k :: 0 <= k < |cuts| ==> cuts[k] < n)
    && (forall k :: 0 <= k < |cuts| - 1 ==> cuts[k] < cuts[k + 1])
  }

  function MakeBeat(st: Stage, words: seq<string>, cuts: seq<nat>, k: nat, at: Place,
                    carry: Option<(nat, Gesture)>, mood: Option<int>, run: Run): Beat
    requires k < |cuts| && Ascending(cuts, |words|)
  {
    var stop := StopOf(words, cuts, k);
    var first, last := k == 0, k == |cuts| - 1;
    var opens := first && at.si == 0 && at.ci == 0;
    Beat(Join(words[cuts[k]..stop]),
         if first then mood else None,
         if first && mood.Some? then st.strength else 0,
         GestureAt(cuts, k, stop, carry, run),
         if opens then st.tree else None,
         if opens then st.gaze else None,
         if opens then st.icon else None,
         if opens then st.sfx else None,
         None,
         if at.lastClause && last then at.genre else None,
         if last then PauseAfter(st, words, at) else None)
  }

  function ClauseBeats(st: Stage, words: seq<string>, cuts: seq<nat>, k: nat, at: Place,
                       carry: Option<(nat, Gesture)>, mood: Option<int>, run: Run): (seq<Beat>, Run)
    requires k <= |cuts| && Ascending(cuts, |words|)
    decreases |cuts| - k
  {
    if k == |cuts| then ([], run)
    else
      var beat := MakeBeat(st, words, cuts, k, at, carry, mood, run);
      var rest := ClauseBeats(st, words, cuts, k + 1, at, carry, mood,
                              RunAfter(cuts, k, StopOf(words, cuts, k), carry, run));
      ([beat] + rest.0, rest.1)
  }

  /** All beats of one clause, uncapped, and the counters after it. */
  function LayClause(st: Stage, words: seq<string>, at: Place, run: Run): (seq<Beat>, Run)
    requires words != []
  {
    var carry := Admitted(st, run, words, at.si, at.ci);
    var run' := AfterCarry(st, run, words, at.si, at.ci);
    ClauseBeats(st, words, Cuts(st, words, carry, at.si), 0, at, carry,
                MoodChange(st, run', words), AfterMood(st, run', words))
  }

  // ----- sentences and lines ----------------------------------------------------------------

  ghost predicate NonEmptyRuns(runs: seq<seq<string>>) {
    forall k :: 0 <= k < |runs| ==> runs[k] != []
  }

  function PlaceOf(runs: seq<seq<string>>, ci: nat, si: nat, lastSentence: bool, genre: Option<string>): Place {
    Place(si, ci, ci + 1 == |runs|, lastSentence, genre)
  }

  function LayRuns(st: Stage, runs: seq<seq<string>>, ci: nat, si: nat, lastSentence: bool,
                   genre: Option<string>, run: Run): (seq<Beat>, Run)
    requires ci <= |runs| && NonEmptyRuns(runs)
    decreases |runs| - ci
  {
    if ci == |runs| then ([], run)
    else
      var one := LayClause(st, runs[ci], PlaceOf(runs, ci, si, lastSentence, genre), run);
      var rest := LayRuns(st, runs, ci + 1, si, lastSentence, genre, one.1);
      (one.0 + rest.0, rest.1)
  }

  function LaySentence(st: Stage, sentences: seq<string>, si: nat, run: Run): (seq<Beat>, Run)
    requires si < |sentences|
  {
    ClauseRunsKeepWords(sentences[si]);
    LayRuns(st, ClauseRuns(sentences[si]), 0, si, si + 1 == |sentences|, Genre(sentences[si]),
            run.(perSentence := 0))
  }

  /** The full layout of a line: every beat, no cap. */
  function Layout(st: Stage, sentences: seq<string>, si: nat, run: Run): seq<Beat>
    requires si <= |sentences|
    decreases |sentences| - si
  {
    if si == |sentences| then []
    else
      var one := LaySentence(st, sentences, si, run);
      one.0 + Layout(st, sentences, si + 1, one.1)
  }

  const START := Run(0, 0, 0, None, false)

  function Capped(beats: seq<Beat>): seq<Beat> {
    if |beats| <= MAX_BEATS then beats else beats[..MAX_BEATS]
  }

  predicate Plannable(text: string) {
    !Blank(text) && NoAngle(text) && |text| <= MAX_PLAN_CHARS
  }

  /** `plan`: `None` lets the floor answer. */
  function Plan(u: Alphabet, st: Stage, act: Option<string>, emotion: Option<string>,
                signal: Option<string>, text: string): Option<Performance> {
    if !Plannable(text) then None
    else
      var beats := Capped(Layout(st, Segment(u, 0, text), 0, START));
      if beats == [] then None
      else Some(Performance(beats, act, emotion, signal, Some(st.mood), st.strength, []))
  }

  // ----- the same, step by step, with the cap inside the loops --------------------------------

  /** `beats` grown by `more` until the cap stops the line. */
  ghost predicate Grown(before: seq<Beat>, more: seq<Beat>, after: seq<Beat>, full: bool) {
    if full then |before + more| >= MAX_BEATS && after == (before + more)[..MAX_BEATS]
    else after == before + more && |after| < MAX_BEATS
  }

  /** One beat per cut, until the cap. */
  method AddBeats(st: Stage, words: seq<string>, cuts: seq<nat>, at: Place, carry: Option<(nat, Gesture)>,
                  mood: Option<int>, run0: Run, before: seq<Beat>)
    returns (beats: seq<Beat>, run: Run, full: bool)
    requires Ascending(cuts, |words|) && |before| < MAX_BEATS
    ensures Grown(before, ClauseBeats(st, words, cuts, 0, at, carry, mood, run0).0, beats, full)
    ensures !full ==> run == ClauseBeats(st, words, cuts, 0, at, carry, mood, run0).1
  {
    ghost var all := ClauseBeats(st, words, cuts, 0, at, carry, mood, run0);
    beats, run := before, run0;
    for k := 0 to |cuts|
      invariant beats + ClauseBeats(st, words, cuts, k, at, carry, mood, run).0 == before + all.0
      invariant ClauseBeats(st, words, cuts, k, at, carry, mood, run).1 == all.1
      invariant |beats| < MAX_BEATS
    {
      var beat := MakeBeat(st, words, cuts, k, at, carry, mood, run);
      run := RunAfter(cuts, k, StopOf(words, cuts, k), carry, run);
      Assoc(beats, [beat], ClauseBeats(st, words, cuts, k + 1, at, carry, mood, run).0);
      beats := beats + [beat];
      if |beats| >= MAX_BEATS {
        return beats, run, true;
      }
    }
    assert beats + [] == beats;
    full := false;
  }

  method AddClause(st: Stage, words: seq<string>, at: Place, run0: Run, before: seq<Beat>)
    returns (beats: seq<Beat>, run: Run, full: bool)
    requires words != [] && |before| < MAX_BEATS
    ensures Grown(before, LayClause(st, words, at, run0).0, beats, full)
    ensures !full ==> run == LayClause(st, words, at, run0).1
  {
    var carry := Admitted(st, run0, words, at.si, at.ci);
    run := AfterCarry(st, run0, words, at.si, at.ci);
    var mood := MoodChange(st, run, words);
    beats, run, full := AddBeats(st, words, Cuts(st, words, carry, at.si), at, carry, mood, AfterMood(st, run, words), before);
  }

  method AddSentence(st: Stage, sentences: seq<string>, si: nat, run0: Run, before: seq<Beat>)
    returns (beats: seq<Beat>, run: Run, full: bool)
    requires si < |sentences| && |before| < MAX_BEATS
    ensures Grown(before, LaySentence(st, sentences, si, run0).0, beats, full)
    ensures !full ==> run == LaySentence(st, sentences, si, run0).1
  {
    ClauseRunsKeepWords(sentences[si]);
    var runs := ClauseRuns(sentences[si]);
    var last, genre := si + 1 == |sentences|, Genre(sentences[si]);
    run := run0.(perSentence := 0);
    ghost var all := LaySentence(st, sentences, si, run0);
    beats := before;
    for ci := 0 to |runs|
      invariant beats + LayRuns(st, runs, ci, si, last, genre, run).0 == before + all.0
      invariant LayRuns(st, runs, ci, si, last, genre, run).1 == all.1
      invariant |beats| < MAX_BEATS
    {
      ghost var one := LayClause(st, runs[ci], PlaceOf(runs, ci, si, last, genre), run);
      ghost var rest := LayRuns(st, runs, ci + 1, si, last, genre, one.1);
      Assoc(beats, one.0, rest.0);
      ghost var was := beats;
      beats, run, full := AddClause(st, runs[ci], PlaceOf(runs, ci, si, last, genre), run, beats);
      if full {
        return beats, run, true;
      }
    }
    assert beats + [] == beats;
    full := false;
  }

  method LayBeats(st: Stage, sentences: seq<string>) returns (beats: seq<Beat>)
    ensures beats == Capped(Layout(st, sentences, 0, START))
  {
    var run := START;
    ghost var all := Layout(st, sentences, 0, START);
    beats := [];
    assert [] + all == all;
    for si := 0 to |sentences|
      invariant beats + Layout(st, sentences, si, run) == all
      invariant |beats| < MAX_BEATS
    {
      ghost var one := LaySentence(st, sentences, si, run);
      Assoc(beats, one.0, Layout(st, sentences, si + 1, one.1));
      ghost var was := beats;
      var full;
      beats, run, full := AddSentence(st, sentences, si, run, beats);
      if full {
        assert |all| == MAX_BEATS ==> all[..MAX_BEATS] == all;
        return;
      }
    }
    assert beats + [] == beats;
  }

  method MakePlan(u: Alphabet, st: Stage, act: Option<string>, emotion: Option<string>,
                  signal: Option<string>, text: string) returns (p: Option<Performance>)
    ensures p == Plan(u, st, act, emotion, signal, text)
  {
    if !Plannable(text) {
      return None;
    }
    var sentences := SegmentText(u, text, 0);
    var beats := LayBeats(st, sentences);
    if beats == [] {
      return None;
    }
    p := Some(Performance(beats, act, emotion, signal, Some(st.mood), st.strength, []));
  }
}
