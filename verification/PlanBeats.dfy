/** What every beat of a planned line shows, stated of the beats themselves: where each one is
    cut, and its gesture, face, pause, delivery and extras, given only the beats before it. */
module PlanBeats {
  import opened Basics
  import opened Text
  import opened Segmenter
  import opened Wrappers
  import opened Speech
  import opened Vocab
  import opened Clauses
  import opened ClauseTheorems
  import opened Planner
  import Floor
  import PlannerTheorems
  import Limits = PlannerLimits

  // ----- beats and where they stand ------------------------------------------------------------

  /** Words `from..to` of clause `ci` of sentence `si`; `anchor` is the word of the clause that
      carries its gesture, or 0. */
  datatype Spot = Spot(si: nat, ci: nat, from: nat, to: nat, anchor: nat)

  datatype Laid = Laid(spot: Spot, beat: Beat)

  function BeatsOf(trace: seq<Laid>): (r: seq<Beat>)
    ensures |r| == |trace| && forall k :: 0 <= k < |r| ==> r[k] == trace[k].beat
  {
    seq(|trace|, k requires 0 <= k < |trace| => trace[k].beat)
  }

  function ClauseAt(sentences: seq<string>, si: nat, ci: nat): seq<string> {
    if si < |sentences| && ci < |ClauseRuns(sentences[si])| then ClauseRuns(sentences[si])[ci] else []
  }

  // ----- what the beats so far have shown ---------------------------------------------------------

  function Shown(trace: seq<Laid>): nat {
    if trace == [] then 0
    else Shown(trace[..|trace| - 1]) + (if trace[|trace| - 1].beat.gesture.Some? then 1 else 0)
  }

  function ShownIn(trace: seq<Laid>, si: nat): nat {
    if trace == [] then 0
    else
      var last := trace[|trace| - 1];
      ShownIn(trace[..|trace| - 1], si) + (if last.spot.si == si && last.beat.gesture.Some? then 1 else 0)
  }

  function Faces(trace: seq<Laid>): seq<int> {
    if trace == [] then []
    else
      var last := trace[|trace| - 1];
      Faces(trace[..|trace| - 1]) + (if last.beat.mood.Some? then [last.beat.mood.value] else [])
  }

  /** Some clause has carried its gesture: one stands on its first beat. */
  predicate AnyCarried(trace: seq<Laid>) {
    trace != []
    && (AnyCarried(trace[..|trace| - 1])
        || (trace[|trace| - 1].spot.from == 0 && trace[|trace| - 1].beat.gesture.Some?))
  }

  predicate RoomLeft(trace: seq<Laid>, si: nat) {
    ShownIn(trace, si) < MAX_GESTURES_PER_SENTENCE && Shown(trace) < MAX_GESTURES_PER_LINE
  }

  // ----- what the next beat is -------------------------------------------------------------------------

  /** Arms may move: not in an act that keeps them still, nor under a whole-body tree. */
  predicate ArmsFree(st: Stage, si: nat) {
    !st.noGesture && !(st.tree.Some? && si == 0)
  }

  /** A whole number of strides from `start`. */
  predicate OnStride(start: nat, p: nat)
    decreases p - start
  {
    p == start || (start + TALK_EVERY <= p && OnStride(start + TALK_EVERY, p))
  }

  /** A talking beat starts at word `p`: in a long enough clause, clear of its end, a whole
      number of strides behind the carrying word, where the digest lets it through. */
  predicate TalksAt(st: Stage, words: seq<string>, si: nat, anchor: nat, p: nat) {
    && ArmsFree(st, si) && |words| >= TALK_MIN_WORDS && p + TALK_TAIL < |words|
    && anchor < p && OnStride(anchor, p) && st.rules.roll(si, p)
  }

  /** One beat right behind another. */
  predicate Next(sentences: seq<string>, a: Spot, b: Spot) {
    if a.to < |ClauseAt(sentences, a.si, a.ci)|
    then b.si == a.si && b.ci == a.ci && b.from == a.to && b.anchor == a.anchor
    else if a.si < |sentences| && a.ci + 1 < |ClauseRuns(sentences[a.si])|
    then b.si == a.si && b.ci == a.ci + 1 && b.from == 0
    else b.si == a.si + 1 && b.ci == 0 && b.from == 0
  }

  /** A clause is cut where its talking beats start and nowhere else, and its beats speak its
      words, in order. */
  ghost predicate RightPlace(st: Stage, sentences: seq<string>, before: seq<Laid>, l: Laid) {
    var s := l.spot;
    var words := ClauseAt(sentences, s.si, s.ci);
    && s.from < s.to <= |words| && l.beat.text == Join(words[s.from..s.to])
    && (s.from > 0 ==> TalksAt(st, words, s.si, s.anchor, s.from)) && (s.to < |words| ==> TalksAt(st, words, s.si, s.anchor, s.to))
    && (forall p :: s.from < p < s.to ==> !TalksAt(st, words, s.si, s.anchor, p))
    && if before == [] then s.si == 0 && s.ci == 0 && s.from == 0 else Next(sentences, before[|before| - 1].spot, s)
  }

  /** Word `k` of a clause is to carry `g`: the hint until some clause has carried a gesture;
      then, in the first clause, the act's; then what the clause cues. */
  ghost predicate Carries(st: Stage, before: seq<Laid>, si: nat, ci: nat, words: seq<string>, k: nat, g: Gesture) {
    if st.hint.Some? && !AnyCarried(before) then k == 0 && st.hint == Some(g)
    else if st.actGesture.Some? && !AnyCarried(before) && si == 0 && ci == 0 then k == 0 && st.actGesture == Some(g)
    else Cues(st.rules, words, 0, |words|, k, g)
  }

  /** The first beat of a clause shows what the clause carries, if arms are free and there is
      room; a later one shows the talking gesture while there is. */
  ghost predicate RightGesture(st: Stage, sentences: seq<string>, before: seq<Laid>, l: Laid) {
    var s := l.spot;
    if s.from > 0 then l.beat.gesture == if RoomLeft(before, s.si) then Some(Talk) else None
    else
      && (forall k: nat, g :: l.beat.gesture == Some(g) && s.anchor == k
            <==> && ArmsFree(st, s.si) && RoomLeft(before, s.si)
                 && Carries(st, before, s.si, s.ci, ClauseAt(sentences, s.si, s.ci), k, g))
      && (l.beat.gesture == None ==> s.anchor == 0) && s.anchor < s.to
  }

  /** The face changes on the first beat of a clause only, on the first chunk, at most twice: to
      the line's mood first, then to a mood the clause itself scores, if it is another one. */
  predicate RightFace(st: Stage, sentences: seq<string>, before: seq<Laid>, l: Laid) {
    var faces := Faces(before);
    var scored := st.rules.scoreMood(Join(ClauseAt(sentences, l.spot.si, l.spot.ci))).0;
    && l.beat.mood == (if l.spot.from > 0 || st.chunkIndex != 0 || |faces| >= 2 then None
                       else if faces == [] then Some(st.mood)
                       else if scored != 0 && scored != faces[|faces| - 1] then Some(scored) else None)
    && l.beat.strength == (if l.beat.mood.Some? then st.strength else 0)
  }

  /** Tree, gaze, icon and sound open the line; the delivery is the sentence's, on its last beat;
      a pause follows a sentence that is not the last, and a leading interjection. */
  ghost predicate RightExtras(st: Stage, sentences: seq<string>, l: Laid) {
    var s, b := l.spot, l.beat;
    var words := ClauseAt(sentences, s.si, s.ci);
    s.si < |sentences|
    && var opens, ends, n := s.si == 0 && s.ci == 0 && s.from == 0, s.to == |words|, |ClauseRuns(sentences[s.si])|;
    && b.tree == (if opens then st.tree else None) && b.gaze == (if opens then st.gaze else None)
    && b.icon == (if opens then st.icon else None) && b.sfx == (if opens then st.sfx else None) && b.spurt == None
    && (b.usel == Some("question") <==> ends && s.ci + 1 == n && EndsIn(sentences[s.si], '?'))
    && (b.usel == Some("excited") <==> ends && s.ci + 1 == n && EndsIn(sentences[s.si], '!'))
    && (b.usel.Some? ==> b.usel.value == "question" || b.usel.value == "excited")
    && b.breakAfter == if ends && ((s.ci + 1 == n && s.si + 1 < |sentences|)
                                   || (s.ci == 0 && 1 < n && EndsWithComma(words) && st.rules.interjection(Join(words))))
                       then Some(0.35) else None
  }

  predicate EndsWithComma(words: seq<string>) {
    words != [] && words[|words| - 1] != "" && words[|words| - 1][|words[|words| - 1]| - 1] == ','
  }

  type Rule = (seq<Laid>, Laid) -> bool

  ghost function BeatRule(st: Stage, sentences: seq<string>): Rule {
    (before: seq<Laid>, l: Laid) =>
      && RightPlace(st, sentences, before, l) && RightGesture(st, sentences, before, l)
      && RightFace(st, sentences, before, l) && RightExtras(st, sentences, l)
  }

  /** Every beat is what the rule makes it, given those before it. */
  ghost predicate Obeys(rule: Rule, trace: seq<Laid>) {
    trace == [] || (Obeys(rule, trace[..|trace| - 1]) && rule(trace[..|trace| - 1], trace[|trace| - 1]))
  }

  // ----- the planner's counters are what the beats have shown --------------------------------------------

  ghost predicate Tracks(run: Run, trace: seq<Laid>, si: nat) {
    && run.emitted == Shown(trace) && run.perSentence == ShownIn(trace, si)
    && run.moods == |Faces(trace)| && run.last == (if Faces(trace) == [] then None else Some(Faces(trace)[|Faces(trace)| - 1]))
    && (run.placed <==> AnyCarried(trace))
  }

  lemma ShownMore(trace: seq<Laid>, l: Laid, si: nat)
    ensures Shown(trace + [l]) == Shown(trace) + (if l.beat.gesture.Some? then 1 else 0)
    ensures ShownIn(trace + [l], si) == ShownIn(trace, si) + (if l.spot.si == si && l.beat.gesture.Some? then 1 else 0)
    ensures Faces(trace + [l]) == Faces(trace) + (if l.beat.mood.Some? then [l.beat.mood.value] else [])
    ensures AnyCarried(trace + [l]) <==> AnyCarried(trace) || (l.spot.from == 0 && l.beat.gesture.Some?)
  {
    assert (trace + [l])[..|trace|] == trace;
  }

  lemma ObeysMore(rule: Rule, trace: seq<Laid>, l: Laid)
    requires Obeys(rule, trace) && rule(trace, l)
    ensures Obeys(rule, trace + [l])
  {
    assert (trace + [l])[..|trace|] == trace;
  }

  // ----- where a clause is cut --------------------------------------------------------------------------------

  lemma {:induction false} TalkHitsAre(rules: Rules, si: nat, pos: nat, n: nat, p: nat)
    ensures p in TalkHits(rules, si, pos, n)
            <==> OnStride(pos, p) && p + TALK_TAIL < n && rules.roll(si, p)
    decreases n - pos
  {
    if pos + TALK_TAIL < n {
      TalkHitsAre(rules, si, pos + TALK_EVERY, n, p);
    }
    if OnStride(pos, p) {
      OnStrideIsBehind(pos, p);
    }
  }

  lemma {:induction false} OnStrideIsBehind(start: nat, p: nat)
    requires OnStride(start, p)
    ensures start <= p
    decreases p - start
  {
  }

  function AnchorOf(carry: Option<(nat, Gesture)>): nat {
    if carry.Some? then carry.value.0 else 0
  }

  /** Behind word 0 the cuts are the starts of the talking beats. */
  lemma CutsAre(st: Stage, words: seq<string>, carry: Option<(nat, Gesture)>, si: nat, p: nat)
    requires p > 0
    ensures p in Cuts(st, words, carry, si) <==> TalksAt(st, words, si, AnchorOf(carry), p)
  {
    var anchor := AnchorOf(carry);
    CutsUnfold(st, words, carry, si);
    TalkHitsAre(st.rules, si, anchor + TALK_EVERY, |words|, p);
    BehindZero(HitsOf(st, words, anchor, si), p);
  }

  function HitsOf(st: Stage, words: seq<string>, anchor: nat, si: nat): seq<nat> {
    if ArmsFree(st, si) && |words| >= TALK_MIN_WORDS then TalkHits(st.rules, si, anchor + TALK_EVERY, |words|) else []
  }

  lemma CutsUnfold(st: Stage, words: seq<string>, carry: Option<(nat, Gesture)>, si: nat)
    ensures Cuts(st, words, carry, si) == [0] + HitsOf(st, words, AnchorOf(carry), si)
  {
  }

  lemma BehindZero(hits: seq<nat>, p: nat)
    requires p > 0
    ensures p in [0] + hits <==> p in hits
  {
  }

  lemma CutsAscend(st: Stage, words: seq<string>, carry: Option<(nat, Gesture)>, si: nat)
    requires words != []
    ensures var cuts := Cuts(st, words, carry, si);
            Ascending(cuts, |words|) && forall i, j :: 0 <= i < j < |cuts| ==> cuts[i] < cuts[j]
    ensures var cuts := Cuts(st, words, carry, si); forall j :: 0 < j < |cuts| ==> AnchorOf(carry) < cuts[j]
  {
  }

  /** Beat `k` of a clause stands between two cuts with none in between. */
  lemma BetweenCuts(st: Stage, words: seq<string>, carry: Option<(nat, Gesture)>, si: nat, k: nat, p: nat)
    requires words != [] && k < |Cuts(st, words, carry, si)|
    ensures var cuts := Cuts(st, words, carry, si); cuts[k] < p < StopOf(words, cuts, k) ==> p !in cuts
  {
    CutsAscend(st, words, carry, si);
    var cuts := Cuts(st, words, carry, si);
    forall j | 0 <= j < |cuts| ensures cuts[j] <= cuts[k] || StopOf(words, cuts, k) <= cuts[j] {
      assert j < k ==> cuts[j] < cuts[k];
      assert k + 1 < j ==> cuts[k + 1] < cuts[j];
    }
  }

  // ----- one beat ------------------------------------------------------------------------------------------------

  /** Where the next clause starts, given the beats so far. */
  ghost predicate AtClause(sentences: seq<string>, trace: seq<Laid>, si: nat, ci: nat) {
    if trace == [] then si == 0 && ci == 0
    else
      var s := trace[|trace| - 1].spot;
      && s.si < |sentences| && s.to == |ClauseAt(sentences, s.si, s.ci)|
      && if s.ci + 1 < |ClauseRuns(sentences[s.si])| then s.si == si && s.ci + 1 == ci else s.si + 1 == si && ci == 0
  }

  /** The clause being laid. */
  datatype Job = Job(si: nat, ci: nat, carry: Option<(nat, Gesture)>, mood: Option<int>)

  ghost predicate IsJob(sentences: seq<string>, j: Job, words: seq<string>, at: Place) {
    && j.si < |sentences| && j.ci < |ClauseRuns(sentences[j.si])| && words == ClauseRuns(sentences[j.si])[j.ci] && words != []
    && at == PlaceOf(ClauseRuns(sentences[j.si]), j.ci, j.si, j.si + 1 == |sentences|, Genre(sentences[j.si]))
  }

  function LaidBeat(st: Stage, words: seq<string>, j: Job, at: Place, k: nat, run: Run): Laid
    requires words != [] && k < |Cuts(st, words, j.carry, j.si)|
  {
    CutsAscend(st, words, j.carry, j.si);
    var cuts := Cuts(st, words, j.carry, j.si);
    Laid(Spot(j.si, j.ci, cuts[k], StopOf(words, cuts, k), AnchorOf(j.carry)),
         MakeBeat(st, words, cuts, k, at, j.carry, j.mood, run))
  }

  /** The beats so far end where beat `k` of the clause begins. */
  ghost predicate AtBeat(st: Stage, sentences: seq<string>, words: seq<string>, j: Job, trace: seq<Laid>, k: nat)
    requires words != [] && k < |Cuts(st, words, j.carry, j.si)|
  {
    if k == 0 then AtClause(sentences, trace, j.si, j.ci)
    else
      && trace != []
      && var s := trace[|trace| - 1].spot;
         s.si == j.si && s.ci == j.ci && s.to == Cuts(st, words, j.carry, j.si)[k] && s.anchor == AnchorOf(j.carry)
  }

  lemma PlaceIsRight(st: Stage, sentences: seq<string>, words: seq<string>, j: Job, at: Place, trace: seq<Laid>, k: nat, run: Run)
    requires IsJob(sentences, j, words, at) && k < |Cuts(st, words, j.carry, j.si)|
    requires AtBeat(st, sentences, words, j, trace, k)
    ensures RightPlace(st, sentences, trace, LaidBeat(st, words, j, at, k, run))
  {
    var cuts := Cuts(st, words, j.carry, j.si);
    CutsAscend(st, words, j.carry, j.si);
    if k > 0 {
      CutsAre(st, words, j.carry, j.si, cuts[k]);
    }
    CutsAre(st, words, j.carry, j.si, StopOf(words, cuts, k));
    forall p: int | cuts[k] < p < StopOf(words, cuts, k) ensures !TalksAt(st, words, j.si, AnchorOf(j.carry), p) {
      CutsAre(st, words, j.carry, j.si, p);
      BetweenCuts(st, words, j.carry, j.si, k, p);
    }
  }

  lemma PauseIsRight(st: Stage, words: seq<string>, at: Place)
    requires words != [] && AllWords(words)
    ensures PauseAfter(st, words, at)
         == if (at.lastClause && !at.lastSentence)
               || (at.ci == 0 && !at.lastClause && EndsWithComma(words) && st.rules.interjection(Join(words)))
            then Some(0.35) else None
  {
    LeadPauseIs(st.rules, words);
  }

  lemma LastBeat(st: Stage, words: seq<string>, carry: Option<(nat, Gesture)>, si: nat, k: nat)
    requires words != [] && k < |Cuts(st, words, carry, si)|
    ensures var cuts := Cuts(st, words, carry, si); StopOf(words, cuts, k) == |words| <==> k == |cuts| - 1
    ensures Cuts(st, words, carry, si)[k] == 0 <==> k == 0
  {
    CutsAscend(st, words, carry, si);
  }

  lemma ExtrasAreRight(st: Stage, sentences: seq<string>, words: seq<string>, j: Job, at: Place, k: nat, run: Run)
    requires IsJob(sentences, j, words, at) && AllWords(words) && k < |Cuts(st, words, j.carry, j.si)|
    ensures RightExtras(st, sentences, LaidBeat(st, words, j, at, k, run))
  {
    GenreIs(sentences[j.si]);
    PauseIsRight(st, words, at);
    LastBeat(st, words, j.carry, j.si, k);
    CutsAscend(st, words, j.carry, j.si);
    ExtrasOf(st, sentences, words, j, at, Cuts(st, words, j.carry, j.si), k, run);
  }

  lemma ExtrasOf(st: Stage, sentences: seq<string>, words: seq<string>, j: Job, at: Place, cuts: seq<nat>, k: nat, run: Run)
    requires IsJob(sentences, j, words, at) && k < |cuts| && Ascending(cuts, |words|)
    requires (StopOf(words, cuts, k) == |words| <==> k == |cuts| - 1) && (cuts[k] == 0 <==> k == 0)
    requires Genre(sentences[j.si]) == Some("question") <==> EndsIn(sentences[j.si], '?')
    requires Genre(sentences[j.si]) == Some("excited") <==> EndsIn(sentences[j.si], '!')
    requires Genre(sentences[j.si]).None? <==> !EndsIn(sentences[j.si], '?') && !EndsIn(sentences[j.si], '!')
    requires PauseAfter(st, words, at)
          == if (at.lastClause && !at.lastSentence)
                || (at.ci == 0 && !at.lastClause && EndsWithComma(words) && st.rules.interjection(Join(words)))
             then Some(0.35) else None
    ensures RightExtras(st, sentences, Laid(Spot(j.si, j.ci, cuts[k], StopOf(words, cuts, k), AnchorOf(j.carry)),
                                            MakeBeat(st, words, cuts, k, at, j.carry, j.mood, run)))
  {
  }

  // ----- gestures and faces --------------------------------------------------------------------------------------

  /** The planner's choice of a carrying word is the rule's. */
  lemma AdmittedIs(st: Stage, run: Run, words: seq<string>, si: nat, ci: nat, before: seq<Laid>, k: nat, g: Gesture)
    requires words != [] && Tracks(run, before, si)
    ensures Admitted(st, run, words, si, ci) == Some((k, g))
            <==> ArmsFree(st, si) && RoomLeft(before, si) && Carries(st, before, si, ci, words, k, g)
  {
    ClauseGestureIs(st.rules, words, 0, |words|, k, g);
  }

  /** What the clause decides before its beats are laid. */
  ghost predicate Decided(st: Stage, words: seq<string>, j: Job, run: Run, after: Run)
    requires words != []
  {
    && j.carry == Admitted(st, run, words, j.si, j.ci)
    && j.mood == MoodChange(st, AfterCarry(st, run, words, j.si, j.ci), words)
    && after == AfterMood(st, AfterCarry(st, run, words, j.si, j.ci), words)
  }

  lemma FirstShows(st: Stage, words: seq<string>, j: Job, at: Place, run: Run)
    requires words != [] && (j.carry.Some? ==> j.carry.value.0 < |words|)
    ensures var l := LaidBeat(st, words, j, at, 0, run);
            && l.spot.from == 0 && l.beat.gesture == (if j.carry.Some? then Some(j.carry.value.1) else None)
            && l.spot.anchor < l.spot.to && l.beat.mood == j.mood && l.beat.strength == (if j.mood.Some? then st.strength else 0)
    ensures RunAfter(Cuts(st, words, j.carry, j.si), 0, StopOf(words, Cuts(st, words, j.carry, j.si), 0), j.carry, run) == run
  {
    CutsAscend(st, words, j.carry, j.si);
  }

  lemma LaterShows(st: Stage, words: seq<string>, j: Job, at: Place, k: nat, run: Run)
    requires words != [] && 0 < k < |Cuts(st, words, j.carry, j.si)|
    ensures var l := LaidBeat(st, words, j, at, k, run);
            && l.spot.from > 0 && l.beat.gesture == (if run.Room() then Some(Talk) else None)
            && l.beat.mood == None && l.beat.strength == 0
    ensures var cuts := Cuts(st, words, j.carry, j.si);
            RunAfter(cuts, k, StopOf(words, cuts, k), j.carry, run) == if run.Room() then run.Spend() else run
  {
    CutsAscend(st, words, j.carry, j.si);
  }

  lemma FirstGesture(st: Stage, sentences: seq<string>, words: seq<string>, j: Job, at: Place, trace: seq<Laid>, run: Run, after: Run)
    requires IsJob(sentences, j, words, at) && Tracks(run, trace, j.si) && Decided(st, words, j, run, after)
    ensures RightGesture(st, sentences, trace, LaidBeat(st, words, j, at, 0, after))
  {
    FirstShows(st, words, j, at, after);
    forall k: nat, g
      ensures j.carry == Some((k, g))
              <==> ArmsFree(st, j.si) && RoomLeft(trace, j.si) && Carries(st, trace, j.si, j.ci, words, k, g)
    {
      AdmittedIs(st, run, words, j.si, j.ci, trace, k, g);
    }
  }

  lemma FirstFace(st: Stage, sentences: seq<string>, words: seq<string>, j: Job, at: Place, trace: seq<Laid>, run: Run, after: Run)
    requires IsJob(sentences, j, words, at) && Tracks(run, trace, j.si) && Decided(st, words, j, run, after)
    ensures RightFace(st, sentences, trace, LaidBeat(st, words, j, at, 0, after))
  {
    FirstShows(st, words, j, at, after);
  }

  lemma FirstTracks(st: Stage, words: seq<string>, j: Job, at: Place, trace: seq<Laid>, run: Run, after: Run)
    requires words != [] && Tracks(run, trace, j.si) && Decided(st, words, j, run, after)
    ensures Tracks(after, trace + [LaidBeat(st, words, j, at, 0, after)], j.si)
  {
    FirstShows(st, words, j, at, after);
    ShownMore(trace, LaidBeat(st, words, j, at, 0, after), j.si);
  }

  lemma LaterTracks(st: Stage, words: seq<string>, j: Job, at: Place, trace: seq<Laid>, k: nat, run: Run)
    requires words != [] && Tracks(run, trace, j.si) && 0 < k < |Cuts(st, words, j.carry, j.si)|
    ensures var cuts := Cuts(st, words, j.carry, j.si);
            Tracks(RunAfter(cuts, k, StopOf(words, cuts, k), j.carry, run), trace + [LaidBeat(st, words, j, at, k, run)], j.si)
  {
    LaterShows(st, words, j, at, k, run);
    ShownMore(trace, LaidBeat(st, words, j, at, k, run), j.si);
  }

  lemma FirstObeys(st: Stage, sentences: seq<string>, words: seq<string>, j: Job, at: Place, trace: seq<Laid>, run: Run, after: Run)
    requires IsJob(sentences, j, words, at) && AllWords(words) && Tracks(run, trace, j.si) && Decided(st, words, j, run, after)
    requires AtClause(sentences, trace, j.si, j.ci)
    ensures BeatRule(st, sentences)(trace, LaidBeat(st, words, j, at, 0, after))
  {
    PlaceIsRight(st, sentences, words, j, at, trace, 0, after);
    FirstGesture(st, sentences, words, j, at, trace, run, after);
    FirstFace(st, sentences, words, j, at, trace, run, after);
    ExtrasAreRight(st, sentences, words, j, at, 0, after);
  }

  lemma LaterObeys(st: Stage, sentences: seq<string>, words: seq<string>, j: Job, at: Place, trace: seq<Laid>, k: nat, run: Run)
    requires IsJob(sentences, j, words, at) && AllWords(words) && Tracks(run, trace, j.si)
    requires 0 < k < |Cuts(st, words, j.carry, j.si)| && AtBeat(st, sentences, words, j, trace, k)
    ensures BeatRule(st, sentences)(trace, LaidBeat(st, words, j, at, k, run))
  {
    PlaceIsRight(st, sentences, words, j, at, trace, k, run);
    LaterShows(st, words, j, at, k, run);
    ExtrasAreRight(st, sentences, words, j, at, k, run);
  }

  // ----- a clause, a sentence, a line ------------------------------------------------------------------------------

  lemma BeatsMore(trace: seq<Laid>, l: Laid)
    ensures BeatsOf(trace + [l]) == BeatsOf(trace) + [l.beat]
  {
  }

  /** Every beat so far is of a sentence up to `si`. */
  ghost predicate UpTo(trace: seq<Laid>, si: nat) {
    forall k :: 0 <= k < |trace| ==> trace[k].spot.si <= si
  }

  /** The beats so far obey the rule, say what the counters say, and end where beat `k` of the
      clause begins, or where the clause ends. */
  ghost predicate Going(rule: Rule, st: Stage, sentences: seq<string>, words: seq<string>, j: Job, trace: seq<Laid>, k: nat, run: Run)
    requires words != [] && 0 < k <= |Cuts(st, words, j.carry, j.si)|
  {
    && Obeys(rule, trace) && Tracks(run, trace, j.si) && UpTo(trace, j.si) && trace != []
    && var s, cuts := trace[|trace| - 1].spot, Cuts(st, words, j.carry, j.si);
       s.si == j.si && s.ci == j.ci && s.anchor == AnchorOf(j.carry) && s.to == StopOf(words, cuts, k - 1)
  }

  lemma GoOn(rule: Rule, st: Stage, sentences: seq<string>, words: seq<string>, j: Job, at: Place, trace: seq<Laid>, k: nat, run: Run)
    requires rule == BeatRule(st, sentences) && IsJob(sentences, j, words, at) && AllWords(words)
    requires 0 < k < |Cuts(st, words, j.carry, j.si)| && Going(rule, st, sentences, words, j, trace, k, run)
    ensures var cuts := Cuts(st, words, j.carry, j.si);
            Going(rule, st, sentences, words, j, trace + [LaidBeat(st, words, j, at, k, run)], k + 1,
                  RunAfter(cuts, k, StopOf(words, cuts, k), j.carry, run))
  {
    var l := LaidBeat(st, words, j, at, k, run);
    LaterObeys(st, sentences, words, j, at, trace, k, run);
    ObeysMore(rule, trace, l);
    LaterTracks(st, words, j, at, trace, k, run);
  }

  lemma {:induction false} RestOfClause(rule: Rule, st: Stage, sentences: seq<string>, words: seq<string>, j: Job, at: Place,
                                        trace: seq<Laid>, k: nat, run: Run)
    returns (longer: seq<Laid>)
    requires rule == BeatRule(st, sentences) && IsJob(sentences, j, words, at) && AllWords(words)
    requires 0 < k <= |Cuts(st, words, j.carry, j.si)| && Going(rule, st, sentences, words, j, trace, k, run)
    requires Ascending(Cuts(st, words, j.carry, j.si), |words|)
    ensures var cuts := Cuts(st, words, j.carry, j.si);
            var rest := ClauseBeats(st, words, cuts, k, at, j.carry, j.mood, run);
            && Going(rule, st, sentences, words, j, longer, |cuts|, rest.1) && BeatsOf(longer) == BeatsOf(trace) + rest.0
    decreases |Cuts(st, words, j.carry, j.si)| - k
  {
    var cuts := Cuts(st, words, j.carry, j.si);
    if k == |cuts| {
      longer := trace;
      assert BeatsOf(trace) + [] == BeatsOf(trace);
    } else {
      var l := LaidBeat(st, words, j, at, k, run);
      var next := RunAfter(cuts, k, StopOf(words, cuts, k), j.carry, run);
      GoOn(rule, st, sentences, words, j, at, trace, k, run);
      longer := RestOfClause(rule, st, sentences, words, j, at, trace + [l], k + 1, next);
      BeatsMore(trace, l);
      Assoc(BeatsOf(trace), [l.beat], ClauseBeats(st, words, cuts, k + 1, at, j.carry, j.mood, next).0);
    }
  }

  lemma Start(rule: Rule, st: Stage, sentences: seq<string>, words: seq<string>, j: Job, at: Place, trace: seq<Laid>, run: Run, after: Run)
    requires rule == BeatRule(st, sentences) && IsJob(sentences, j, words, at) && AllWords(words)
    requires Decided(st, words, j, run, after)
    requires Ready(rule, sentences, trace, j.si, j.ci, run)
    ensures Going(rule, st, sentences, words, j, trace + [LaidBeat(st, words, j, at, 0, after)], 1, after)
  {
    var l := LaidBeat(st, words, j, at, 0, after);
    FirstObeys(st, sentences, words, j, at, trace, run, after);
    ObeysMore(rule, trace, l);
    FirstTracks(st, words, j, at, trace, run, after);
  }

  /** The beats so far obey the rule, say what the counters say, and end where clause `ci` of
      sentence `si` begins. */
  ghost predicate Ready(rule: Rule, sentences: seq<string>, trace: seq<Laid>, si: nat, ci: nat, run: Run) {
    Obeys(rule, trace) && Tracks(run, trace, si) && UpTo(trace, si) && AtClause(sentences, trace, si, ci)
  }

  /** And when the sentence is done: the per-sentence counter is the next one's to reset. */
  ghost predicate Done(rule: Rule, sentences: seq<string>, trace: seq<Laid>, si: nat, run: Run) {
    Obeys(rule, trace) && Tracks(run, trace, si) && UpTo(trace, si) && AtClause(sentences, trace, si + 1, 0)
  }

  lemma ClauseEnds(rule: Rule, st: Stage, sentences: seq<string>, words: seq<string>, j: Job, at: Place, trace: seq<Laid>, run: Run)
    requires IsJob(sentences, j, words, at) && Going(rule, st, sentences, words, j, trace, |Cuts(st, words, j.carry, j.si)|, run)
    ensures if j.ci + 1 < |ClauseRuns(sentences[j.si])| then Ready(rule, sentences, trace, j.si, j.ci + 1, run)
            else Done(rule, sentences, trace, j.si, run)
  {
  }

  lemma ClauseLaid(rule: Rule, st: Stage, sentences: seq<string>, words: seq<string>, at: Place, trace: seq<Laid>, si: nat, ci: nat, run: Run)
    returns (longer: seq<Laid>)
    requires rule == BeatRule(st, sentences) && IsJob(sentences, Job(si, ci, None, None), words, at) && AllWords(words)
    requires Ready(rule, sentences, trace, si, ci, run)
    ensures var one := LayClause(st, words, at, run);
            && BeatsOf(longer) == BeatsOf(trace) + one.0
            && if ci + 1 < |ClauseRuns(sentences[si])| then Ready(rule, sentences, longer, si, ci + 1, one.1)
               else Done(rule, sentences, longer, si, one.1)
  {
    var carry, run' := Admitted(st, run, words, si, ci), AfterCarry(st, run, words, si, ci);
    var mood, after := MoodChange(st, run', words), AfterMood(st, run', words);
    var j := Job(si, ci, carry, mood);
    var cuts := Cuts(st, words, carry, si);
    CutsAscend(st, words, carry, si);
    var l := LaidBeat(st, words, j, at, 0, after);
    Start(rule, st, sentences, words, j, at, trace, run, after);
    FirstShows(st, words, j, at, after);
    longer := RestOfClause(rule, st, sentences, words, j, at, trace + [l], 1, after);
    BeatsMore(trace, l);
    Assoc(BeatsOf(trace), [l.beat], ClauseBeats(st, words, cuts, 1, at, carry, mood, after).0);
    ClauseEnds(rule, st, sentences, words, j, at, longer, ClauseBeats(st, words, cuts, 0, at, carry, mood, after).1);
  }

  // Steps one after another, whatever a step is: `ok` says where the beats so far stand.

  type Standing = (nat, Run, seq<Laid>) -> bool

  ghost predicate Extended(ok: Standing, i: nat, trace: seq<Laid>, x: (seq<Beat>, Run), longer: seq<Laid>) {
    ok(i + 1, x.1, longer) && BeatsOf(longer) == BeatsOf(trace) + x.0
  }

  ghost predicate Extends(ok: Standing, i: nat, trace: seq<Laid>, x: (seq<Beat>, Run)) {
    exists longer :: Extended(ok, i, trace, x, longer)
  }

  lemma {:induction false} ChainLaid(ok: Standing, lay: Limits.Step, n: nat, i: nat, run: Run, trace: seq<Laid>)
    returns (longer: seq<Laid>)
    requires i <= n && ok(i, run, trace)
    requires forall k: nat, r, t :: k < n && ok(k, r, t) ==> Extends(ok, k, t, lay(k, r))
    ensures var all := Limits.Chain(lay, n, i, run); ok(n, all.1, longer) && BeatsOf(longer) == BeatsOf(trace) + all.0
    decreases n - i
  {
    if i == n {
      longer := trace;
      assert BeatsOf(trace) + [] == BeatsOf(trace);
    } else {
      var one := lay(i, run);
      assert Extends(ok, i, trace, one);
      var mid :| Extended(ok, i, trace, one, mid);
      longer := ChainLaid(ok, lay, n, i + 1, one.1, mid);
      Assoc(BeatsOf(trace), one.0, Limits.Chain(lay, n, i + 1, one.1).0);
    }
  }

  ghost function InSentence(rule: Rule, sentences: seq<string>, si: nat, n: nat): Standing {
    (ci: nat, run: Run, trace: seq<Laid>) =>
      if ci < n then Ready(rule, sentences, trace, si, ci, run) else Done(rule, sentences, trace, si, run)
  }

  lemma ClauseExtends(rule: Rule, st: Stage, sentences: seq<string>, si: nat, ci: nat, run: Run, trace: seq<Laid>)
    requires rule == BeatRule(st, sentences) && si < |sentences| && ci < |ClauseRuns(sentences[si])|
    requires NonEmptyRuns(ClauseRuns(sentences[si])) && AllWords(ClauseRuns(sentences[si])[ci])
    requires InSentence(rule, sentences, si, |ClauseRuns(sentences[si])|)(ci, run, trace)
    ensures var runs := ClauseRuns(sentences[si]);
            var lay := Limits.ClauseStep(st, runs, si, si + 1 == |sentences|, Genre(sentences[si]));
            Extends(InSentence(rule, sentences, si, |runs|), ci, trace, lay(ci, run))
  {
    var runs, last, genre := ClauseRuns(sentences[si]), si + 1 == |sentences|, Genre(sentences[si]);
    var longer := ClauseLaid(rule, st, sentences, runs[ci], PlaceOf(runs, ci, si, last, genre), trace, si, ci, run);
    assert Extended(InSentence(rule, sentences, si, |runs|), ci, trace, Limits.ClauseStep(st, runs, si, last, genre)(ci, run), longer);
  }

  lemma RunsLaid(rule: Rule, st: Stage, sentences: seq<string>, trace: seq<Laid>, si: nat, run: Run)
    returns (longer: seq<Laid>)
    requires rule == BeatRule(st, sentences) && si < |sentences| && NonEmptyRuns(ClauseRuns(sentences[si]))
    requires forall k :: 0 <= k < |ClauseRuns(sentences[si])| ==> AllWords(ClauseRuns(sentences[si])[k])
    requires InSentence(rule, sentences, si, |ClauseRuns(sentences[si])|)(0, run, trace)
    ensures var runs := ClauseRuns(sentences[si]);
            var all := LayRuns(st, runs, 0, si, si + 1 == |sentences|, Genre(sentences[si]), run);
            BeatsOf(longer) == BeatsOf(trace) + all.0 && InSentence(rule, sentences, si, |runs|)(|runs|, all.1, longer)
  {
    var runs, last, genre := ClauseRuns(sentences[si]), si + 1 == |sentences|, Genre(sentences[si]);
    var ok, lay := InSentence(rule, sentences, si, |runs|), Limits.ClauseStep(st, runs, si, last, genre);
    forall k: nat, r, t | k < |runs| && ok(k, r, t) ensures Extends(ok, k, t, lay(k, r)) {
      ClauseExtends(rule, st, sentences, si, k, r, t);
    }
    Limits.LayRunsIsChain(st, runs, 0, si, last, genre, run);
    longer := ChainLaid(ok, lay, |runs|, 0, run, trace);
  }

  lemma {:induction false} NothingShownYet(trace: seq<Laid>, si: nat)
    requires forall k :: 0 <= k < |trace| ==> trace[k].spot.si < si
    ensures ShownIn(trace, si) == 0
  {
    if trace != [] {
      NothingShownYet(trace[..|trace| - 1], si);
    }
  }

  lemma SentenceReady(rule: Rule, sentences: seq<string>, trace: seq<Laid>, si: nat, run: Run)
    requires Done(rule, sentences, trace, si, run)
    ensures Ready(rule, sentences, trace, si + 1, 0, run.(perSentence := 0))
  {
    NothingShownYet(trace, si + 1);
  }

  ghost function InLine(rule: Rule, sentences: seq<string>): Standing {
    (si: nat, run: Run, trace: seq<Laid>) => Ready(rule, sentences, trace, si, 0, run.(perSentence := 0))
  }

  lemma SentenceLaid(rule: Rule, st: Stage, sentences: seq<string>, trace: seq<Laid>, si: nat, run: Run)
    returns (longer: seq<Laid>)
    requires rule == BeatRule(st, sentences) && si < |sentences| && Words(sentences[si]) != []
    requires InLine(rule, sentences)(si, run, trace)
    ensures Extended(InLine(rule, sentences), si, trace, LaySentence(st, sentences, si, run), longer)
  {
    ClauseRunsKeepWords(sentences[si]);
    assert ConcatRuns([]) == [];
    PlannerTheorems.RunsAreWords(ClauseSplit(sentences[si], ""));
    longer := RunsLaid(rule, st, sentences, trace, si, run.(perSentence := 0));
    SentenceReady(rule, sentences, longer, si, LaySentence(st, sentences, si, run).1);
  }

  lemma SentenceExtends(rule: Rule, st: Stage, sentences: seq<string>, si: nat, run: Run, trace: seq<Laid>)
    requires rule == BeatRule(st, sentences) && si < |sentences| && Words(sentences[si]) != []
    requires InLine(rule, sentences)(si, run, trace)
    ensures Extends(InLine(rule, sentences), si, trace, LaySentence(st, sentences, si, run))
  {
    var longer := SentenceLaid(rule, st, sentences, trace, si, run);
  }

  lemma StartStands(rule: Rule, sentences: seq<string>)
    ensures InLine(rule, sentences)(0, START, [])
  {
  }

  lemma EndStands(rule: Rule, sentences: seq<string>, run: Run, trace: seq<Laid>)
    requires InLine(rule, sentences)(|sentences|, run, trace)
    ensures Obeys(rule, trace) && AtClause(sentences, trace, |sentences|, 0)
  {
  }

  lemma LineLaid(rule: Rule, st: Stage, sentences: seq<string>, ok: Standing) returns (run: Run, trace: seq<Laid>)
    requires rule == BeatRule(st, sentences) && Floor.Worded(sentences) && ok == InLine(rule, sentences) && ok(0, START, [])
    ensures ok(|sentences|, run, trace) && BeatsOf(trace) == [] + Layout(st, sentences, 0, START)
  {
    var lay := Limits.SentenceStep(st, sentences);
    forall k: nat, r, t | k < |sentences| && ok(k, r, t) ensures Extends(ok, k, t, lay(k, r)) {
      SentenceExtends(rule, st, sentences, k, r, t);
    }
    Limits.LayoutIsChain(st, sentences, 0, START);
    trace := ChainLaid(ok, lay, |sentences|, 0, START, []);
    run := Limits.Chain(lay, |sentences|, 0, START).1;
  }

  /** The full layout of a line: every beat is what the rule makes it, given those before it,
      and the last one ends the last clause of the last sentence. */
  lemma LayoutObeys(st: Stage, sentences: seq<string>) returns (trace: seq<Laid>)
    requires Floor.Worded(sentences)
    ensures BeatsOf(trace) == Layout(st, sentences, 0, START)
    ensures Obeys(BeatRule(st, sentences), trace) && AtClause(sentences, trace, |sentences|, 0)
  {
    var rule := BeatRule(st, sentences);
    var run: Run;
    StartStands(rule, sentences);
    run, trace := LineLaid(rule, st, sentences, InLine(rule, sentences));
    EndStands(rule, sentences, run, trace);
    assert [] + Layout(st, sentences, 0, START) == Layout(st, sentences, 0, START);
  }

  lemma {:induction false} ObeysStart(rule: Rule, trace: seq<Laid>, n: nat)
    requires Obeys(rule, trace) && n <= |trace|
    ensures Obeys(rule, trace[..n])
  {
    if n < |trace| {
      assert trace[..|trace| - 1][..n] == trace[..n];
      ObeysStart(rule, trace[..|trace| - 1], n);
    } else {
      assert trace[..n] == trace;
    }
  }

  /** What the planner returns, for every text and stage: no plan for a blank, marked or overlong
      text; else the beats of the layout up to the cap, each obeying the rule, with the act,
      the emotion, the signal and the line's mood as given and nothing dropped yet. */
  lemma PlanObeys(u: Alphabet, st: Stage, act: Option<string>, emotion: Option<string>, signal: Option<string>, text: string)
    returns (trace: seq<Laid>)
    ensures var p, sentences := Plan(u, st, act, emotion, signal, text), Segment(u, 0, text);
            && (p.None? <==> Blank(text) || !NoAngle(text) || |text| > 2000 || sentences == [])
            && (p.Some? ==>
                  && p.value == Performance(BeatsOf(trace), act, emotion, signal, Some(st.mood), st.strength, [])
                  && Obeys(BeatRule(st, sentences), trace)
                  && |trace| <= 96 && (|trace| < 96 ==> AtClause(sentences, trace, |sentences|, 0)))
  {
    var sentences := Segment(u, 0, text);
    Floor.SegmentWorded(u, text);
    trace := CappedObeys(st, sentences);
    PlanIs(u, st, act, emotion, signal, text);
  }

  lemma CappedObeys(st: Stage, sentences: seq<string>) returns (trace: seq<Laid>)
    requires Floor.Worded(sentences)
    ensures BeatsOf(trace) == Capped(Layout(st, sentences, 0, START)) && Obeys(BeatRule(st, sentences), trace)
    ensures |trace| <= 96 && (|trace| < 96 ==> AtClause(sentences, trace, |sentences|, 0))
    ensures trace == [] <==> sentences == []
  {
    var full := LayoutObeys(st, sentences);
    trace := Cut(full);
    ObeysStart(BeatRule(st, sentences), full, |trace|);
    CutIsStart(full);
  }

  function Cut(full: seq<Laid>): seq<Laid> {
    if |full| <= MAX_BEATS then full else full[..MAX_BEATS]
  }

  lemma CutIsStart(full: seq<Laid>)
    ensures Cut(full) == full[..|Cut(full)|] && BeatsOf(Cut(full)) == Capped(BeatsOf(full))
  {
  }

  lemma PlanIs(u: Alphabet, st: Stage, act: Option<string>, emotion: Option<string>, signal: Option<string>, text: string)
    ensures var beats := Capped(Layout(st, Segment(u, 0, text), 0, START));
            Plan(u, st, act, emotion, signal, text)
            == if Blank(text) || !NoAngle(text) || |text| > 2000 || beats == [] then None
               else Some(Performance(beats, act, emotion, signal, Some(st.mood), st.strength, []))
  {
  }
}
