/** The planner's anti-twitch limits, and the line that shows its beat cap drops words. */
module PlannerLimits {
  import opened Text
  import opened Segmenter
  import opened Wrappers
  import opened Speech
  import opened Vocab
  import opened Clauses
  import opened Planner
  import opened Performing
  import opened PlannerTheorems

  // ----- counting beats --------------------------------------------------------------------

  function Tally(kind: Beat -> bool, beats: seq<Beat>): nat {
    if beats == [] then 0 else (if kind(beats[0]) then 1 else 0) + Tally(kind, beats[1..])
  }

  predicate Gestures(b: Beat) { b.gesture.Some? }
  predicate ChangesFace(b: Beat) { b.mood.Some? }
  predicate MovesBody(b: Beat) { b.tree.Some? || b.gaze.Some? }

  lemma {:induction false} TallyConcat(kind: Beat -> bool, a: seq<Beat>, b: seq<Beat>)
    ensures Tally(kind, a + b) == Tally(kind, a) + Tally(kind, b)
  {
    if a == [] {
      assert a + b == b;
    } else {
      assert (a + b)[1..] == a[1..] + b;
      TallyConcat(kind, a[1..], b);
    }
  }

  /** Counters within their caps. */
  predicate Fair(run: Run) {
    run.perSentence <= MAX_GESTURES_PER_SENTENCE && run.emitted <= MAX_GESTURES_PER_LINE && run.moods <= MAX_MOOD_MARKS
  }

  /** The carrying word, if any, lies before the second cut. */
  predicate CarryFirst(cuts: seq<nat>, carry: Option<(nat, Gesture)>) {
    carry.Some? ==> forall k :: 0 < k < |cuts| ==> carry.value.0 < cuts[k]
  }

  lemma {:induction false} ClauseBeatsTally(st: Stage, words: seq<string>, cuts: seq<nat>, k: nat, at: Place,
                                            carry: Option<(nat, Gesture)>, mood: Option<int>, run: Run)
    requires k <= |cuts| && Ascending(cuts, |words|) && CarryFirst(cuts, carry) && Fair(run)
    ensures var r := ClauseBeats(st, words, cuts, k, at, carry, mood, run);
            && Fair(r.1) && r.1.moods == run.moods
            && run.perSentence <= r.1.perSentence && run.emitted <= r.1.emitted
            && r.1.emitted - run.emitted == r.1.perSentence - run.perSentence
            && Tally(Gestures, r.0) <= r.1.emitted - run.emitted + (if k == 0 && carry.Some? then 1 else 0)
            && Tally(ChangesFace, r.0) <= (if k == 0 && mood.Some? then 1 else 0)
            && Tally(MovesBody, r.0) <= (if k == 0 && at.si == 0 && at.ci == 0 then 1 else 0)
    decreases |cuts| - k
  {
    if k < |cuts| {
      var stop := StopOf(words, cuts, k);
      var next := RunAfter(cuts, k, stop, carry, run);
      ClauseBeatsTally(st, words, cuts, k + 1, at, carry, mood, next);
      var beat := MakeBeat(st, words, cuts, k, at, carry, mood, run);
      var rest := ClauseBeats(st, words, cuts, k + 1, at, carry, mood, next).0;
      assert ([beat] + rest)[1..] == rest;
    }
  }

  lemma LayClauseTally(st: Stage, words: seq<string>, at: Place, run: Run)
    requires words != [] && Fair(run)
    ensures var r := LayClause(st, words, at, run);
            && Fair(r.1) && run.emitted <= r.1.emitted && run.perSentence <= r.1.perSentence && run.moods <= r.1.moods
            && r.1.emitted - run.emitted == r.1.perSentence - run.perSentence
            && Tally(Gestures, r.0) <= r.1.emitted - run.emitted
            && Tally(ChangesFace, r.0) <= r.1.moods - run.moods
            && Tally(MovesBody, r.0) <= (if at.si == 0 && at.ci == 0 then 1 else 0)
            && (st.chunkIndex != 0 ==> r.1.moods == run.moods)
  {
    var carry := Admitted(st, run, words, at.si, at.ci);
    var run' := AfterCarry(st, run, words, at.si, at.ci);
    ClauseBeatsTally(st, words, Cuts(st, words, carry, at.si), 0, at, carry,
                     MoodChange(st, run', words), AfterMood(st, run', words));
  }

  // ----- the limits along a chain of steps -----------------------------------------------------

  type Step = (nat, Run) -> (seq<Beat>, Run)

  /** Steps `i..n` one after another: the shape of a sentence over its clauses and of a line
      over its sentences. */
  function Chain(lay: Step, n: nat, i: nat, run: Run): (seq<Beat>, Run)
    requires i <= n
    decreases n - i
  {
    if i == n then ([], run)
    else
      var one := lay(i, run);
      var rest := Chain(lay, n, i + 1, one.1);
      (one.0 + rest.0, rest.1)
  }

  /** Counters move forward within their caps, and pay for every gesture and face change. */
  ghost predicate Pays(run: Run, r: (seq<Beat>, Run)) {
    && Fair(r.1) && run.emitted <= r.1.emitted && run.moods <= r.1.moods
    && Tally(Gestures, r.0) <= r.1.emitted - run.emitted
    && Tally(ChangesFace, r.0) <= r.1.moods - run.moods
  }

  lemma {:induction false} ChainPays(lay: Step, n: nat, i: nat, run: Run)
    requires i <= n && Fair(run)
    requires forall k, r {:trigger lay(k, r)} :: Fair(r) ==> Pays(r, lay(k, r))
    ensures Pays(run, Chain(lay, n, i, run))
    decreases n - i
  {
    if i < n {
      var one := lay(i, run);
      ChainPays(lay, n, i + 1, one.1);
      var rest := Chain(lay, n, i + 1, one.1);
      TallyConcat(Gestures, one.0, rest.0);
      TallyConcat(ChangesFace, one.0, rest.0);
    }
  }

  lemma {:induction false} ChainSpends(lay: Step, n: nat, i: nat, run: Run)
    requires i <= n && Fair(run)
    requires forall k, r {:trigger lay(k, r)} :: Fair(r) ==> Fair(lay(k, r).1) && lay(k, r).1.emitted - r.emitted == lay(k, r).1.perSentence - r.perSentence
    ensures var q := Chain(lay, n, i, run).1; q.emitted - run.emitted == q.perSentence - run.perSentence
    decreases n - i
  {
    if i < n {
      ChainSpends(lay, n, i + 1, lay(i, run).1);
    }
  }

  lemma {:induction false} ChainHoldsFace(lay: Step, n: nat, i: nat, run: Run)
    requires i <= n && Fair(run)
    requires forall k, r {:trigger lay(k, r)} :: Fair(r) ==> Fair(lay(k, r).1) && lay(k, r).1.moods == r.moods
    ensures Chain(lay, n, i, run).1.moods == run.moods
    decreases n - i
  {
    if i < n {
      ChainHoldsFace(lay, n, i + 1, lay(i, run).1);
    }
  }

  /** A kind of beat that only step 0 may produce, and at most once. */
  lemma {:induction false} ChainOnce(kind: Beat -> bool, lay: Step, n: nat, i: nat, run: Run, first: bool)
    requires i <= n && Fair(run)
    requires forall k, r {:trigger lay(k, r)} :: Fair(r) ==> Fair(lay(k, r).1) && Tally(kind, lay(k, r).0) <= (if first && k == 0 then 1 else 0)
    ensures Tally(kind, Chain(lay, n, i, run).0) <= (if first && i == 0 then 1 else 0)
    decreases n - i
  {
    if i < n {
      var one := lay(i, run);
      ChainOnce(kind, lay, n, i + 1, one.1, first);
      TallyConcat(kind, one.0, Chain(lay, n, i + 1, one.1).0);
    }
  }

  // ----- sentences and lines as chains ----------------------------------------------------------

  function ClauseStep(st: Stage, runs: seq<seq<string>>, si: nat, last: bool, genre: Option<string>): Step
    requires NonEmptyRuns(runs)
  {
    (ci: nat, run: Run) =>
      if ci < |runs| then LayClause(st, runs[ci], PlaceOf(runs, ci, si, last, genre), run) else ([], run)
  }

  lemma {:induction false} LayRunsIsChain(st: Stage, runs: seq<seq<string>>, ci: nat, si: nat, last: bool,
                                          genre: Option<string>, run: Run)
    requires ci <= |runs| && NonEmptyRuns(runs)
    ensures LayRuns(st, runs, ci, si, last, genre, run) == Chain(ClauseStep(st, runs, si, last, genre), |runs|, ci, run)
    decreases |runs| - ci
  {
    if ci < |runs| {
      var at := PlaceOf(runs, ci, si, last, genre);
      LayRunsIsChain(st, runs, ci + 1, si, last, genre, LayClause(st, runs[ci], at, run).1);
    }
  }

  lemma ClauseStepLimits(st: Stage, runs: seq<seq<string>>, si: nat, last: bool, genre: Option<string>,
                         k: nat, r: Run)
    requires NonEmptyRuns(runs) && Fair(r)
    ensures var q := ClauseStep(st, runs, si, last, genre)(k, r);
            && Pays(r, q) && q.1.emitted - r.emitted == q.1.perSentence - r.perSentence
            && (st.chunkIndex != 0 ==> q.1.moods == r.moods)
            && Tally(MovesBody, q.0) <= (if si == 0 && k == 0 then 1 else 0)
  {
    if k < |runs| {
      LayClauseTally(st, runs[k], PlaceOf(runs, k, si, last, genre), r);
    }
  }

  /** One sentence: it pays for what it shows, at most three gestures of it, and only the
      first sentence of a line moves the body. */
  lemma SentenceLimits(st: Stage, sentences: seq<string>, si: nat, run: Run)
    requires si < |sentences| && Fair(run)
    ensures var r := LaySentence(st, sentences, si, run);
            && Pays(run, r) && Tally(Gestures, r.0) <= MAX_GESTURES_PER_SENTENCE
            && (st.chunkIndex != 0 ==> r.1.moods == run.moods)
            && Tally(MovesBody, r.0) <= (if si == 0 then 1 else 0)
  {
    ClauseRunsKeepWords(sentences[si]);
    var runs, last, genre := ClauseRuns(sentences[si]), si + 1 == |sentences|, Genre(sentences[si]);
    var lay, start := ClauseStep(st, runs, si, last, genre), run.(perSentence := 0);
    LayRunsIsChain(st, runs, 0, si, last, genre, start);
    forall k: nat, r | Fair(r)
      ensures Pays(r, lay(k, r)) && lay(k, r).1.emitted - r.emitted == lay(k, r).1.perSentence - r.perSentence
      ensures st.chunkIndex != 0 ==> lay(k, r).1.moods == r.moods
      ensures Tally(MovesBody, lay(k, r).0) <= (if si == 0 && k == 0 then 1 else 0)
    {
      ClauseStepLimits(st, runs, si, last, genre, k, r);
    }
    ChainPays(lay, |runs|, 0, start);
    ChainSpends(lay, |runs|, 0, start);
    ChainOnce(MovesBody, lay, |runs|, 0, start, si == 0);
    if st.chunkIndex != 0 {
      ChainHoldsFace(lay, |runs|, 0, start);
    }
  }

  function SentenceStep(st: Stage, sentences: seq<string>): Step {
    (si: nat, run: Run) => if si < |sentences| then LaySentence(st, sentences, si, run) else ([], run)
  }

  lemma {:induction false} LayoutIsChain(st: Stage, sentences: seq<string>, si: nat, run: Run)
    requires si <= |sentences|
    ensures Layout(st, sentences, si, run) == Chain(SentenceStep(st, sentences), |sentences|, si, run).0
    decreases |sentences| - si
  {
    if si < |sentences| {
      var lay, n := SentenceStep(st, sentences), |sentences|;
      var one := LaySentence(st, sentences, si, run);
      assert lay(si, run) == one;
      LayoutIsChain(st, sentences, si + 1, one.1);
      assert Chain(lay, n, si, run).0 == one.0 + Chain(lay, n, si + 1, one.1).0;
    }
  }

  lemma LayoutLimits(st: Stage, sentences: seq<string>)
    ensures var beats := Layout(st, sentences, 0, START);
            && Tally(Gestures, beats) <= MAX_GESTURES_PER_LINE
            && Tally(ChangesFace, beats) <= (if st.chunkIndex == 0 then MAX_MOOD_MARKS else 0)
            && Tally(MovesBody, beats) <= 1
  {
    var lay := SentenceStep(st, sentences);
    LayoutIsChain(st, sentences, 0, START);
    forall k: nat, r | Fair(r)
      ensures Pays(r, lay(k, r))
      ensures st.chunkIndex != 0 ==> lay(k, r).1.moods == r.moods
      ensures Tally(MovesBody, lay(k, r).0) <= (if k == 0 then 1 else 0)
    {
      if k < |sentences| {
        SentenceLimits(st, sentences, k, r);
      }
    }
    ChainPays(lay, |sentences|, 0, START);
    ChainOnce(MovesBody, lay, |sentences|, 0, START, true);
    if st.chunkIndex != 0 {
      ChainHoldsFace(lay, |sentences|, 0, START);
    }
  }

  lemma {:induction false} CheckedTally(c: Catalog, beats: seq<Beat>)
    ensures var r := CheckBeats(c, beats);
            && Tally(Gestures, r) <= Tally(Gestures, beats)
            && Tally(ChangesFace, r) <= Tally(ChangesFace, beats)
            && Tally(MovesBody, r) <= Tally(MovesBody, beats)
  {
    if beats != [] {
      CheckedTally(c, beats[1..]);
      assert CheckBeats(c, beats)[1..] == CheckBeats(c, beats[1..]);
    }
  }

  /** What reaches the renderer, for every text, stage and catalog: at most six gestures, two
      face changes on the first chunk and none on a later one, one whole-body tree. */
  lemma PlanLimits(u: Alphabet, c: Catalog, st: Stage, act: Option<string>, emotion: Option<string>,
                   signal: Option<string>, text: string)
    requires Plan(u, st, act, emotion, signal, text).Some?
    ensures var beats := Validate(c, Plan(u, st, act, emotion, signal, text).value).beats;
            && Tally(Gestures, beats) <= MAX_GESTURES_PER_LINE
            && Tally(ChangesFace, beats) <= (if st.chunkIndex == 0 then MAX_MOOD_MARKS else 0)
            && Tally(MovesBody, beats) <= 1
  {
    var p := Plan(u, st, act, emotion, signal, text).value;
    var full, beyond := FullLayout(u, st, text), Beyond(u, st, text);
    LayoutLimits(st, Segment(u, 0, text));
    assert full == p.beats + beyond;
    TallyConcat(Gestures, p.beats, beyond);
    TallyConcat(ChangesFace, p.beats, beyond);
    TallyConcat(MovesBody, p.beats, beyond);
    CheckedTally(c, p.beats);
  }

  // ----- the cap drops words ---------------------------------------------------------------

  /** A line of `n` one-letter clauses: "a, a, ... a". */
  function Letters(n: nat): string {
    if n <= 1 then "a" else "a, " + Letters(n - 1)
  }

  lemma {:induction false} LettersShape(n: nat)
    ensures |Letters(n)| <= 3 * n + 1 && Letters(n)[0] == 'a' && Letters(n)[|Letters(n)| - 1] == 'a'
    ensures Without(TERMINALS, Letters(n)) && NoAngle(Letters(n))
  {
    var head := "a, ";
    assert head[1..] == ", " && head[1..][1..] == " " && " "[1..] == "" && "a"[1..] == "";
    if n > 1 {
      LettersShape(n - 1);
      WithoutConcat(TERMINALS, head, Letters(n - 1));
      WithoutConcat("<>", head, Letters(n - 1));
    }
  }

  lemma {:induction false} NoTerminalNoBoundary(u: Alphabet, min: int, buf: string, i: nat)
    requires i <= |buf| && forall k :: 0 <= k < |buf| ==> buf[k] !in TERMINALS
    ensures NextBoundary(u, min, buf, i) == None
    decreases |buf| - i
  {
    if i < |buf| {
      NoTerminalNoBoundary(u, min, buf, i + 1);
    }
  }

  lemma LettersAreOneSentence(u: Alphabet, n: nat)
    ensures Segment(u, 0, Letters(n)) == [Letters(n)]
  {
    var t := Letters(n);
    LettersShape(n);
    WithoutAt(TERMINALS, t);
    NoTerminalNoBoundary(u, 0, t, 0);
    StripTrimmed(t);
    assert "" + t == t;
  }

  lemma SplitGap(rest: string, cur: string)
    requires rest != "" && !IsSpace(rest[0]) && cur != "" && cur[|cur| - 1] in CLAUSE_ENDS
    ensures ClauseSplit(" " + rest, cur) == [cur] + ClauseSplit(rest, "")
  {
    assert (" " + rest)[1..] == rest;
  }

  lemma SplitOneLetter(rest: string)
    requires rest != "" && !IsSpace(rest[0])
    ensures ClauseSplit("a, " + rest, "") == ["a,"] + ClauseSplit(rest, "")
  {
    var gap := " " + rest;
    assert "a, " + rest == ['a'] + ([','] + gap);
    SplitGap(rest, "a,");
    assert "" + ['a'] == "a" && "a" + [','] == "a,";
  }

  lemma {:induction false} LettersSplit(n: nat)
    requires n >= 1
    ensures |ClauseSplit(Letters(n), "")| == n
    ensures forall k :: 0 <= k < n ==> Words(ClauseSplit(Letters(n), "")[k]) != []
  {
    if n == 1 {
      assert "a"[1..] == "" && "" + ['a'] == "a";
      assert ClauseSplit("a", "") == ClauseSplit("", "a") == ["a"];
      SplitNonBlank("a", "");
    } else {
      LettersShape(n - 1);
      LettersSplit(n - 1);
      SplitOneLetter(Letters(n - 1));
      SplitNonBlank("a,", "");
    }
  }

  lemma {:induction false} RunsOfFullPieces(pieces: seq<string>)
    requires forall k :: 0 <= k < |pieces| ==> Words(pieces[k]) != []
    ensures |Runs(pieces)| == |pieces|
  {
    if pieces != [] {
      RunsOfFullPieces(pieces[1..]);
    }
  }

  lemma {:induction false} OneBeatPerRun(st: Stage, runs: seq<seq<string>>, ci: nat, si: nat, last: bool,
                                         genre: Option<string>, run: Run)
    requires ci <= |runs| && NonEmptyRuns(runs)
    ensures |LayRuns(st, runs, ci, si, last, genre, run).0| >= |runs| - ci
    decreases |runs| - ci
  {
    if ci < |runs| {
      var one := LayClause(st, runs[ci], PlaceOf(runs, ci, si, last, genre), run);
      OneBeatPerRun(st, runs, ci + 1, si, last, genre, one.1);
    }
  }

  lemma LettersLayout(u: Alphabet, st: Stage, n: nat)
    requires n >= 1
    ensures |FullLayout(u, st, Letters(n))| >= n
  {
    var t := Letters(n);
    LettersAreOneSentence(u, n);
    LettersSplit(n);
    RunsOfFullPieces(ClauseSplit(t, ""));
    ClauseRunsKeepWords(t);
    OneBeatPerRun(st, ClauseRuns(t), 0, 0, true, Genre(t), START.(perSentence := 0));
    var one := LaySentence(st, [t], 0, START);
    assert Layout(st, [t], 0, START) == one.0 + Layout(st, [t], 1, one.1);
  }

  lemma CleanOneLetter(rest: string)
    ensures DropEmoji("a, " + rest) == "a, " + DropEmoji(rest)
  {
    var t := "a, " + rest;
    var t1 := ", " + rest;
    var t2 := " " + rest;
    assert t[1..] == t1 && t1[1..] == t2 && t2[1..] == rest;
    assert DropEmoji(t2) == " " + DropEmoji(rest);
    assert DropEmoji(t1) == ", " + DropEmoji(rest);
  }

  lemma {:induction false} LettersClean(n: nat)
    ensures DropEmoji(Letters(n)) == Letters(n)
  {
    if n > 1 {
      LettersClean(n - 1);
      CleanOneLetter(Letters(n - 1));
    } else {
      assert "a"[1..] == "";
    }
  }

  lemma {:induction false} DropEmojiNothing(ws: seq<string>, s: string)
    requires DropEmoji(s) == s && Words(s) == ws
    ensures Clean(ws) == ws
  {
    SplitDropEmoji(s, "");
  }

  /** The cap is not harmless: the 97-clause line "a, a, ... a", well inside the length the
      planner accepts, loses words; the loop stops instead of speaking the rest plainly. */
  lemma CapDropsWords(u: Alphabet, mint: Mint, c: Catalog, st: Stage)
    ensures var text := Letters(MAX_BEATS + 1);
            && Plan(u, st, None, None, None, text).Some?
            && Performed(u, mint, c, Plan(u, st, None, None, None, text).value) != StripMarkup(u, text)
  {
    var n := MAX_BEATS + 1;
    var text := Letters(n);
    LettersShape(n);
    LettersLayout(u, st, n);
    assert !Blank(text) by {
      assert !IsSpace(text[0]);
    }
    LettersClean(n);
    CapDecides(u, mint, c, st, None, None, None, text);
  }

  lemma {:induction false} CleanSize(ws: seq<string>)
    ensures |Clean(ws)| <= |ws|
  {
    if ws != [] {
      CleanSize(ws[1..]);
    }
  }

  lemma BeyondHasWords(u: Alphabet, st: Stage, text: string)
    requires |FullLayout(u, st, text)| > MAX_BEATS
    ensures BeatWords(Beyond(u, st, text)) != []
  {
    var full, beyond := FullLayout(u, st, text), Beyond(u, st, text);
    LayoutJoined(st, Segment(u, 0, text), 0, START);
    assert beyond[0] == full[MAX_BEATS];
    assert JoinedText(full[MAX_BEATS].text);
    assert TextsOf(beyond)[0] == beyond[0].text;
  }

  lemma NothingHiddenBeyond(u: Alphabet, st: Stage, text: string)
    requires |FullLayout(u, st, text)| > MAX_BEATS && DropEmoji(text) == text
    ensures Clean(BeatWords(Beyond(u, st, text))) != []
  {
    var full, beyond := FullLayout(u, st, text), Beyond(u, st, text);
    var shown := full[..MAX_BEATS];
    var sentences := Segment(u, 0, text);
    LayoutWords(st, sentences, 0, START);
    assert sentences[0..] == sentences;
    SegmentKeepsWords(u, 0, text);
    assert full == shown + beyond;
    BeatWordsConcat(shown, beyond);
    DropEmojiNothing(Words(text), text);
    CleanConcat(BeatWords(shown), BeatWords(beyond));
    BeyondHasWords(u, st, text);
    CleanSize(BeatWords(shown));
  }

  /** For a line without emoji the beat cap alone decides: every word is performed exactly
      when the full layout needs at most `MAX_BEATS` beats. */
  lemma CapDecides(u: Alphabet, mint: Mint, c: Catalog, st: Stage, act: Option<string>,
                   emotion: Option<string>, signal: Option<string>, text: string)
    requires Plan(u, st, act, emotion, signal, text).Some? && DropEmoji(text) == text
    ensures Performed(u, mint, c, Plan(u, st, act, emotion, signal, text).value) == StripMarkup(u, text)
            <==> |FullLayout(u, st, text)| <= MAX_BEATS
  {
    PlannerWords(u, mint, c, st, act, emotion, signal, text);
    if |FullLayout(u, st, text)| <= MAX_BEATS {
      assert TextsOf([]) == [];
    } else {
      NothingHiddenBeyond(u, st, text);
    }
  }
}
