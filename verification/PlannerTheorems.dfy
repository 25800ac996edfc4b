/** What the planner promises of every line: the words it performs are a prefix of the
    line's words, all of them exactly when nothing audible lies past the beat cap; and the
    anti-twitch limits. */
module PlannerTheorems {
  import opened Text
  import opened Segmenter
  import opened Wrappers
  import opened Speech
  import opened Vocab
  import opened Clauses
  import opened Planner
  import opened Performing
  import FloorTheorems

  // ----- words of a layout ---------------------------------------------------------------

  /** The spoken words of beats, in order. */
  function BeatWords(beats: seq<Beat>): seq<string> {
    WordsOfAll(TextsOf(beats))
  }

  lemma {:induction false} BeatWordsConcat(a: seq<Beat>, b: seq<Beat>)
    ensures BeatWords(a + b) == BeatWords(a) + BeatWords(b)
  {
    TextsConcat(a, b);
    WordsOfAllConcat(TextsOf(a), TextsOf(b));
  }

  lemma {:induction false} TextsConcat(a: seq<Beat>, b: seq<Beat>)
    ensures TextsOf(a + b) == TextsOf(a) + TextsOf(b)
  {
    if a == [] {
      assert a + b == b;
    } else {
      assert (a + b)[1..] == a[1..] + b;
      TextsConcat(a[1..], b);
    }
  }

  lemma {:induction false} ClauseBeatsWords(st: Stage, words: seq<string>, cuts: seq<nat>, k: nat, at: Place,
                                            carry: Option<(nat, Gesture)>, mood: Option<int>, run: Run)
    requires k < |cuts| && Ascending(cuts, |words|) && AllWords(words)
    ensures BeatWords(ClauseBeats(st, words, cuts, k, at, carry, mood, run).0) == words[cuts[k]..]
    decreases |cuts| - k
  {
    var stop := StopOf(words, cuts, k);
    var beat := MakeBeat(st, words, cuts, k, at, carry, mood, run);
    var next := RunAfter(cuts, k, stop, carry, run);
    var rest := ClauseBeats(st, words, cuts, k + 1, at, carry, mood, next).0;
    JoinWords(words[cuts[k]..stop]);
    assert ([beat] + rest)[1..] == rest;
    assert BeatWords([beat] + rest) == words[cuts[k]..stop] + BeatWords(rest);
    if k + 1 < |cuts| {
      ClauseBeatsWords(st, words, cuts, k + 1, at, carry, mood, next);
      assert words[cuts[k]..stop] + words[stop..] == words[cuts[k]..];
    } else {
      assert rest == [];
      assert words[cuts[k]..stop] + [] == words[cuts[k]..];
    }
  }

  lemma LayClauseWords(st: Stage, words: seq<string>, at: Place, run: Run)
    requires words != [] && AllWords(words)
    ensures BeatWords(LayClause(st, words, at, run).0) == words
  {
    var carry := Admitted(st, run, words, at.si, at.ci);
    var run' := AfterCarry(st, run, words, at.si, at.ci);
    ClauseBeatsWords(st, words, Cuts(st, words, carry, at.si), 0, at, carry,
                     MoodChange(st, run', words), AfterMood(st, run', words));
    assert words[0..] == words;
  }

  lemma {:induction false} LayRunsWords(st: Stage, runs: seq<seq<string>>, ci: nat, si: nat, last: bool,
                                        genre: Option<string>, run: Run)
    requires ci <= |runs| && NonEmptyRuns(runs) && forall k :: 0 <= k < |runs| ==> AllWords(runs[k])
    ensures BeatWords(LayRuns(st, runs, ci, si, last, genre, run).0) == ConcatRuns(runs[ci..])
    decreases |runs| - ci
  {
    if ci < |runs| {
      var at := PlaceOf(runs, ci, si, last, genre);
      var one := LayClause(st, runs[ci], at, run);
      LayClauseWords(st, runs[ci], at, run);
      LayRunsWords(st, runs, ci + 1, si, last, genre, one.1);
      BeatWordsConcat(one.0, LayRuns(st, runs, ci + 1, si, last, genre, one.1).0);
      assert runs[ci..][1..] == runs[ci + 1..];
    }
  }

  lemma {:induction false} RunsAreWords(pieces: seq<string>)
    ensures forall k :: 0 <= k < |Runs(pieces)| ==> AllWords(Runs(pieces)[k])
  {
    if pieces != [] {
      RunsAreWords(pieces[1..]);
      SplitYieldsWords(pieces[0], "");
    }
  }

  lemma {:induction false} LayoutWords(st: Stage, sentences: seq<string>, si: nat, run: Run)
    requires si <= |sentences|
    ensures BeatWords(Layout(st, sentences, si, run)) == WordsOfAll(sentences[si..])
    decreases |sentences| - si
  {
    if si < |sentences| {
      var one := LaySentence(st, sentences, si, run);
      var runs := ClauseRuns(sentences[si]);
      ClauseRunsKeepWords(sentences[si]);
      RunsAreWords(ClauseSplit(sentences[si], ""));
      LayRunsWords(st, runs, 0, si, si + 1 == |sentences|, Genre(sentences[si]), run.(perSentence := 0));
      assert runs[0..] == runs;
      LayoutWords(st, sentences, si + 1, one.1);
      BeatWordsConcat(one.0, Layout(st, sentences, si + 1, one.1));
      assert sentences[si..][1..] == sentences[si + 1..];
    }
  }

  // ----- beats carry no angle bracket --------------------------------------------------------

  lemma {:induction false} WithoutOfWords(cs: string, s: string)
    requires forall w :: w in Words(s) ==> Without(cs, w)
    requires Without(cs, " ")
    ensures Without(cs, Join(Words(s)))
  {
    JoinWithout(cs, Words(s));
  }

  lemma {:induction false} JoinWithout(cs: string, ws: seq<string>)
    requires forall w :: w in ws ==> Without(cs, w)
    requires Without(cs, " ")
    ensures Without(cs, Join(ws))
  {
    if |ws| == 1 {
      assert ws[0] in ws;
    } else if |ws| > 1 {
      assert ws[0] in ws;
      assert forall w :: w in ws[1..] ==> w in ws;
      JoinWithout(cs, ws[1..]);
      WithoutConcat(cs, ws[0] + " ", Join(ws[1..]));
      WithoutConcat(cs, ws[0], " ");
    }
  }

  /** Every beat of a layout has words and is the join of them. */
  ghost predicate Joined(beats: seq<Beat>) {
    forall k :: 0 <= k < |beats| ==> JoinedText(beats[k].text)
  }

  predicate JoinedText(t: string) {
    Words(t) != [] && t == Join(Words(t))
  }

  lemma {:induction false} ClauseBeatsJoined(st: Stage, words: seq<string>, cuts: seq<nat>, k: nat, at: Place,
                                             carry: Option<(nat, Gesture)>, mood: Option<int>, run: Run)
    requires k <= |cuts| && Ascending(cuts, |words|) && AllWords(words)
    ensures Joined(ClauseBeats(st, words, cuts, k, at, carry, mood, run).0)
    decreases |cuts| - k
  {
    if k < |cuts| {
      var stop := StopOf(words, cuts, k);
      JoinWords(words[cuts[k]..stop]);
      assert JoinedText(Join(words[cuts[k]..stop]));
      ClauseBeatsJoined(st, words, cuts, k + 1, at, carry, mood, RunAfter(cuts, k, stop, carry, run));
    }
  }

  lemma {:induction false} LayRunsJoined(st: Stage, runs: seq<seq<string>>, ci: nat, si: nat, last: bool,
                                         genre: Option<string>, run: Run)
    requires ci <= |runs| && NonEmptyRuns(runs) && forall k :: 0 <= k < |runs| ==> AllWords(runs[k])
    ensures Joined(LayRuns(st, runs, ci, si, last, genre, run).0)
    decreases |runs| - ci
  {
    if ci < |runs| {
      var at := PlaceOf(runs, ci, si, last, genre);
      var words := runs[ci];
      var one := LayClause(st, words, at, run);
      var carry := Admitted(st, run, words, at.si, at.ci);
      var run' := AfterCarry(st, run, words, at.si, at.ci);
      ClauseBeatsJoined(st, words, Cuts(st, words, carry, at.si), 0, at, carry,
                        MoodChange(st, run', words), AfterMood(st, run', words));
      LayRunsJoined(st, runs, ci + 1, si, last, genre, one.1);
    }
  }

  lemma {:induction false} LayoutJoined(st: Stage, sentences: seq<string>, si: nat, run: Run)
    requires si <= |sentences|
    ensures Joined(Layout(st, sentences, si, run))
    decreases |sentences| - si
  {
    if si < |sentences| {
      ClauseRunsKeepWords(sentences[si]);
      RunsAreWords(ClauseSplit(sentences[si], ""));
      LayRunsJoined(st, ClauseRuns(sentences[si]), 0, si, si + 1 == |sentences|, Genre(sentences[si]),
                    run.(perSentence := 0));
      LayoutJoined(st, sentences, si + 1, LaySentence(st, sentences, si, run).1);
    }
  }

  lemma {:induction false} WordInBeats(beats: seq<Beat>, k: nat, w: string)
    requires k < |beats| && w in Words(beats[k].text)
    ensures w in BeatWords(beats)
  {
    if k > 0 {
      WordInBeats(beats[1..], k - 1, w);
    }
  }

  lemma LayoutAngleFree(u: Alphabet, st: Stage, text: string)
    requires NoAngle(text)
    ensures AngleFree(Layout(st, Segment(u, 0, text), 0, START))
  {
    var sentences := Segment(u, 0, text);
    var full := Layout(st, sentences, 0, START);
    LayoutWords(st, sentences, 0, START);
    assert sentences[0..] == sentences;
    SegmentKeepsWords(u, 0, text);
    FloorTheorems.SplitWithout("<>", text, "");
    LayoutJoined(st, sentences, 0, START);
    forall k | 0 <= k < |full| ensures NoAngle(full[k].text) {
      assert JoinedText(full[k].text);
      forall w | w in Words(full[k].text) ensures NoAngle(w) {
        WordInBeats(full, k, w);
      }
      assert " "[1..] == "";
      WithoutOfWords("<>", full[k].text);
    }
  }

  // ----- the words theorem ----------------------------------------------------------------------

  /** The beats a line needs when nothing is cut off. */
  function FullLayout(u: Alphabet, st: Stage, text: string): seq<Beat> {
    Layout(st, Segment(u, 0, text), 0, START)
  }

  /** The beats past the cap, which `plan` drops. */
  function Beyond(u: Alphabet, st: Stage, text: string): seq<Beat> {
    var full := FullLayout(u, st, text);
    if |full| <= MAX_BEATS then [] else full[MAX_BEATS..]
  }

  /** What a planned line sounds like after the gate and the renderer. */
  function Performed(u: Alphabet, mint: Mint, c: Catalog, p: Performance): string {
    StripMarkup(u, RenderedPlan(mint, Validate(c, p)))
  }

  lemma PerformedIsPrefix(u: Alphabet, mint: Mint, c: Catalog, st: Stage, act: Option<string>,
                          emotion: Option<string>, signal: Option<string>, text: string)
    requires Plan(u, st, act, emotion, signal, text).Some?
    ensures var p := Plan(u, st, act, emotion, signal, text).value;
            && Performed(u, mint, c, p) == Join(Clean(BeatWords(p.beats)))
            && StripMarkup(u, text) == Join(Clean(BeatWords(p.beats)) + Clean(BeatWords(Beyond(u, st, text))))
  {
    var p := Plan(u, st, act, emotion, signal, text).value;
    var full, beyond := FullLayout(u, st, text), Beyond(u, st, text);
    var sentences := Segment(u, 0, text);
    LayoutAngleFree(u, st, text);
    assert full == p.beats + beyond;
    ValidateProjects(c, p);
    var q := Validate(c, p);
    assert AngleFree(q.beats) by {
      forall k | 0 <= k < |q.beats| ensures NoAngle(q.beats[k].text) {
        assert q.beats[k] == CheckBeat(c, p.beats[k]) && p.beats[k] == full[k];
      }
    }
    RenderSpeaks(u, mint, q);
    StripPlain(u, text);
    SegmentKeepsWords(u, 0, text);
    LayoutWords(st, sentences, 0, START);
    assert sentences[0..] == sentences;
    BeatWordsConcat(p.beats, beyond);
    CleanConcat(BeatWords(p.beats), BeatWords(beyond));
  }

  lemma {:induction false} CleanYieldsWords(ws: seq<string>)
    requires AllWords(ws)
    ensures AllWords(Clean(ws))
  {
    if ws != [] {
      CleanYieldsWords(ws[1..]);
      DropEmojiOfWord(ws[0]);
    }
  }

  lemma {:induction false} DropEmojiOfWord(w: string)
    requires forall i :: 0 <= i < |w| ==> !IsSpace(w[i])
    ensures forall i :: 0 <= i < |DropEmoji(w)| ==> !IsSpace(DropEmoji(w)[i])
  {
    if w != "" {
      DropEmojiOfWord(w[1..]);
    }
  }

  lemma BeatWordsAreWords(beats: seq<Beat>)
    ensures AllWords(BeatWords(beats))
  {
    WordsOfAllAreWords(TextsOf(beats));
  }

  lemma {:induction false} WordsOfAllAreWords(ss: seq<string>)
    ensures AllWords(WordsOfAll(ss))
  {
    if ss != [] {
      SplitYieldsWords(ss[0], "");
      WordsOfAllAreWords(ss[1..]);
    }
  }

  /** For every line, stage and catalog: the words performed are a prefix of the words of the
      line, and they are all of them exactly when no audible word lies past the beat cap. */
  lemma PlannerWords(u: Alphabet, mint: Mint, c: Catalog, st: Stage, act: Option<string>,
                     emotion: Option<string>, signal: Option<string>, text: string)
    requires Plan(u, st, act, emotion, signal, text).Some?
    ensures var said := Performed(u, mint, c, Plan(u, st, act, emotion, signal, text).value);
            && Words(said) <= Words(StripMarkup(u, text))
            && (said == StripMarkup(u, text) <==> Clean(BeatWords(Beyond(u, st, text))) == [])
  {
    var p := Plan(u, st, act, emotion, signal, text).value;
    PerformedIsPrefix(u, mint, c, st, act, emotion, signal, text);
    var a, b := Clean(BeatWords(p.beats)), Clean(BeatWords(Beyond(u, st, text)));
    BeatWordsAreWords(p.beats);
    BeatWordsAreWords(Beyond(u, st, text));
    CleanYieldsWords(BeatWords(p.beats));
    CleanYieldsWords(BeatWords(Beyond(u, st, text)));
    JoinWords(a);
    JoinWords(a + b);
    if b == [] {
      assert a + b == a;
    }
  }

  /** Within the cap nothing is lost. */
  lemma ShortPlansKeepWords(u: Alphabet, mint: Mint, c: Catalog, st: Stage, act: Option<string>,
                            emotion: Option<string>, signal: Option<string>, text: string)
    requires Plan(u, st, act, emotion, signal, text).Some?
    requires |FullLayout(u, st, text)| <= MAX_BEATS
    ensures Performed(u, mint, c, Plan(u, st, act, emotion, signal, text).value) == StripMarkup(u, text)
  {
    PlannerWords(u, mint, c, st, act, emotion, signal, text);
    assert TextsOf([]) == [];
  }
}
