/** Where a sentence is cut into clauses, what a clause cues, and how a sentence is delivered,
    each without the scan that finds it. */
module ClauseTheorems {
  import opened Text
  import opened Segmenter
  import opened Wrappers
  import opened Vocab
  import opened Clauses

  // ----- clauses end at marks ----------------------------------------------------------------

  predicate EndsClause(w: string) {
    w != "" && w[|w| - 1] in CLAUSE_ENDS
  }

  /** No whitespace right after a clause mark. */
  predicate NoGap(s: string) {
    forall i :: 0 <= i < |s| - 1 && s[i] in CLAUSE_ENDS ==> !IsSpace(s[i + 1])
  }

  /** What the split yields: pieces without a gap after a mark, all but the last ended by one. */
  ghost predicate CutAtMarks(pieces: seq<string>) {
    && (forall k :: 0 <= k < |pieces| ==> NoGap(pieces[k]))
    && (forall k :: 0 <= k < |pieces| - 1 ==> EndsClause(pieces[k]))
  }

  lemma NoGapSnoc(s: string, c: char)
    requires NoGap(s) && (s != "" && s[|s| - 1] in CLAUSE_ENDS ==> !IsSpace(c))
    ensures NoGap(s + [c])
  {
  }

  lemma {:induction false} SplitCutsAtMarks(s: string, cur: string)
    requires NoGap(cur)
    ensures CutAtMarks(ClauseSplit(s, cur))
    decreases |s|
  {
    if s != "" {
      if IsSpace(s[0]) && cur != "" && cur[|cur| - 1] in CLAUSE_ENDS {
        SplitCutsAtMarks(LStrip(s[1..]), "");
      } else {
        NoGapSnoc(cur, s[0]);
        SplitCutsAtMarks(s[1..], cur + [s[0]]);
      }
    }
  }

  /** No word but the last ends in a clause mark. */
  ghost predicate OneClause(ws: seq<string>) {
    forall i :: 0 <= i < |ws| - 1 ==> !EndsClause(ws[i])
  }

  lemma OneClauseCons(w: string, ws: seq<string>)
    requires OneClause(ws) && (ws != [] ==> !EndsClause(w))
    ensures OneClause([w] + ws)
  {
  }

  /** The words of a piece are one clause. */
  lemma {:induction false} PieceWords(s: string, cur: string)
    requires NoGap(cur + s)
    ensures OneClause(Split(s, cur))
    decreases |s|
  {
    if s != "" {
      var t := s[1..];
      if IsSpace(s[0]) {
        SuffixNoGap(cur + s, |cur| + 1);
        assert (cur + s)[|cur| + 1..] == "" + t;
        PieceWords(t, "");
        var rest := Split(t, "");
        if cur == "" {
          assert Split(s, cur) == rest;
        } else {
          BeforeGap(cur, s);
          OneClauseCons(cur, rest);
        }
      } else {
        assert cur + [s[0]] + t == cur + s;
        PieceWords(t, cur + [s[0]]);
      }
    }
  }

  lemma BeforeGap(cur: string, s: string)
    requires NoGap(cur + s) && s != "" && IsSpace(s[0])
    ensures !EndsClause(cur)
  {
    if cur != "" {
      var i := |cur| - 1;
      assert (cur + s)[i] == cur[i] && (cur + s)[i + 1] == s[0];
    }
  }

  lemma SuffixNoGap(s: string, n: nat)
    requires NoGap(s) && n <= |s|
    ensures NoGap(s[n..])
  {
    forall i | 0 <= i < |s| - n - 1 && s[n..][i] in CLAUSE_ENDS ensures !IsSpace(s[n..][i + 1]) {
      assert s[n..][i] == s[n + i] && s[n..][i + 1] == s[n + i + 1];
    }
  }

  /** A text that does not end in whitespace ends as its last word does. */
  lemma {:induction false} LastWordEnds(s: string, cur: string)
    requires s == "" ==> cur != ""
    requires s != "" ==> !IsSpace(s[|s| - 1])
    ensures var ws := Split(s, cur);
            ws != [] && ws[|ws| - 1] != ""
            && ws[|ws| - 1][|ws[|ws| - 1]| - 1] == if s == "" then cur[|cur| - 1] else s[|s| - 1]
    decreases |s|
  {
    if s != "" {
      if IsSpace(s[0]) {
        LastWordEnds(s[1..], "");
      } else {
        LastWordEnds(s[1..], cur + [s[0]]);
      }
    }
  }

  /** The clauses: no word inside one ends in a mark, and all but the last are ended by one. */
  ghost predicate ClausesOf(runs: seq<seq<string>>) {
    && (forall k :: 0 <= k < |runs| ==> OneClause(runs[k]))
    && (forall k :: 0 <= k < |runs| - 1 ==> runs[k] != [] && EndsClause(runs[k][|runs[k]| - 1]))
  }

  lemma MarksAreNoSpace(c: char)
    requires c in CLAUSE_ENDS
    ensures !IsSpace(c)
  {
  }

  lemma OnePiece(piece: string)
    requires NoGap(piece)
    ensures OneClause(Words(piece))
    ensures EndsClause(piece) ==> Words(piece) != [] && EndsClause(Words(piece)[|Words(piece)| - 1])
  {
    assert "" + piece == piece;
    PieceWords(piece, "");
    if EndsClause(piece) {
      MarksAreNoSpace(piece[|piece| - 1]);
      LastWordEnds(piece, "");
    }
  }

  lemma {:induction false} RunsAreClauses(pieces: seq<string>)
    requires CutAtMarks(pieces)
    ensures ClausesOf(Runs(pieces))
  {
    if pieces != [] {
      RunsAreClauses(pieces[1..]);
      OnePiece(pieces[0]);
      var ws, tail := Words(pieces[0]), Runs(pieces[1..]);
      if ws == [] {
        assert Runs(pieces) == tail;
      } else {
        assert Runs(pieces) == [ws] + tail;
        if |pieces| == 1 {
          assert tail == [];
        }
      }
    }
  }

  /** A sentence is cut into clauses exactly after the words that end in a clause mark. */
  lemma ClausesEndAtMarks(sentence: string)
    ensures ClausesOf(ClauseRuns(sentence))
    ensures ConcatRuns(ClauseRuns(sentence)) == Words(sentence)
  {
    SplitCutsAtMarks(sentence, "");
    RunsAreClauses(ClauseSplit(sentence, ""));
    ClauseRunsKeepWords(sentence);
  }

  // ----- as word spans ----------------------------------------------------------------------------

  /** The words `a..b` are one clause: they begin the sentence or follow a mark, they end it or
      a mark ends them, and there is no mark inside. */
  predicate IsClause(words: seq<string>, a: nat, b: nat) {
    && a < b <= |words|
    && (a > 0 ==> EndsClause(words[a - 1])) && (b < |words| ==> EndsClause(words[b - 1]))
    && forall m :: a <= m < b - 1 ==> !EndsClause(words[m])
  }

  lemma TailClauses(runs: seq<seq<string>>)
    requires ClausesOf(runs) && runs != []
    ensures ClausesOf(runs[1..])
  {
    var rest := runs[1..];
    assert forall k :: 0 <= k < |rest| ==> rest[k] == runs[k + 1];
  }

  /** Two clauses that share a word are one. */
  lemma SameClause(words: seq<string>, a: nat, b: nat, c: nat, d: nat)
    requires IsClause(words, a, b) && IsClause(words, c, d) && a <= c < b
    ensures a == c && b == d
  {
  }

  lemma RunIsClause(words: seq<string>, at: nat, n: nat)
    requires at + n <= |words| && n > 0 && OneClause(words[at..at + n])
    requires at > 0 ==> EndsClause(words[at - 1])
    requires at + n < |words| ==> EndsClause(words[at + n - 1])
    ensures IsClause(words, at, at + n)
  {
    forall m | at <= m < at + n - 1 ensures !EndsClause(words[m]) {
      assert words[at..at + n][m - at] == words[m];
    }
  }

  lemma FirstClause(words: seq<string>, at: nat, runs: seq<seq<string>>)
    requires ClausesOf(runs) && runs != [] && runs[0] != [] && at <= |words| && words[at..] == ConcatRuns(runs)
    requires at > 0 ==> EndsClause(words[at - 1])
    ensures at + |runs[0]| <= |words| && IsClause(words, at, at + |runs[0]|)
  {
    var n := |runs[0]|;
    assert ConcatRuns(runs) == runs[0] + ConcatRuns(runs[1..]);
    assert words[at..at + n] == words[at..][..n] == runs[0];
    if |runs| == 1 {
      assert ConcatRuns(runs[1..]) == [];
    } else {
      assert words[at + n - 1] == runs[0][n - 1];
    }
    RunIsClause(words, at, n);
  }

  /** The only clause that starts in the first run is that run. */
  lemma HeadSpan(words: seq<string>, at: nat, runs: seq<seq<string>>, a: nat, b: nat)
    requires ClausesOf(runs) && runs != [] && runs[0] != [] && at <= |words| && words[at..] == ConcatRuns(runs)
    requires at > 0 ==> EndsClause(words[at - 1])
    ensures var end := at + |runs[0]|; IsClause(words, a, b) && at <= a < end <==> a == at && b == end
  {
    FirstClause(words, at, runs);
    if IsClause(words, a, b) && at <= a < at + |runs[0]| {
      SameClause(words, at, at + |runs[0]|, a, b);
    }
  }

  lemma AfterHead(words: seq<string>, at: nat, runs: seq<seq<string>>)
    requires ClausesOf(runs) && runs != [] && runs[0] != [] && at <= |words| && words[at..] == ConcatRuns(runs)
    ensures var end := at + |runs[0]|;
            && end <= |words| && words[end..] == ConcatRuns(runs[1..])
            && (runs[1..] != [] ==> EndsClause(words[end - 1]))
  {
    var n := |runs[0]|;
    assert ConcatRuns(runs) == runs[0] + ConcatRuns(runs[1..]);
    assert words[at..][n..] == words[at + n..];
    assert words[at..][n - 1] == words[at + n - 1];
  }

  lemma {:induction false} SpansAreClauses(words: seq<string>, at: nat, runs: seq<seq<string>>, a: nat, b: nat)
    requires ClausesOf(runs) && forall k :: 0 <= k < |runs| ==> runs[k] != []
    requires at <= |words| && words[at..] == ConcatRuns(runs) && (at > 0 && runs != [] ==> EndsClause(words[at - 1]))
    ensures (a, b) in Spans(runs, at) <==> IsClause(words, a, b) && at <= a
    decreases |runs|
  {
    if runs == [] {
      assert |words[at..]| == 0;
    } else {
      HeadSpan(words, at, runs, a, b);
      AfterHead(words, at, runs);
      TailClauses(runs);
      SpansAreClauses(words, at + |runs[0]|, runs[1..], a, b);
    }
  }

  /** The spans of a sentence are exactly its clauses. */
  lemma BoundsAreClauses(sentence: string, a: nat, b: nat)
    requires Words(sentence) != []
    ensures (a, b) in ClauseBounds(sentence) <==> IsClause(Words(sentence), a, b)
  {
    ClausesEndAtMarks(sentence);
    ClauseRunsKeepWords(sentence);
    var words := Words(sentence);
    assert words[0..] == words;
    SpansAreClauses(words, 0, ClauseRuns(sentence), a, b);
    assert ConcatRuns([]) == [];
  }

  // ----- what a clause cues --------------------------------------------------------------------------

  /** Word `k` carries gesture `g` for the clause `a..b`: praise celebrates on the first word;
      otherwise it is the first word of a cue class, with that class's gesture. */
  ghost predicate Cues(rules: Rules, words: seq<string>, a: nat, b: nat, k: nat, g: Gesture) {
    && a <= k < b <= |words|
    && if rules.praise(Join(words[a..b])) then k == a && g == Celebrate
       else rules.cue(words[k]).Some? && rules.cue(words[k]).value == g && forall m :: a <= m < k ==> rules.cue(words[m]) == None
  }

  lemma {:induction false} FirstCueIs(rules: Rules, words: seq<string>, i: nat, stop: nat)
    requires i <= stop <= |words|
    ensures var r := FirstCue(rules, words, i, stop);
            && (r.Some? ==> rules.cue(words[r.value.0]).Some? && rules.cue(words[r.value.0]).value == r.value.1
                            && forall m :: i <= m < r.value.0 ==> rules.cue(words[m]) == None)
            && (r.None? ==> forall m :: i <= m < stop ==> rules.cue(words[m]) == None)
    decreases stop - i
  {
    if i < stop {
      FirstCueIs(rules, words, i + 1, stop);
    }
  }

  lemma ClauseGestureIs(rules: Rules, words: seq<string>, a: nat, b: nat, k: nat, g: Gesture)
    requires a < b <= |words|
    ensures ClauseGesture(rules, words, a, b) == Some((k, g)) <==> Cues(rules, words, a, b, k, g)
  {
    FirstCueIs(rules, words, a, b);
  }

  // ----- delivery and pauses --------------------------------------------------------------------------

  /** `c` at `k`, then closers up to `m`, then whitespace. */
  predicate ClosedBy(s: string, c: char, k: nat, m: nat) {
    && k < m <= |s| && s[k] == c
    && (forall i :: k < i < m ==> s[i] in CLOSERS) && (forall i :: m <= i < |s| ==> IsSpace(s[i]))
  }

  /** The sentence ends in `c`, closers and then whitespace aside. */
  ghost predicate EndsIn(s: string, c: char) {
    exists k: nat, m: nat :: ClosedBy(s, c, k, m)
  }

  lemma {:induction false} RStripClosersShape(s: string)
    ensures var r := RStripClosers(s);
            && r <= s && (r == "" || r[|r| - 1] !in CLOSERS) && forall i :: |r| <= i < |s| ==> s[i] in CLOSERS
  {
    if s != "" && s[|s| - 1] in CLOSERS {
      RStripClosersShape(s[..|s| - 1]);
    }
  }

  lemma EndsInTail(s: string, c: char)
    requires c !in CLOSERS && !IsSpace(c)
    ensures var tail := RStripClosers(RStrip(s)); EndsIn(s, c) <==> tail != "" && tail[|tail| - 1] == c
  {
    var body, tail := RStrip(s), RStripClosers(RStrip(s));
    StrippedTail(s);
    if tail != "" && tail[|tail| - 1] == c {
      assert ClosedBy(s, c, |tail| - 1, |body|);
    }
    if k: nat, m: nat :| ClosedBy(s, c, k, m) {
      SameEnds(s, body, tail, k, m, c);
    }
  }

  lemma StrippedTail(s: string)
    ensures var body, tail := RStrip(s), RStripClosers(RStrip(s));
            && body <= s && tail <= body && (body == "" || !IsSpace(body[|body| - 1]))
            && (forall i :: |body| <= i < |s| ==> IsSpace(s[i]))
            && (tail == "" || tail[|tail| - 1] !in CLOSERS) && (forall i :: |tail| <= i < |body| ==> body[i] in CLOSERS)
  {
    var body := RStrip(s);
    RStripShape(s);
    RStripClosersShape(body);
    forall i | |body| <= i < |s| ensures IsSpace(s[i]) {
      assert s[|body|..][i - |body|] == s[i];
    }
  }

  lemma SameEnds(s: string, body: string, tail: string, k: nat, m: nat, c: char)
    requires body <= s && tail <= body && c !in CLOSERS && !IsSpace(c)
    requires body == "" || !IsSpace(body[|body| - 1])
    requires forall i :: |body| <= i < |s| ==> IsSpace(s[i])
    requires tail == "" || tail[|tail| - 1] !in CLOSERS
    requires forall i :: |tail| <= i < |body| ==> body[i] in CLOSERS
    requires ClosedBy(s, c, k, m)
    ensures tail != "" && tail[|tail| - 1] == c
  {
    assert k < |body|;
    assert s[k] == body[k];
    assert k < |tail|;
  }

  /** A sentence is delivered as a question or with excitement exactly when it ends in that
      mark, whatever closers and gaps follow it, and is not wrapped otherwise. */
  lemma GenreIs(sentence: string)
    ensures Genre(sentence) == Some("question") <==> EndsIn(sentence, '?')
    ensures Genre(sentence) == Some("excited") <==> EndsIn(sentence, '!')
    ensures Genre(sentence).None? <==> !EndsIn(sentence, '?') && !EndsIn(sentence, '!')
  {
    EndsInTail(sentence, '?');
    EndsInTail(sentence, '!');
  }

  lemma {:induction false} JoinEndsAs(ws: seq<string>)
    requires AllWords(ws) && ws != []
    ensures Join(ws) != "" && Join(ws)[|Join(ws)| - 1] == ws[|ws| - 1][|ws[|ws| - 1]| - 1]
  {
    if |ws| > 1 {
      JoinEndsAs(ws[1..]);
    }
  }

  /** A leading clause earns a pause exactly when its last word ends in a comma and the clause
      is an interjection. */
  lemma LeadPauseIs(rules: Rules, ws: seq<string>)
    requires AllWords(ws) && ws != []
    ensures var w := ws[|ws| - 1]; LeadPause(rules, Join(ws)) <==> w[|w| - 1] == ',' && rules.interjection(Join(ws))
  {
    JoinEnds(ws);
    JoinEndsAs(ws);
    RStripKeeps(Join(ws));
  }

  lemma RStripKeeps(s: string)
    requires s != "" && !IsSpace(s[|s| - 1])
    ensures RStrip(s) == s
  {
  }
}
