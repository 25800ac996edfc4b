/** Clause splitting and the cue a clause carries: the rules the floor and the planner
    share. */
module Clauses {
  import opened Basics
  import opened Text
  import opened Segmenter
  import opened Wrappers
  import opened Vocab

  const CLAUSE_ENDS: string := ",;:\U{2014}\U{2013}"

  /** `re.split` at whitespace that follows a clause mark; `cur` is the piece being read. */
  function ClauseSplit(s: string, cur: string): seq<string>
    decreases |s|
  {
    if s == "" then [cur]
    else if IsSpace(s[0]) && cur != "" && cur[|cur| - 1] in CLAUSE_ENDS
    then [cur] + ClauseSplit(LStrip(s[1..]), "")
    else ClauseSplit(s[1..], cur + [s[0]])
  }

  /** The clauses of a sentence as word lists, wordless pieces skipped. */
  function Runs(pieces: seq<string>): seq<seq<string>> {
    if pieces == [] then []
    else (if Words(pieces[0]) == [] then [] else [Words(pieces[0])]) + Runs(pieces[1..])
  }

  function ClauseRuns(sentence: string): seq<seq<string>> {
    Runs(ClauseSplit(sentence, ""))
  }

  /** Word-index spans of consecutive runs, the first starting at `at`. */
  function Spans(runs: seq<seq<string>>, at: nat): seq<(nat, nat)> {
    if runs == [] then [] else [(at, at + |runs[0]|)] + Spans(runs[1..], at + |runs[0]|)
  }

  function ClauseBounds(sentence: string): seq<(nat, nat)> {
    var spans := Spans(ClauseRuns(sentence), 0);
    if spans == [] then [(0, |Words(sentence)|)] else spans
  }

  lemma SpansStep(pieces: seq<string>, i: nat, at: nat)
    requires i < |pieces|
    ensures var n := |Words(pieces[i])|;
            Spans(Runs(pieces[i..]), at)
            == (if n == 0 then [] else [(at, at + n)]) + Spans(Runs(pieces[i + 1..]), at + n)
  {
    var rest := pieces[i..];
    assert rest[1..] == pieces[i + 1..];
    assert [] + Runs(rest[1..]) == Runs(rest[1..]);
    assert ([Words(pieces[i])] + Runs(rest[1..]))[1..] == Runs(rest[1..]);
  }

  method ComputeClauseBounds(sentence: string) returns (bounds: seq<(nat, nat)>)
    ensures bounds == ClauseBounds(sentence)
  {
    var pieces := ClauseSplit(sentence, "");
    var at: nat := 0;
    ghost var spans := Spans(Runs(pieces), 0);
    bounds := [];
    assert pieces[0..] == pieces;
    for i := 0 to |pieces|
      invariant bounds + Spans(Runs(pieces[i..]), at) == spans
    {
      var n := |Words(pieces[i])|;
      SpansStep(pieces, i, at);
      if n != 0 {
        Assoc(bounds, [(at, at + n)], Spans(Runs(pieces[i + 1..]), at + n));
        bounds := bounds + [(at, at + n)];
        at := at + n;
      }
    }
    assert pieces[|pieces|..] == [];
    assert bounds + [] == bounds;
    if bounds == [] {
      bounds := [(0, |Words(sentence)|)];
    }
  }

  function ConcatRuns(runs: seq<seq<string>>): seq<string> {
    if runs == [] then [] else runs[0] + ConcatRuns(runs[1..])
  }

  lemma {:induction false} RunsKeepWords(pieces: seq<string>)
    ensures ConcatRuns(Runs(pieces)) == WordsOfAll(pieces)
    ensures forall k :: 0 <= k < |Runs(pieces)| ==> Runs(pieces)[k] != []
  {
    if pieces != [] {
      RunsKeepWords(pieces[1..]);
      var tail := Runs(pieces[1..]);
      if Words(pieces[0]) == [] {
        assert [] + tail == tail;
        assert [] + WordsOfAll(pieces[1..]) == WordsOfAll(pieces[1..]);
      } else {
        assert ([Words(pieces[0])] + tail)[1..] == tail;
      }
    }
  }

  lemma CutKeepsWords(cur: string, s: string)
    requires s != "" && IsSpace(s[0])
    ensures Words(cur + s) == Words(cur) + Words(LStrip(s[1..]))
  {
    WordsOfLStrip(s[1..]);
    WordsAtSpace(cur, s);
    assert s == [s[0]] + s[1..];
    WordsAtSpace([s[0]], s[1..]);
    BlankHasNoWords([s[0]]);
    assert [] + Words(s[1..]) == Words(s[1..]);
  }

  lemma {:induction false} ClauseSplitKeepsWords(s: string, cur: string)
    ensures WordsOfAll(ClauseSplit(s, cur)) == Words(cur + s)
    decreases |s|
  {
    if s == "" {
      assert cur + s == cur;
      assert [cur][1..] == [];
      assert Words(cur) + [] == Words(cur);
    } else if IsSpace(s[0]) && cur != "" && cur[|cur| - 1] in CLAUSE_ENDS {
      var rest := LStrip(s[1..]);
      ClauseSplitKeepsWords(rest, "");
      assert "" + rest == rest;
      CutKeepsWords(cur, s);
    } else {
      ClauseSplitKeepsWords(s[1..], cur + [s[0]]);
      assert cur + [s[0]] + s[1..] == cur + s;
    }
  }

  /** Cutting a sentence into clauses keeps its words and their order. */
  lemma ClauseRunsKeepWords(sentence: string)
    ensures ConcatRuns(ClauseRuns(sentence)) == Words(sentence)
    ensures forall k :: 0 <= k < |ClauseRuns(sentence)| ==> ClauseRuns(sentence)[k] != []
  {
    ClauseSplitKeepsWords(sentence, "");
    assert "" + sentence == sentence;
    RunsKeepWords(ClauseSplit(sentence, ""));
  }

  /** Spans that tile `lo..hi` without gap or overlap, each of them non-empty. */
  predicate Tiles(bounds: seq<(nat, nat)>, lo: nat, hi: nat) {
    if bounds == [] then lo == hi
    else bounds[0].0 == lo && lo < bounds[0].1 <= hi && Tiles(bounds[1..], bounds[0].1, hi)
  }

  lemma {:induction false} SpansTile(runs: seq<seq<string>>, at: nat)
    requires forall k :: 0 <= k < |runs| ==> runs[k] != []
    ensures Tiles(Spans(runs, at), at, at + |ConcatRuns(runs)|)
  {
    if runs != [] {
      var first := at + |runs[0]|;
      SpansTile(runs[1..], first);
      assert ([(at, first)] + Spans(runs[1..], first))[1..] == Spans(runs[1..], first);
    }
  }

  /** The clauses of a sentence with words tile its word indices exactly. */
  lemma BoundsTile(sentence: string)
    requires Words(sentence) != []
    ensures Tiles(ClauseBounds(sentence), 0, |Words(sentence)|)
  {
    ClauseRunsKeepWords(sentence);
    SpansTile(ClauseRuns(sentence), 0);
    assert ConcatRuns([]) == [];
  }

  // ----- the cue of one clause ---------------------------------------------------------

  function FirstCue(rules: Rules, words: seq<string>, i: nat, stop: nat): (r: Option<(nat, Gesture)>)
    requires i <= stop <= |words|
    ensures r.Some? ==> i <= r.value.0 < stop && r.value.1 != NoGesture && r.value.1 != Talk
    decreases stop - i
  {
    if i == stop then None
    else match rules.cue(words[i])
         case Some(g) => Some((i, g))
         case None => FirstCue(rules, words, i + 1, stop)
  }

  /** Word index and gesture for one clause: praise celebrates on its first word, otherwise
      the first word that belongs to a cue class. */
  function ClauseGesture(rules: Rules, words: seq<string>, start: nat, stop: nat): (r: Option<(nat, Gesture)>)
    requires start < stop <= |words|
    ensures r.Some? ==> start <= r.value.0 < stop && r.value.1 != NoGesture && r.value.1 != Talk
  {
    if rules.praise(Join(words[start..stop])) then Some((start, Celebrate))
    else FirstCue(rules, words, start, stop)
  }

  /** The delivery a sentence's last mark asks for. */
  function RStripClosers(s: string): string {
    if s != "" && s[|s| - 1] in CLOSERS then RStripClosers(s[..|s| - 1]) else s
  }

  function Genre(sentence: string): Option<string> {
    var tail := RStripClosers(RStrip(sentence));
    if tail == "" then None
    else if tail[|tail| - 1] == '?' then Some("question")
    else if tail[|tail| - 1] == '!' then Some("excited")
    else None
  }

  /** Does this leading clause earn a pause? */
  predicate LeadPause(rules: Rules, head: string) {
    var t := RStrip(head);
    t != "" && t[|t| - 1] == ',' && rules.interjection(head)
  }
}
