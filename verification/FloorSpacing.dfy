/** The anti-twitch rules for talking gestures, stated of the marks a line emits: how many
    words are spoken between them, and after the last of them. */
module FloorSpacing {
  import opened Text
  import opened Segmenter
  import opened Wrappers
  import opened Speech
  import opened Vocab
  import opened AutoMarkup
  import opened Clauses
  import opened Floor
  import opened FloorTheorems

  // ----- where the talking gestures stand ------------------------------------------------

  const TALK_MARK: Mark := Tree(Talk, "")

  /** For each talking gesture, in order, how many words are spoken before it; `spoken` words
      came before the stream. */
  function TalkPlaces(ts: seq<Token>, spoken: nat): seq<nat> {
    if ts == [] then []
    else if ts[0] == M(TALK_MARK) then [spoken] + TalkPlaces(ts[1..], spoken)
    else TalkPlaces(ts[1..], spoken + if ts[0].W? then 1 else 0)
  }

  /** At least `TALK_EVERY` words between any two. */
  ghost predicate Apart(places: seq<nat>) {
    forall i, j :: 0 <= i < j < |places| ==> places[i] + TALK_EVERY <= places[j]
  }

  /** More than the last `TALK_TAIL` words of `n` are still to come at each of them. */
  ghost predicate ClearOfTail(places: seq<nat>, n: nat) {
    forall i :: 0 <= i < |places| ==> places[i] + TALK_TAIL < n
  }

  /** The word indices of the placed talking gestures from `i` on. */
  function TalkKeys(at: map<nat, Gesture>, i: nat, n: nat): seq<nat>
    requires i <= n
    decreases n - i
  {
    if i == n then [] else (if i in at && at[i] == Talk then [i] else []) + TalkKeys(at, i + 1, n)
  }

  function Shifted(keys: seq<nat>, start: nat): (r: seq<nat>)
    ensures |r| == |keys| && forall k :: 0 <= k < |r| ==> r[k] == start + keys[k]
  {
    seq(|keys|, k requires 0 <= k < |keys| => start + keys[k])
  }

  function Repeated(x: nat, times: nat): (r: seq<nat>)
    ensures |r| == times && forall k :: 0 <= k < |r| ==> r[k] == x
  {
    seq(times, _ => x)
  }

  lemma {:induction false} PlacesConcat(a: seq<Token>, b: seq<Token>, spoken: nat)
    ensures TalkPlaces(a + b, spoken) == TalkPlaces(a, spoken) + TalkPlaces(b, spoken + |TokenWords(a)|)
  {
    if a == [] {
      assert a + b == b;
    } else {
      assert (a + b)[1..] == a[1..] + b;
      PlacesConcat(a[1..], b, spoken + if a[0].W? then 1 else 0);
    }
  }

  lemma {:induction false} NoTalkNoPlaces(ts: seq<Token>, spoken: nat)
    requires M(TALK_MARK) !in ts
    ensures TalkPlaces(ts, spoken) == []
  {
    if ts != [] {
      NoTalkNoPlaces(ts[1..], spoken + if ts[0].W? then 1 else 0);
    }
  }

  /** In an unwrapped sentence each gesture stands before its word. */
  lemma {:induction false} WordPlaces(words: seq<string>, i: nat, at: map<nat, Gesture>, pause: Option<nat>, spoken: nat)
    requires i <= |words|
    ensures TalkPlaces(WordTokens(words, i, at, pause, false), spoken + i) == Shifted(TalkKeys(at, i, |words|), spoken)
    decreases |words| - i
  {
    if i < |words| {
      var one, rest := WordStep(words, i, at, pause, false), WordTokens(words, i + 1, at, pause, false);
      WordPlaces(words, i + 1, at, pause, spoken);
      StepPlaces(words, i, at, pause, spoken);
      WordStepSpeaks(words, i, at, pause, false);
      PlacesConcat(one, rest, spoken + i);
      var here := if i in at && at[i] == Talk then [i] else [];
      assert TalkKeys(at, i, |words|) == here + TalkKeys(at, i + 1, |words|);
      assert TalkPlaces(one, spoken + i) == Shifted(here, spoken);
      ShiftedConcat(here, TalkKeys(at, i + 1, |words|), spoken);
    }
  }

  lemma ShiftedConcat(a: seq<nat>, b: seq<nat>, start: nat)
    ensures Shifted(a + b, start) == Shifted(a, start) + Shifted(b, start)
  {
  }

  lemma StepPlaces(words: seq<string>, i: nat, at: map<nat, Gesture>, pause: Option<nat>, spoken: nat)
    requires i < |words|
    ensures TalkPlaces(WordStep(words, i, at, pause, false), spoken + i)
         == if i in at && at[i] == Talk then [spoken + i] else []
  {
    var before := if i in at then [M(Tree(at[i], ""))] else [];
    var after := [W(words[i])] + (if pause == Some(i) then [M(Break(BREAK_TIME))] else []);
    assert WordStep(words, i, at, pause, false) == before + after;
    PlacesConcat(before, after, spoken + i);
    NoTalkNoPlaces(after, spoken + i + |TokenWords(before)|);
    if i in at {
      assert before[1..] == [];
    }
  }

  lemma {:induction false} WrappedHasNoTalk(words: seq<string>, i: nat, at: map<nat, Gesture>, pause: Option<nat>)
    requires i <= |words|
    ensures M(TALK_MARK) !in WordTokens(words, i, at, pause, true)
    decreases |words| - i
  {
    if i < |words| {
      WrappedHasNoTalk(words, i + 1, at, pause);
    }
  }

  /** A wrapped sentence writes all of its gestures side by side. */
  lemma {:induction false} SortedPlaces(at: map<nat, Gesture>, i: nat, n: nat, spoken: nat)
    requires i <= n
    ensures TalkPlaces(SortedMarks(at, i, n), spoken) == Repeated(spoken, |TalkKeys(at, i, n)|)
    decreases n - i
  {
    if i < n {
      SortedPlaces(at, i + 1, n, spoken);
      OneMarkPlaces(if i in at then [M(Tree(at[i], ""))] else [], SortedMarks(at, i + 1, n), spoken);
      var m := |TalkKeys(at, i + 1, n)|;
      assert Repeated(spoken, 1 + m) == [spoken] + Repeated(spoken, m);
    }
  }

  lemma OneMarkPlaces(mark: seq<Token>, rest: seq<Token>, spoken: nat)
    requires |mark| <= 1 && NoWords(mark)
    ensures TalkPlaces(mark + rest, spoken)
         == (if mark == [M(TALK_MARK)] then [spoken] else []) + TalkPlaces(rest, spoken)
  {
    PlacesConcat(mark, rest, spoken);
    NoWordsSpeakNothing(mark);
    if mark != [] {
      assert mark[1..] == [];
    }
  }

  /** Where a sentence's talking gestures stand: before their words, or, in a delivery span,
      all of them after its last word. */
  function SentencePlaces(at: map<nat, Gesture>, n: nat, wrapped: bool, spoken: nat): seq<nat> {
    if wrapped then Repeated(spoken + n, |TalkKeys(at, 0, n)|) else Shifted(TalkKeys(at, 0, n), spoken)
  }

  lemma LaidPlaces(words: seq<string>, genre: Option<string>, at: map<nat, Gesture>, pause: Option<nat>,
                   tree: Option<string>, spoken: nat)
    ensures TalkPlaces(SentenceTokens(words, genre, at, pause, tree), spoken)
         == SentencePlaces(at, |words|, genre.Some?, spoken)
  {
    var inner := WordTokens(words, 0, at, pause, genre.Some?);
    WordTokensSpeak(words, 0, at, pause, genre.Some?);
    if genre.Some? {
      WrappedPlaces(words, genre.value, at, pause, tree, spoken);
    } else {
      PlacesConcat(inner, Body(tree), spoken);
      WordPlaces(words, 0, at, pause, spoken);
      NoTalkNoPlaces(Body(tree), spoken + |words|);
    }
  }

  lemma WrappedPlaces(words: seq<string>, genre: string, at: map<nat, Gesture>, pause: Option<nat>,
                      tree: Option<string>, spoken: nat)
    ensures TalkPlaces(SentenceTokens(words, Some(genre), at, pause, tree), spoken)
         == Repeated(spoken + |words|, |TalkKeys(at, 0, |words|)|)
  {
    var inner, after := WordTokens(words, 0, at, pause, true), SortedMarks(at, 0, |words|);
    WordTokensSpeak(words, 0, at, pause, true);
    assert words[0..] == words;
    WrappedHasNoTalk(words, 0, at, pause);
    SpanSpeaks(genre, inner);
    QuietAround([O(genre)] + inner + [C], after, Body(tree), spoken);
    SortedPlaces(at, 0, |words|, spoken + |words|);
  }

  lemma SpanSpeaks(genre: string, inner: seq<Token>)
    ensures TokenWords([O(genre)] + inner + [C]) == TokenWords(inner)
  {
    TokenWordsConcat([O(genre)] + inner, [C]);
    TokenWordsConcat([O(genre)], inner);
    NoWordsSpeakNothing([O(genre)]);
    NoWordsSpeakNothing([C]);
  }

  lemma QuietAround(span: seq<Token>, after: seq<Token>, tail: seq<Token>, spoken: nat)
    requires M(TALK_MARK) !in span && M(TALK_MARK) !in tail
    ensures TalkPlaces(span + after + tail, spoken) == TalkPlaces(after, spoken + |TokenWords(span)|)
  {
    PlacesConcat(span + after, tail, spoken);
    PlacesConcat(span, after, spoken);
    NoTalkNoPlaces(span, spoken);
    NoTalkNoPlaces(tail, spoken + |TokenWords(span + after)|);
  }

  // ----- where they are placed --------------------------------------------------------------

  lemma {:induction false} TalkKeysAre(at: map<nat, Gesture>, i: nat, n: nat)
    requires i <= n
    ensures forall k :: k in TalkKeys(at, i, n) <==> i <= k < n && k in at && at[k] == Talk
    ensures forall a, b :: 0 <= a < b < |TalkKeys(at, i, n)| ==> TalkKeys(at, i, n)[a] < TalkKeys(at, i, n)[b]
    decreases n - i
  {
    if i < n {
      TalkKeysAre(at, i + 1, n);
      var rest := TalkKeys(at, i + 1, n);
      assert forall a :: 0 <= a < |rest| ==> rest[a] in rest;
    }
  }

  lemma {:induction false} TalkStart(rules: Rules, si: nat, pos: nat, n: nat, p: Placed)
    ensures forall k :: k in TalkFrom(rules, si, pos, n, p).at && k !in p.at ==> pos <= k
    decreases n - pos
  {
    if pos + TALK_TAIL < n && p.Room() {
      TalkStart(rules, si, pos + TALK_EVERY, n, TryTalk(rules, si, pos, p));
    }
  }

  /** A talking gesture is placed at word 5 or later and clear of the tail, or is the hint. */
  ghost predicate TalkPlaced(at: map<nat, Gesture>, n: nat, hinted: bool) {
    && Spaced(at) && (forall k :: k in at ==> k < n)
    && (forall k :: k in at && at[k] == Talk && !(hinted && k == 0) ==> TALK_EVERY <= k && k + TALK_TAIL < n)
    && (hinted ==> 0 in at && at[0] == Talk)
  }

  predicate Hinted(si: nat, hint: Option<Gesture>) {
    si == 0 && hint == Some(Talk)
  }

  /** What the last stage of a placement adds to the carried gestures. */
  ghost predicate Adds(at: map<nat, Gesture>, before: map<nat, Gesture>, n: nat) {
    && (forall k :: k in before ==> k in at && at[k] == before[k])
    && (forall k :: k in at && k !in before ==> TALK_EVERY <= k && k + TALK_TAIL < n)
  }

  lemma TalkFromAdds(rules: Rules, si: nat, pos: nat, n: nat, p: Placed)
    requires pos >= TALK_EVERY
    ensures Adds(TalkFrom(rules, si, pos, n, p).at, p.at, n)
  {
    TalkOnlyAdds(rules, si, pos, n, p);
    TalkStart(rules, si, pos, n, p);
  }

  lemma GesturesAdd(rules: Rules, words: seq<string>, bounds: seq<(nat, nat)>, si: nat, emitted: nat,
                    hint: Option<Gesture>, hasTree: bool)
    requires Tiles(bounds, 0, |words|)
    ensures Adds(Gestures(rules, words, bounds, si, emitted, hint, hasTree).at,
                 Carried(rules, words, bounds, si, emitted, hint, hasTree).at, |words|)
  {
    var c := Carried(rules, words, bounds, si, emitted, hint, hasTree);
    TalkFromAdds(rules, si, MaxKey(c.at, |words|) + TALK_EVERY, |words|, c);
  }

  lemma PlacementRules(rules: Rules, words: seq<string>, bounds: seq<(nat, nat)>, si: nat, emitted: nat,
                       hint: Option<Gesture>, hasTree: bool)
    requires Tiles(bounds, 0, |words|) && words != []
    requires emitted <= MAX_GESTURES_PER_LINE && (si == 0 ==> emitted == 0)
    ensures TalkPlaced(Gestures(rules, words, bounds, si, emitted, hint, hasTree).at, |words|, Hinted(si, hint))
  {
    SentenceRules(rules, words, bounds, si, emitted, hint, hasTree);
    CarriedRules(rules, words, bounds, si, emitted, hint, hasTree);
    GesturesAdd(rules, words, bounds, si, emitted, hint, hasTree);
    TalkIsPlaced(Gestures(rules, words, bounds, si, emitted, hint, hasTree).at,
                 Carried(rules, words, bounds, si, emitted, hint, hasTree).at, |words|, Hinted(si, hint));
  }

  /** Talking gestures added to a placement whose only one is the hint. */
  lemma TalkIsPlaced(at: map<nat, Gesture>, before: map<nat, Gesture>, n: nat, hinted: bool)
    requires Spaced(at) && Adds(at, before, n) && forall k :: k in at ==> k < n
    requires forall k :: k in before && before[k] == Talk ==> k == 0 && hinted
    requires hinted ==> 0 in before && before[0] == Talk
    ensures TalkPlaced(at, n, hinted)
  {
  }

  // ----- one sentence ---------------------------------------------------------------------------

  function TalksPlaced(at: map<nat, Gesture>, n: nat): nat {
    |TalkKeys(at, 0, n)|
  }

  lemma PlacesApart(at: map<nat, Gesture>, n: nat, hinted: bool, wrapped: bool, spoken: nat)
    requires TalkPlaced(at, n, hinted)
    ensures Apart(SentencePlaces(at, n, wrapped, spoken)) <==> !wrapped || TalksPlaced(at, n) < 2
  {
    TalkKeysAre(at, 0, n);
    var keys, places := TalkKeys(at, 0, n), SentencePlaces(at, n, wrapped, spoken);
    if !wrapped {
      forall i, j | 0 <= i < j < |places| ensures places[i] + TALK_EVERY <= places[j] {
        assert keys[i] in keys && keys[j] in keys && keys[i] < keys[j];
      }
    } else if TalksPlaced(at, n) >= 2 {
      assert places[0] == places[1];
    }
  }

  lemma PlacesClear(at: map<nat, Gesture>, n: nat, hinted: bool, wrapped: bool)
    requires TalkPlaced(at, n, hinted) && n > 0
    ensures ClearOfTail(SentencePlaces(at, n, wrapped, 0), n)
            <==> if wrapped then TalksPlaced(at, n) == 0 else !(hinted && n <= TALK_TAIL)
  {
    TalkKeysAre(at, 0, n);
    var keys, places := TalkKeys(at, 0, n), SentencePlaces(at, n, wrapped, 0);
    if wrapped {
      if TalksPlaced(at, n) > 0 {
        assert places[0] == n;
      }
    } else {
      forall i | 0 <= i < |places| ensures places[i] in keys {
        assert places[i] == keys[i];
      }
      if hinted && n <= TALK_TAIL {
        assert 0 in keys;
        var i :| 0 <= i < |keys| && keys[i] == 0;
        assert places[i] == 0;
      }
    }
  }

  lemma SentencePlacesAre(line: Line, sentence: string, si: nat, emitted: nat, spoken: nat)
    requires Words(sentence) != [] && emitted <= MAX_GESTURES_PER_LINE && (si == 0 ==> emitted == 0)
    ensures var at, n := GesturesAt(line, sentence, si, emitted).at, |Words(sentence)|;
            && TalkPlaces(OneSentence(line, sentence, si, emitted), spoken) == SentencePlaces(at, n, Genre(sentence).Some?, spoken)
            && TalkPlaced(at, n, Hinted(si, line.hint))
  {
    BoundsTile(sentence);
    var words := Words(sentence);
    var bounds := ClauseBounds(sentence);
    var at := GesturesAt(line, sentence, si, emitted).at;
    var lead := if si > 0 then [M(Break(BREAK_TIME))] else [];
    var tree := if HasTree(line, si) then line.tree else None;
    var pause := PauseAfter(line.rules, words, bounds);
    var laid := SentenceTokens(words, Genre(sentence), at, pause, tree);
    PlacementRules(line.rules, words, bounds, si, emitted, line.hint, HasTree(line, si));
    PlacesConcat(lead, laid, spoken);
    NoTalkNoPlaces(lead, spoken);
    NoWordsSpeakNothing(lead);
    LaidPlaces(words, Genre(sentence), at, pause, tree, spoken);
  }

  /** The talking gestures a sentence emits have at least five words between them if and only
      if it is not wrapped in a delivery span, or fewer than two of them were placed. */
  lemma SentenceSpacing(line: Line, sentence: string, si: nat, emitted: nat)
    requires Words(sentence) != [] && emitted <= MAX_GESTURES_PER_LINE && (si == 0 ==> emitted == 0)
    ensures Apart(TalkPlaces(OneSentence(line, sentence, si, emitted), 0))
            <==> Genre(sentence).None? || TalksPlaced(GesturesAt(line, sentence, si, emitted).at, |Words(sentence)|) < 2
  {
    SentencePlacesAre(line, sentence, si, emitted, 0);
    PlacesApart(GesturesAt(line, sentence, si, emitted).at, |Words(sentence)|, Hinted(si, line.hint), Genre(sentence).Some?, 0);
  }

  /** None of them stands in or after the last two words if and only if none was placed in a
      wrapped sentence, and in another one no hint of that gesture fell on a first sentence
      of at most two words. */
  lemma SentenceTail(line: Line, sentence: string, si: nat, emitted: nat)
    requires Words(sentence) != [] && emitted <= MAX_GESTURES_PER_LINE && (si == 0 ==> emitted == 0)
    ensures ClearOfTail(TalkPlaces(OneSentence(line, sentence, si, emitted), 0), |Words(sentence)|)
            <==> if Genre(sentence).Some? then TalksPlaced(GesturesAt(line, sentence, si, emitted).at, |Words(sentence)|) == 0
                 else !(si == 0 && line.hint == Some(Talk) && |Words(sentence)| <= TALK_TAIL)
  {
    SentencePlacesAre(line, sentence, si, emitted, 0);
    PlacesClear(GesturesAt(line, sentence, si, emitted).at, |Words(sentence)|, Hinted(si, line.hint), Genre(sentence).Some?);
  }

  // ----- a whole line -------------------------------------------------------------------------------

  /** All of them at `from + TALK_EVERY` or later, or, when a hint may stand first, at `from`. */
  ghost predicate Within(places: seq<nat>, from: nat, to: nat, hinted: bool) {
    forall i :: 0 <= i < |places| ==> places[i] <= to && (hinted || from + TALK_EVERY <= places[i])
  }

  lemma SentenceWithin(at: map<nat, Gesture>, n: nat, hinted: bool, wrapped: bool, spoken: nat)
    requires TalkPlaced(at, n, hinted)
    ensures Within(SentencePlaces(at, n, wrapped, spoken), spoken, spoken + n, hinted)
  {
    TalkKeysAre(at, 0, n);
    var keys, places := TalkKeys(at, 0, n), SentencePlaces(at, n, wrapped, spoken);
    forall i | 0 <= i < |places| ensures places[i] <= spoken + n && (hinted || spoken + TALK_EVERY <= places[i]) {
      assert keys[i] in keys;
    }
  }

  lemma JoinedApart(a: seq<nat>, b: seq<nat>, mid: nat)
    requires forall i :: 0 <= i < |a| ==> a[i] <= mid
    requires forall i :: 0 <= i < |b| ==> mid + TALK_EVERY <= b[i]
    ensures Apart(a + b) <==> Apart(a) && Apart(b)
  {
    var all := a + b;
    if Apart(all) {
      assert forall i :: 0 <= i < |a| ==> a[i] == all[i];
      forall i, j | 0 <= i < j < |b| ensures b[i] + TALK_EVERY <= b[j] {
        assert b[i] == all[|a| + i] && b[j] == all[|a| + j];
      }
    }
  }

  /** A line laid down sentence by sentence, whatever a sentence is: its tokens and the
      gestures emitted after it, by index and gestures emitted before it. */
  function ChainTokens(lay: (nat, nat) -> seq<Token>, next: (nat, nat) -> nat, n: nat, i: nat, emitted: nat): seq<Token>
    requires i <= n
    decreases n - i
  {
    if i == n then [] else lay(i, emitted) + ChainTokens(lay, next, n, i + 1, next(i, emitted))
  }

  predicate ChainCalm(calm: (nat, nat) -> bool, next: (nat, nat) -> nat, n: nat, i: nat, emitted: nat)
    requires i <= n
    decreases n - i
  {
    i == n || (calm(i, emitted) && ChainCalm(calm, next, n, i + 1, next(i, emitted)))
  }

  predicate Reachable(i: nat, emitted: nat) {
    emitted <= MAX_GESTURES_PER_LINE && (i == 0 ==> emitted == 0)
  }

  /** What one sentence does to the talking gestures. */
  ghost predicate Lays(ts: seq<Token>, size: nat, calm: bool, first: bool) {
    && |TokenWords(ts)| == size
    && forall spoken: nat {:trigger TalkPlaces(ts, spoken)} ::
         (Apart(TalkPlaces(ts, spoken)) <==> calm) && Within(TalkPlaces(ts, spoken), spoken, spoken + size, first)
  }

  ghost predicate LateFrom(places: seq<nat>, from: nat) {
    forall i :: 0 <= i < |places| ==> from + TALK_EVERY <= places[i]
  }

  lemma {:induction false} ChainPlaces(lay: (nat, nat) -> seq<Token>, next: (nat, nat) -> nat, calm: (nat, nat) -> bool,
                                       size: nat -> nat, n: nat, i: nat, emitted: nat, spoken: nat)
    requires i <= n && Reachable(i, emitted)
    requires forall k: nat, e: nat {:trigger lay(k, e)} :: k < n && Reachable(k, e) ==>
               Lays(lay(k, e), size(k), calm(k, e), k == 0) && next(k, e) <= MAX_GESTURES_PER_LINE
    ensures var places := TalkPlaces(ChainTokens(lay, next, n, i, emitted), spoken);
            (Apart(places) <==> ChainCalm(calm, next, n, i, emitted)) && (i > 0 ==> LateFrom(places, spoken))
    decreases n - i
  {
    if i < n {
      var one, e := lay(i, emitted), next(i, emitted);
      assert Lays(one, size(i), calm(i, emitted), i == 0);
      ChainPlaces(lay, next, calm, size, n, i + 1, e, spoken + size(i));
      LinkPlaces(one, ChainTokens(lay, next, n, i + 1, e), size(i), calm(i, emitted),
                 ChainCalm(calm, next, n, i + 1, e), i == 0, spoken);
    }
  }

  /** One sentence before the rest of the line. */
  lemma LinkPlaces(one: seq<Token>, rest: seq<Token>, size: nat, calm: bool, restCalm: bool, first: bool, spoken: nat)
    requires Lays(one, size, calm, first)
    requires var later := TalkPlaces(rest, spoken + size);
             (Apart(later) <==> restCalm) && LateFrom(later, spoken + size)
    ensures var places := TalkPlaces(one + rest, spoken);
            (Apart(places) <==> calm && restCalm) && (!first ==> LateFrom(places, spoken))
  {
    PlacesConcat(one, rest, spoken);
    JoinedApart(TalkPlaces(one, spoken), TalkPlaces(rest, spoken + size), spoken + size);
  }

  predicate CalmSentence(line: Line, sentence: string, si: nat, emitted: nat)
    requires Words(sentence) != []
  {
    Genre(sentence).None? || TalksPlaced(GesturesAt(line, sentence, si, emitted).at, |Words(sentence)|) < 2
  }

  lemma SentenceLays(line: Line, s: string, si: nat, emitted: nat)
    requires Words(s) != [] && Reachable(si, emitted)
    ensures Lays(OneSentence(line, s, si, emitted), |Words(s)|, CalmSentence(line, s, si, emitted), si == 0)
  {
    OneSentenceSpeaks(line, s, si, emitted);
    var ts := OneSentence(line, s, si, emitted);
    forall spoken: nat {:trigger TalkPlaces(ts, spoken)}
      ensures Apart(TalkPlaces(ts, spoken)) <==> CalmSentence(line, s, si, emitted)
      ensures Within(TalkPlaces(ts, spoken), spoken, spoken + |Words(s)|, si == 0)
    {
      SentenceLaysAt(line, s, si, emitted, spoken);
    }
  }

  lemma SentenceLaysAt(line: Line, s: string, si: nat, emitted: nat, spoken: nat)
    requires Words(s) != [] && Reachable(si, emitted)
    ensures Apart(TalkPlaces(OneSentence(line, s, si, emitted), spoken)) <==> CalmSentence(line, s, si, emitted)
    ensures Within(TalkPlaces(OneSentence(line, s, si, emitted), spoken), spoken, spoken + |Words(s)|, si == 0)
  {
    var n, at := |Words(s)|, GesturesAt(line, s, si, emitted).at;
    SentencePlacesAre(line, s, si, emitted, spoken);
    PlacesApart(at, n, Hinted(si, line.hint), Genre(s).Some?, spoken);
    SentenceWithin(at, n, Hinted(si, line.hint), Genre(s).Some?, spoken);
  }

  function LaySentenceAt(line: Line, sentences: seq<string>): (nat, nat) -> seq<Token> {
    (i: nat, e: nat) => if i < |sentences| && Words(sentences[i]) != [] then OneSentence(line, sentences[i], i, e) else []
  }

  function EmittedAfter(line: Line, sentences: seq<string>): (nat, nat) -> nat {
    (i: nat, e: nat) => if i < |sentences| && Words(sentences[i]) != [] then GesturesAt(line, sentences[i], i, e).emitted else 0
  }

  function CalmAt(line: Line, sentences: seq<string>): (nat, nat) -> bool {
    (i: nat, e: nat) => i < |sentences| && Words(sentences[i]) != [] && CalmSentence(line, sentences[i], i, e)
  }

  lemma {:induction false} LineIsChain(line: Line, sentences: seq<string>, si: nat, emitted: nat)
    requires si <= |sentences| && Worded(sentences)
    ensures LineTokens(line, sentences, si, emitted)
         == ChainTokens(LaySentenceAt(line, sentences), EmittedAfter(line, sentences), |sentences|, si, emitted)
    decreases |sentences| - si
  {
    if si < |sentences| {
      LineIsChain(line, sentences, si + 1, EmittedAfter(line, sentences)(si, emitted));
    }
  }

  /** No sentence is wrapped around two or more talking gestures. */
  predicate NoneTouch(line: Line, sentences: seq<string>) {
    ChainCalm(CalmAt(line, sentences), EmittedAfter(line, sentences), |sentences|, 0, 0)
  }

  lemma LinePlaces(line: Line, sentences: seq<string>)
    requires Worded(sentences)
    ensures Apart(TalkPlaces(LineTokens(line, sentences, 0, 0), 0)) <==> NoneTouch(line, sentences)
  {
    var lay, next, calm := LaySentenceAt(line, sentences), EmittedAfter(line, sentences), CalmAt(line, sentences);
    var size := SizeAt(sentences);
    forall k: nat, e: nat {:trigger lay(k, e)} | k < |sentences| && Reachable(k, e)
      ensures Lays(lay(k, e), size(k), calm(k, e), k == 0) && next(k, e) <= MAX_GESTURES_PER_LINE
    {
      LaidAt(line, sentences, k, e);
    }
    LineIsChain(line, sentences, 0, 0);
    ChainPlaces(lay, next, calm, size, |sentences|, 0, 0, 0);
  }

  function SizeAt(sentences: seq<string>): nat -> nat {
    (k: nat) => if k < |sentences| then |Words(sentences[k])| else 0
  }

  lemma LaidAt(line: Line, sentences: seq<string>, k: nat, e: nat)
    requires Worded(sentences) && k < |sentences| && Reachable(k, e)
    ensures Lays(LaySentenceAt(line, sentences)(k, e), SizeAt(sentences)(k), CalmAt(line, sentences)(k, e), k == 0)
    ensures EmittedAfter(line, sentences)(k, e) <= MAX_GESTURES_PER_LINE
  {
    SentenceLays(line, sentences[k], k, e);
    OneSentenceCounts(line, sentences[k], k, e);
  }

  lemma FramePlaces(rules: Rules, ask: Ask, text: string, body: seq<Token>)
    ensures TalkPlaces(Opening(rules, ask, text) + body + Closing(rules, ask, text), 0) == TalkPlaces(body, 0)
  {
    var open, close := Opening(rules, ask, text), Closing(rules, ask, text);
    PlacesConcat(open + body, close, 0);
    PlacesConcat(open, body, 0);
    FrameIsQuiet(rules, ask, text);
    NoTalkNoPlaces(open, 0);
    NoWordsSpeakNothing(open);
    NoTalkNoPlaces(close, |TokenWords(open + body)|);
  }

  lemma FrameIsQuiet(rules: Rules, ask: Ask, text: string)
    ensures M(TALK_MARK) !in Opening(rules, ask, text) && NoWords(Opening(rules, ask, text))
    ensures M(TALK_MARK) !in Closing(rules, ask, text)
  {
  }

  /** The spacing rule of a whole line, for every text, table and hint: all talking gestures
      have at least five words between them if and only if no sentence was wrapped around two
      or more. */
  lemma LineSpacing(rules: Rules, ask: Ask, text: string, sentences: seq<string>)
    requires Worded(sentences)
    ensures Apart(TalkPlaces(Tokens(rules, ask, text, sentences), 0))
            <==> NoneTouch(TheLine(rules, ask, sentences), sentences)
  {
    var line := TheLine(rules, ask, sentences);
    LinePlaces(line, sentences);
    FramePlaces(rules, ask, text, LineTokens(line, sentences, 0, 0));
  }

  // ----- the rules broken ------------------------------------------------------------------------------

  /** A line without cues, whose digest lets every talking gesture through. */
  const CHATTY := Rules(
    _ => (0, 0), _ => None, _ => None, _ => false, _ => None, [], {}, _ => None, _ => false, (_, _) => true)

  /** A question of 14 words and no cue: two talking gestures, no word between them and none
      after them. */
  lemma WrappedTalksTouch(words: seq<string>, pause: Option<nat>)
    requires |words| == 14
    ensures var at := Gestures(CHATTY, words, [(0, 14)], 0, 0, None, false).at;
            && at == map[5 := Talk, 10 := Talk]
            && TalkPlaces(SentenceTokens(words, Some("question"), at, pause, None), 0) == [14, 14]
  {
    ChattyPlacement(words);
    TwoKeys();
    TwoTalksTouch(words, map[5 := Talk, 10 := Talk], pause);
  }

  lemma TwoTalksTouch(words: seq<string>, at: map<nat, Gesture>, pause: Option<nat>)
    requires |words| == 14 && |TalkKeys(at, 0, 14)| == 2
    ensures TalkPlaces(SentenceTokens(words, Some("question"), at, pause, None), 0) == [14, 14]
  {
    WrappedPlaces(words, "question", at, pause, None, 0);
    assert Repeated(14, 2) == [14, 14];
  }

  lemma ChattyPlacement(words: seq<string>)
    requires |words| == 14
    ensures Gestures(CHATTY, words, [(0, 14)], 0, 0, None, false).at == map[5 := Talk, 10 := Talk]
  {
    var none := Placed(map[], 0, 0);
    NoCueNoGesture(words, 0, 14);
    NoMaxKey(14);
    ChattyTalks();
    assert [(0, 14)][1..] == [];
    assert Carry(CHATTY, words, [(0, 14)], 0, none) == none;
  }

  lemma ChattyTalks()
    ensures TalkFrom(CHATTY, 0, 5, 14, Placed(map[], 0, 0)).at == map[5 := Talk, 10 := Talk]
  {
    var none := Placed(map[], 0, 0);
    var one := none.Add(5, Talk);
    var two := one.Add(10, Talk);
    assert TalkFrom(CHATTY, 0, 15, 14, two) == two;
    assert TalkFrom(CHATTY, 0, 10, 14, one) == two;
  }

  lemma {:induction false} NoCueNoGesture(words: seq<string>, i: nat, stop: nat)
    requires i <= stop <= |words|
    ensures FirstCue(CHATTY, words, i, stop) == None
    decreases stop - i
  {
    if i < stop {
      NoCueNoGesture(words, i + 1, stop);
    }
  }

  lemma {:induction false} NoMaxKey(n: nat)
    ensures MaxKey(map[], n) == 0
  {
    if n > 0 {
      NoMaxKey(n - 1);
    }
  }

  /** Words without a talking gesture are passed over. */
  lemma {:induction false} KeysSkip(at: map<nat, Gesture>, i: nat, j: nat, n: nat)
    requires i <= j <= n && forall k :: i <= k < j ==> k !in at
    ensures TalkKeys(at, i, n) == TalkKeys(at, j, n)
    decreases j - i
  {
    if i < j {
      KeysSkip(at, i + 1, j, n);
    }
  }

  lemma TwoKeys()
    ensures TalkKeys(map[5 := Talk, 10 := Talk], 0, 14) == [5, 10]
  {
    var at := map[5 := Talk, 10 := Talk];
    KeysSkip(at, 0, 5, 14);
    KeysSkip(at, 6, 10, 14);
    KeysSkip(at, 11, 14, 14);
    assert TalkKeys(at, 10, 14) == [10];
    assert TalkKeys(at, 5, 14) == [5] + TalkKeys(at, 6, 14);
  }
}
