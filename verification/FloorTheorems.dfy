/** What the floor promises of every line: S1 (idempotent), S2 (the words never change),
    S3 (one mood, on the first chunk) and the anti-twitch limits of a whole line. */
module FloorTheorems {
  import opened Text
  import opened Segmenter
  import opened Wrappers
  import opened Speech
  import opened Vocab
  import opened AutoMarkup
  import opened Clauses
  import opened Floor

  // ----- S2: the words ----------------------------------------------------------------

  lemma {:induction false} TokenWordsConcat(a: seq<Token>, b: seq<Token>)
    ensures TokenWords(a + b) == TokenWords(a) + TokenWords(b)
  {
    if a == [] {
      assert a + b == b;
    } else {
      assert (a + b)[1..] == a[1..] + b;
      TokenWordsConcat(a[1..], b);
    }
  }

  predicate NoWords(ts: seq<Token>) {
    forall k :: 0 <= k < |ts| ==> !ts[k].W?
  }

  lemma {:induction false} NoWordsSpeakNothing(ts: seq<Token>)
    requires NoWords(ts)
    ensures TokenWords(ts) == []
  {
    if ts != [] {
      NoWordsSpeakNothing(ts[1..]);
    }
  }

  lemma WordStepSpeaks(words: seq<string>, i: nat, at: map<nat, Gesture>, pause: Option<nat>, wrapped: bool)
    requires i < |words|
    ensures TokenWords(WordStep(words, i, at, pause, wrapped)) == [words[i]]
  {
    var before := if !wrapped && i in at then [M(Tree(at[i], ""))] else [];
    var after := if pause == Some(i) then [M(Break(BREAK_TIME))] else [];
    TokenWordsConcat(before + [W(words[i])], after);
    TokenWordsConcat(before, [W(words[i])]);
    NoWordsSpeakNothing(before);
    NoWordsSpeakNothing(after);
  }

  lemma {:induction false} WordTokensSpeak(words: seq<string>, i: nat, at: map<nat, Gesture>,
                                           pause: Option<nat>, wrapped: bool)
    requires i <= |words|
    ensures TokenWords(WordTokens(words, i, at, pause, wrapped)) == words[i..]
    decreases |words| - i
  {
    if i < |words| {
      WordTokensSpeak(words, i + 1, at, pause, wrapped);
      WordStepSpeaks(words, i, at, pause, wrapped);
      TokenWordsConcat(WordStep(words, i, at, pause, wrapped), WordTokens(words, i + 1, at, pause, wrapped));
      assert words[i..] == [words[i]] + words[i + 1..];
    }
  }

  lemma {:induction false} SortedMarksNoWords(at: map<nat, Gesture>, i: nat, n: nat)
    requires i <= n
    ensures NoWords(SortedMarks(at, i, n))
    decreases n - i
  {
    if i < n {
      SortedMarksNoWords(at, i + 1, n);
    }
  }

  /** Marks before, between and after the words of a sentence add none. */
  lemma FramedSpeaks(open: seq<Token>, inner: seq<Token>, close: seq<Token>, after: seq<Token>, tail: seq<Token>)
    requires NoWords(open) && NoWords(close) && NoWords(after) && NoWords(tail)
    ensures TokenWords(open + inner + close + after + tail) == TokenWords(inner)
  {
    NoWordsSpeakNothing(open);
    NoWordsSpeakNothing(close);
    NoWordsSpeakNothing(after);
    NoWordsSpeakNothing(tail);
    TokenWordsConcat(open + inner + close + after, tail);
    TokenWordsConcat(open + inner + close, after);
    TokenWordsConcat(open + inner, close);
    TokenWordsConcat(open, inner);
  }

  lemma SentenceTokensSpeak(words: seq<string>, genre: Option<string>, at: map<nat, Gesture>,
                            pause: Option<nat>, tree: Option<string>)
    ensures TokenWords(SentenceTokens(words, genre, at, pause, tree)) == words
  {
    WordTokensSpeak(words, 0, at, pause, genre.Some?);
    var inner := WordTokens(words, 0, at, pause, genre.Some?);
    if genre.Some? {
      SortedMarksNoWords(at, 0, |words|);
      FramedSpeaks([O(genre.value)], inner, [C], SortedMarks(at, 0, |words|), Body(tree));
    } else {
      TokenWordsConcat(inner, Body(tree));
      NoWordsSpeakNothing(Body(tree));
    }
  }

  lemma OneSentenceSpeaks(line: Line, sentence: string, si: nat, emitted: nat)
    requires Words(sentence) != []
    ensures TokenWords(OneSentence(line, sentence, si, emitted)) == Words(sentence)
  {
    BoundsTile(sentence);
    var words := Words(sentence);
    var genre, at := Genre(sentence), GesturesAt(line, sentence, si, emitted).at;
    var pause := PauseAfter(line.rules, words, ClauseBounds(sentence));
    var tree := if HasTree(line, si) then line.tree else None;
    var lead := if si > 0 then [M(Break(BREAK_TIME))] else [];
    TokenWordsConcat(lead, SentenceTokens(words, genre, at, pause, tree));
    NoWordsSpeakNothing(lead);
    SentenceTokensSpeak(words, genre, at, pause, tree);
  }

  lemma {:induction false} LineSpeaks(line: Line, sentences: seq<string>, si: nat, emitted: nat)
    requires si <= |sentences| && Worded(sentences)
    ensures TokenWords(LineTokens(line, sentences, si, emitted)) == WordsOfAll(sentences[si..])
    decreases |sentences| - si
  {
    if si < |sentences| {
      var s := sentences[si];
      var next := GesturesAt(line, s, si, emitted).emitted;
      LineSpeaks(line, sentences, si + 1, next);
      OneSentenceSpeaks(line, s, si, emitted);
      TokenWordsConcat(OneSentence(line, s, si, emitted), LineTokens(line, sentences, si + 1, next));
      assert sentences[si..][1..] == sentences[si + 1..];
    }
  }

  lemma QuietEndsSpeak(open: seq<Token>, body: seq<Token>, close: seq<Token>)
    requires NoWords(open) && NoWords(close)
    ensures TokenWords(open + body + close) == TokenWords(body)
  {
    TokenWordsConcat(open + body, close);
    TokenWordsConcat(open, body);
    NoWordsSpeakNothing(open);
    NoWordsSpeakNothing(close);
  }

  lemma TokensSpeak(rules: Rules, ask: Ask, text: string, sentences: seq<string>)
    requires Worded(sentences)
    ensures TokenWords(Tokens(rules, ask, text, sentences)) == WordsOfAll(sentences)
  {
    var open, close := Opening(rules, ask, text), Closing(rules, ask, text);
    QuietEndsSpeak(open, LineTokens(TheLine(rules, ask, sentences), sentences, 0, 0), close);
    LineSpeaks(TheLine(rules, ask, sentences), sentences, 0, 0);
    assert sentences[0..] == sentences;
  }

  lemma {:induction false} SplitWithout(cs: string, s: string, cur: string)
    requires Without(cs, s) && Without(cs, cur)
    ensures forall w :: w in Split(s, cur) ==> Without(cs, w)
  {
    if s != "" {
      if IsSpace(s[0]) {
        SplitWithout(cs, s[1..], "");
      } else {
        WithoutConcat(cs, cur, [s[0]]);
        assert [s[0]][1..] == "";
        SplitWithout(cs, s[1..], cur + [s[0]]);
      }
    }
  }

  lemma {:induction false} CleanFromWords(ts: seq<Token>)
    requires forall w :: w in TokenWords(ts) ==> IsWord(w) && NoAngle(w)
    ensures CleanTokens(ts)
  {
    if ts != [] {
      CleanFromWords(ts[1..]);
    }
  }

  /** S2, for every text, table, hint and setting: the floor never changes a spoken word. */
  lemma FloorKeepsWords(u: Alphabet, mint: Mint, rules: Rules, ask: Ask, text: string)
    ensures StripMarkup(u, Annotated(u, mint, rules, ask, text)) == StripMarkup(u, text)
  {
    var sentences := Sentences(u, text);
    if Stageable(text) && sentences != [] {
      var ts := Tokens(rules, ask, text, sentences);
      TokensSpeak(rules, ask, text, sentences);
      SegmentKeepsWords(u, 0, text);
      SplitYieldsWords(text, "");
      SplitWithout("<>", text, "");
      CleanFromWords(ts);
      RenderingSpeaksTheText(u, mint, ts, text);
    }
  }

  // ----- S1: annotating twice ------------------------------------------------------------

  lemma {:induction false} TagsShow(ps: seq<Piece>)
    requires exists k :: 0 <= k < |ps| && ps[k].Tag?
    ensures !NoAngle(Flatten(ps))
  {
    WithoutConcat("<>", Write(ps[0]), Flatten(ps[1..]));
    if !ps[0].Tag? {
      var k :| 0 <= k < |ps| && ps[k].Tag?;
      assert ps[1..][k - 1] == ps[k];
      TagsShow(ps[1..]);
    }
  }

  lemma {:induction false} MarkInPieces(mint: Mint, ts: seq<Token>, space: bool, k: nat)
    requires k < |ts| && ts[k].M?
    ensures Tag(mint(ts[k].mark)) in Pieces(mint, ts, space)
  {
    if k > 0 {
      MarkInPieces(mint, ts[1..], SpaceAfter(ts[0], space), k - 1);
    }
  }

  /** S1: annotating what was annotated changes nothing, for any text and whatever the second
      caller asks for. The first pass changes the text exactly when it may be staged and holds
      a sentence. */
  lemma FloorIsIdempotent(u: Alphabet, mint: Mint, rules: Rules, ask: Ask, others: Rules, again: Ask, text: string)
    ensures var once := Annotated(u, mint, rules, ask, text);
            && Annotated(u, mint, others, again, once) == once
            && (once != text <==> Stageable(text) && Sentences(u, text) != [])
  {
    var sentences := Sentences(u, text);
    if Stageable(text) && sentences != [] {
      var ts := Tokens(rules, ask, text, sentences);
      var k := |ts| - |Closing(rules, ask, text)|;
      assert ts[k] == M(REST);
      MarkInPieces(mint, ts, false, k);
      TagsShow(Pieces(mint, ts, false));
    }
  }

  // ----- counting marks ---------------------------------------------------------------------

  function Count(kind: Mark -> bool, ts: seq<Token>): nat {
    if ts == [] then 0
    else (if ts[0].M? && kind(ts[0].mark) then 1 else 0) + Count(kind, ts[1..])
  }

  lemma {:induction false} CountConcat(kind: Mark -> bool, a: seq<Token>, b: seq<Token>)
    ensures Count(kind, a + b) == Count(kind, a) + Count(kind, b)
  {
    if a == [] {
      assert a + b == b;
    } else {
      assert (a + b)[1..] == a[1..] + b;
      CountConcat(kind, a[1..], b);
    }
  }

  predicate FreeOf(kind: Mark -> bool, ts: seq<Token>) {
    forall k :: 0 <= k < |ts| && ts[k].M? ==> !kind(ts[k].mark)
  }

  lemma {:induction false} CountFree(kind: Mark -> bool, ts: seq<Token>)
    requires FreeOf(kind, ts)
    ensures Count(kind, ts) == 0
  {
    if ts != [] {
      CountFree(kind, ts[1..]);
    }
  }

  /** How many gestures are placed from word `i` on. */
  function KeysFrom(keys: set<nat>, i: nat, n: nat): nat
    requires i <= n
    decreases n - i
  {
    if i == n then 0 else (if i in keys then 1 else 0) + KeysFrom(keys, i + 1, n)
  }

  lemma {:induction false} KeysFromIsSize(keys: set<nat>, i: nat, n: nat)
    requires i <= n && forall k :: k in keys ==> i <= k < n
    ensures KeysFrom(keys, i, n) == |keys|
    decreases n - i
  {
    if i < n {
      var rest := keys - {i};
      KeysFromIsSize(rest, i + 1, n);
      KeysFromAgrees(keys, rest, i + 1, n);
    } else {
      assert keys == {};
    }
  }

  lemma {:induction false} KeysFromAgrees(a: set<nat>, b: set<nat>, i: nat, n: nat)
    requires i <= n && forall k :: i <= k < n ==> (k in a <==> k in b)
    ensures KeysFrom(a, i, n) == KeysFrom(b, i, n)
    decreases n - i
  {
    if i < n {
      KeysFromAgrees(a, b, i + 1, n);
    }
  }

  lemma {:induction false} WordTokensCount(words: seq<string>, i: nat, at: map<nat, Gesture>,
                                           pause: Option<nat>, wrapped: bool)
    requires i <= |words|
    ensures Count(IsArm, WordTokens(words, i, at, pause, wrapped)) <= (if wrapped then 0 else KeysFrom(at.Keys, i, |words|))
    ensures FreeOf(IsBody, WordTokens(words, i, at, pause, wrapped))
    ensures FreeOf(IsMood, WordTokens(words, i, at, pause, wrapped))
    decreases |words| - i
  {
    if i < |words| {
      WordTokensCount(words, i + 1, at, pause, wrapped);
      WordStepCount(words, i, at, pause, wrapped);
      CountConcat(IsArm, WordStep(words, i, at, pause, wrapped), WordTokens(words, i + 1, at, pause, wrapped));
    }
  }

  lemma WordStepCount(words: seq<string>, i: nat, at: map<nat, Gesture>, pause: Option<nat>, wrapped: bool)
    requires i < |words|
    ensures var step := WordStep(words, i, at, pause, wrapped);
            && Count(IsArm, step) <= (if !wrapped && i in at then 1 else 0)
            && FreeOf(IsBody, step) && FreeOf(IsMood, step)
  {
    var before := if !wrapped && i in at then [M(Tree(at[i], ""))] else [];
    var after := if pause == Some(i) then [M(Break(BREAK_TIME))] else [];
    CountConcat(IsArm, before + [W(words[i])], after);
    CountConcat(IsArm, before, [W(words[i])]);
    CountFree(IsArm, after);
    CountFree(IsArm, [W(words[i])]);
  }

  lemma {:induction false} SortedMarksCount(at: map<nat, Gesture>, i: nat, n: nat)
    requires i <= n
    ensures Count(IsArm, SortedMarks(at, i, n)) <= KeysFrom(at.Keys, i, n)
    ensures FreeOf(IsBody, SortedMarks(at, i, n)) && FreeOf(IsMood, SortedMarks(at, i, n))
    decreases n - i
  {
    if i < n {
      SortedMarksCount(at, i + 1, n);
      CountConcat(IsArm, if i in at then [M(Tree(at[i], ""))] else [], SortedMarks(at, i + 1, n));
    }
  }

  lemma SentenceCounts(words: seq<string>, genre: Option<string>, at: map<nat, Gesture>,
                       pause: Option<nat>, tree: Option<string>)
    requires forall k :: k in at ==> k < |words|
    ensures var ts := SentenceTokens(words, genre, at, pause, tree);
            && Count(IsArm, ts) <= |at|
            && Count(IsBody, ts) <= (if tree.Some? then 1 else 0)
            && Count(IsMood, ts) == 0
  {
    KeysFromIsSize(at.Keys, 0, |words|);
    WordTokensCount(words, 0, at, pause, genre.Some?);
    var inner := WordTokens(words, 0, at, pause, genre.Some?);
    CountFree(IsBody, inner);
    CountFree(IsMood, inner);
    SentenceCountsOf(IsArm, words, genre, at, pause, tree);
    SentenceCountsOf(IsBody, words, genre, at, pause, tree);
    SentenceCountsOf(IsMood, words, genre, at, pause, tree);
    SortedMarksCount(at, 0, |words|);
    CountFree(IsBody, SortedMarks(at, 0, |words|));
    CountFree(IsMood, SortedMarks(at, 0, |words|));
  }

  lemma SentenceCountsOf(kind: Mark -> bool, words: seq<string>, genre: Option<string>, at: map<nat, Gesture>,
                         pause: Option<nat>, tree: Option<string>)
    ensures Count(kind, SentenceTokens(words, genre, at, pause, tree))
         == Count(kind, WordTokens(words, 0, at, pause, genre.Some?))
            + (if genre.Some? then Count(kind, SortedMarks(at, 0, |words|)) else 0)
            + (if tree.Some? && kind(Tree(NoGesture, tree.value)) then 1 else 0)
  {
    var inner := WordTokens(words, 0, at, pause, genre.Some?);
    assert Count(kind, Body(tree)) == if tree.Some? && kind(Tree(NoGesture, tree.value)) then 1 else 0;
    if genre.Some? {
      var open, after := [O(genre.value)], SortedMarks(at, 0, |words|);
      CountConcat(kind, open + inner + [C] + after, Body(tree));
      CountConcat(kind, open + inner + [C], after);
      CountConcat(kind, open + inner, [C]);
      CountConcat(kind, open, inner);
      CountFree(kind, open);
      CountFree(kind, [C]);
    } else {
      CountConcat(kind, inner, Body(tree));
    }
  }

  lemma OneSentenceCounts(line: Line, sentence: string, si: nat, emitted: nat)
    requires Words(sentence) != [] && emitted <= MAX_GESTURES_PER_LINE && (si == 0 ==> emitted == 0)
    ensures var ts := OneSentence(line, sentence, si, emitted);
            var p := GesturesAt(line, sentence, si, emitted);
            && Count(IsArm, ts) <= MAX_GESTURES_PER_SENTENCE
            && emitted + Count(IsArm, ts) <= p.emitted <= MAX_GESTURES_PER_LINE
            && Count(IsBody, ts) <= (if HasTree(line, si) then 1 else 0)
            && Count(IsMood, ts) == 0
  {
    BoundsTile(sentence);
    var words := Words(sentence);
    SentenceRules(line.rules, words, ClauseBounds(sentence), si, emitted, line.hint, HasTree(line, si));
    var at := GesturesAt(line, sentence, si, emitted).at;
    var pause := PauseAfter(line.rules, words, ClauseBounds(sentence));
    var tree := if HasTree(line, si) then line.tree else None;
    var laid := SentenceTokens(words, Genre(sentence), at, pause, tree);
    SentenceCounts(words, Genre(sentence), at, pause, tree);
    var lead := if si > 0 then [M(Break(BREAK_TIME))] else [];
    CountConcat(IsArm, lead, laid);
    CountConcat(IsBody, lead, laid);
    CountConcat(IsMood, lead, laid);
    CountFree(IsArm, lead);
    CountFree(IsBody, lead);
    CountFree(IsMood, lead);
  }

  lemma {:induction false} LineCounts(line: Line, sentences: seq<string>, si: nat, emitted: nat)
    requires si <= |sentences| && Worded(sentences)
    requires emitted <= MAX_GESTURES_PER_LINE && (si == 0 ==> emitted == 0)
    ensures var ts := LineTokens(line, sentences, si, emitted);
            && emitted + Count(IsArm, ts) <= MAX_GESTURES_PER_LINE
            && Count(IsBody, ts) <= (if si <= line.treeAt then 1 else 0)
            && Count(IsMood, ts) == 0
    decreases |sentences| - si
  {
    if si < |sentences| {
      var one := OneSentence(line, sentences[si], si, emitted);
      var next := GesturesAt(line, sentences[si], si, emitted).emitted;
      OneSentenceCounts(line, sentences[si], si, emitted);
      LineCounts(line, sentences, si + 1, next);
      var rest := LineTokens(line, sentences, si + 1, next);
      CountConcat(IsArm, one, rest);
      CountConcat(IsBody, one, rest);
      CountConcat(IsMood, one, rest);
    }
  }

  /** The limits of a whole line, rest poses excluded: at most six arm gestures and one
      whole-body tree; exactly one mood on the first chunk and none on a later one. */
  lemma LineRules(rules: Rules, ask: Ask, text: string, sentences: seq<string>)
    requires Worded(sentences)
    ensures var ts := Tokens(rules, ask, text, sentences);
            && Count(IsArm, ts) <= MAX_GESTURES_PER_LINE
            && Count(IsBody, ts) <= 1
            && Count(IsMood, ts) == (if ask.chunkIndex == 0 then 1 else 0)
  {
    var line := TheLine(rules, ask, sentences);
    var body := LineTokens(line, sentences, 0, 0);
    LineCounts(line, sentences, 0, 0);
    FrameCounts(IsArm, rules, ask, text, body);
    FrameCounts(IsBody, rules, ask, text, body);
    FrameCounts(IsMood, rules, ask, text, body);
  }

  lemma FrameCounts(kind: Mark -> bool, rules: Rules, ask: Ask, text: string, body: seq<Token>)
    requires !kind(REST) && !kind(IconsClear) && !kind(Audio("stinger")) && forall v :: !kind(Icons(v))
    ensures var mood := LineMood(rules, ask, text);
            Count(kind, Opening(rules, ask, text) + body + Closing(rules, ask, text))
            == Count(kind, body) + (if ask.chunkIndex == 0 && kind(Mood(mood.0, ClampIntensity(mood.1))) then 1 else 0)
  {
    var icon := if ask.icons then rules.icon(text) else None;
    var mood := LineMood(rules, ask, text);
    var a := if icon.Some? then [M(Icons(icon.value))] else [];
    var b := if ask.chunkIndex == 0 then [M(Mood(mood.0, ClampIntensity(mood.1)))] else [];
    var c := if ask.sfx && mood.0 == MOOD_HAPPY && rules.praise(text) then [M(Audio("stinger"))] else [];
    var open, close := Opening(rules, ask, text), Closing(rules, ask, text);
    assert open == a + b + c;
    CountConcat(kind, open + body, close);
    CountConcat(kind, open, body);
    CountConcat(kind, a + b, c);
    CountConcat(kind, a, b);
    CountFree(kind, a);
    CountFree(kind, c);
    CountFree(kind, close);
  }
}
