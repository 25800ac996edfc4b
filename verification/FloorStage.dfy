/** A floor line as it is emitted: what stands around each of its words, sentence by sentence,
    and what the line opens and closes with. */
module FloorStage {
  import opened Basics
  import opened Text
  import opened Segmenter
  import opened Wrappers
  import opened Speech
  import opened Vocab
  import opened AutoMarkup
  import opened Clauses
  import opened ClauseTheorems
  import opened Floor
  import opened FloorTheorems
  import opened FloorMarks
  import FloorSpacing

  // ----- the tokens around a word --------------------------------------------------------------

  /** Everything but words that has exactly `k` words before it. */
  function Around(ts: seq<Token>, k: nat): seq<Token> {
    if ts == [] then []
    else if ts[0].W? then (if k == 0 then [] else Around(ts[1..], k - 1))
    else (if k == 0 then [ts[0]] else []) + Around(ts[1..], k)
  }

  lemma {:induction false} AroundConcat(a: seq<Token>, b: seq<Token>, k: nat)
    ensures var n := |TokenWords(a)|;
            Around(a + b, k) == Around(a, k) + (if k >= n then Around(b, k - n) else [])
  {
    if a == [] {
      assert a + b == b;
      assert [] + Around(b, k) == Around(b, k);
    } else {
      var t := a[1..];
      assert (a + b)[0] == a[0] && (a + b)[1..] == t + b;
      if !a[0].W? {
        AroundConcat(t, b, k);
        Assoc(if k == 0 then [a[0]] else [], Around(t, k), if k >= |TokenWords(t)| then Around(b, k - |TokenWords(t)|) else []);
      } else if k > 0 {
        AroundConcat(t, b, k - 1);
      }
    }
  }

  lemma {:induction false} AroundQuiet(ts: seq<Token>, k: nat)
    requires NoWords(ts)
    ensures Around(ts, k) == if k == 0 then ts else []
    ensures TokenWords(ts) == []
  {
    if ts != [] {
      AroundQuiet(ts[1..], k);
    }
  }

  function Arm(at: map<nat, Gesture>, k: nat): seq<Token> {
    if k in at then [M(Tree(at[k], ""))] else []
  }

  function Pause(here: bool): seq<Token> {
    if here then [M(Break(BREAK_TIME))] else []
  }

  lemma StepAround(words: seq<string>, i: nat, at: map<nat, Gesture>, pause: Option<nat>, wrapped: bool, k: nat)
    requires i < |words|
    ensures Around(WordStep(words, i, at, pause, wrapped), k)
         == if k == 0 then (if wrapped then [] else Arm(at, i)) else if k == 1 then Pause(pause == Some(i)) else []
  {
    var before := if wrapped then [] else Arm(at, i);
    var word, after := [W(words[i])], Pause(pause == Some(i));
    assert WordStep(words, i, at, pause, wrapped) == before + (word + after);
    AroundConcat(before, word + after, k);
    AroundConcat(word, after, k);
    AroundQuiet(before, k);
    AroundWord(words[i], k);
    if k >= 1 {
      AroundQuiet(after, k - 1);
    }
    assert [] + Around(word + after, k) == Around(word + after, k);
  }

  lemma AroundWord(w: string, k: nat)
    ensures Around([W(w)], k) == [] && TokenWords([W(w)]) == [w]
  {
    assert [W(w)][1..] == [];
  }

  function ArmAt(n: nat, at: map<nat, Gesture>, wrapped: bool, k: nat): seq<Token> {
    if wrapped || k >= n then [] else Arm(at, k)
  }

  /** What stands before word `j`, `behind` saying whether a word of the sentence comes first. */
  function Inner(n: nat, at: map<nat, Gesture>, pause: Option<nat>, wrapped: bool, j: nat, behind: bool): seq<Token>
    requires behind ==> j > 0
  {
    if behind then Pause(pause == Some(j - 1)) + ArmAt(n, at, wrapped, j) else ArmAt(n, at, wrapped, j)
  }

  /** The tokens around word `m` of the words from `j` on, whatever lays them. */
  type Layer = (nat, nat) -> seq<Token>

  function LayerOf(words: seq<string>, at: map<nat, Gesture>, pause: Option<nat>, wrapped: bool): Layer {
    (j: nat, m: nat) => if j <= |words| then Around(WordTokens(words, j, at, pause, wrapped), m) else []
  }

  predicate LayerStep(f: Layer, n: nat, at: map<nat, Gesture>, pause: Option<nat>, wrapped: bool, j: nat, m: nat) {
    f(j, m) == if j >= n then []
               else if m == 0 then ArmAt(n, at, wrapped, j)
               else if m == 1 then Pause(pause == Some(j)) + f(j + 1, 0)
               else f(j + 1, m - 1)
  }

  lemma WordsAroundStep(words: seq<string>, i: nat, at: map<nat, Gesture>, pause: Option<nat>, wrapped: bool, k: nat)
    requires i < |words|
    ensures var rest := WordTokens(words, i + 1, at, pause, wrapped);
            Around(WordTokens(words, i, at, pause, wrapped), k)
            == if k == 0 then ArmAt(|words|, at, wrapped, i)
               else if k == 1 then Pause(pause == Some(i)) + Around(rest, 0)
               else Around(rest, k - 1)
  {
    var rest := WordTokens(words, i + 1, at, pause, wrapped);
    StepAround(words, i, at, pause, wrapped, k);
    WordStepSpeaks(words, i, at, pause, wrapped);
    AroundConcat(WordStep(words, i, at, pause, wrapped), rest, k);
    if k == 0 {
      NothingFirst(ArmAt(|words|, at, wrapped, i));
    } else {
      NothingFirst(Around(rest, k - 1));
    }
  }

  lemma LayersStep(words: seq<string>, at: map<nat, Gesture>, pause: Option<nat>, wrapped: bool, j: nat, m: nat)
    ensures LayerStep(LayerOf(words, at, pause, wrapped), |words|, at, pause, wrapped, j, m)
  {
    if j < |words| {
      WordsAroundStep(words, j, at, pause, wrapped, m);
    } else if j == |words| {
      assert WordTokens(words, j, at, pause, wrapped) == [];
    }
  }

  lemma {:induction false} LayersAreInner(f: Layer, n: nat, at: map<nat, Gesture>, pause: Option<nat>, wrapped: bool, i: nat, k: nat)
    requires i + k <= n
    requires forall j: nat, m: nat :: LayerStep(f, n, at, pause, wrapped, j, m)
    ensures f(i, k) == Inner(n, at, pause, wrapped, i + k, k > 0)
    decreases k
  {
    assert LayerStep(f, n, at, pause, wrapped, i, k);
    if k > 0 {
      LayersAreInner(f, n, at, pause, wrapped, i + 1, k - 1);
    }
  }

  /** Around the words of a sentence: the pause after the word before, then the gesture. */
  lemma WordsAround(words: seq<string>, at: map<nat, Gesture>, pause: Option<nat>, wrapped: bool, k: nat)
    requires k <= |words|
    ensures Around(WordTokens(words, 0, at, pause, wrapped), k) == Inner(|words|, at, pause, wrapped, k, k > 0)
  {
    var f := LayerOf(words, at, pause, wrapped);
    forall j: nat, m: nat ensures LayerStep(f, |words|, at, pause, wrapped, j, m) {
      LayersStep(words, at, pause, wrapped, j, m);
    }
    LayersAreInner(f, |words|, at, pause, wrapped, 0, k);
  }

  lemma NothingFirst(ts: seq<Token>)
    ensures [] + ts == ts && ts + [] == ts
  {
  }

  // ----- one sentence -------------------------------------------------------------------------------

  /** A sentence as staged: its gestures by word, its delivery, the word it pauses after, its
      whole-body tree, the gestures put behind a delivery span, and its tokens. */
  datatype Staging = Staging(at: map<nat, Gesture>, genre: Option<string>, pause: Option<nat>, tree: Option<string>,
                             arms: seq<Token>, tokens: seq<Token>)

  /** All gestures of the sentence, by word. */
  ghost predicate InOrder(arms: seq<Token>, at: map<nat, Gesture>, keys: seq<nat>) {
    && |arms| == |keys| && (forall i :: 0 <= i < |keys| ==> keys[i] in at && arms[i] == M(Tree(at[keys[i]], "")))
    && (forall i, j :: 0 <= i < j < |keys| ==> keys[i] < keys[j]) && forall k :: k in at ==> k in keys
  }

  /** What stands around word `k` of `n`: before the first a pause, unless the line begins, and
      the opening of the span; behind a leading interjection a pause; before a word its gesture,
      unless the sentence is in a span; behind the last the end of the span, the gestures it
      held back, and the tree. */
  function AroundWordOf(s: Staging, si: nat, n: nat, k: nat): seq<Token> {
    (if k == 0 && si > 0 then [M(Break(BREAK_TIME))] else [])
    + (if k == 0 && s.genre.Some? then [O(s.genre.value)] else [])
    + (if k > 0 && s.pause == Some(k - 1) then [M(Break(BREAK_TIME))] else [])
    + (if s.genre.None? && k < n && k in s.at then [M(Tree(s.at[k], ""))] else [])
    + (if k == n && s.genre.Some? then [C] + s.arms else [])
    + (if k == n && s.tree.Some? then [M(Tree(NoGesture, s.tree.value))] else [])
  }

  ghost predicate Lays(s: Staging, words: seq<string>, si: nat) {
    && TokenWords(s.tokens) == words
    && (exists keys :: InOrder(s.arms, s.at, keys))
    && forall k: nat :: k <= |words| ==> Around(s.tokens, k) == AroundWordOf(s, si, |words|, k)
  }

  lemma {:induction false} SortedInOrder(at: map<nat, Gesture>, i: nat, n: nat) returns (keys: seq<nat>)
    requires i <= n && forall k :: k in at ==> k < n
    ensures var arms := SortedMarks(at, i, n);
            && |arms| == |keys| && (forall j :: 0 <= j < |keys| ==> i <= keys[j] && keys[j] in at && arms[j] == M(Tree(at[keys[j]], "")))
            && (forall j, k :: 0 <= j < k < |keys| ==> keys[j] < keys[k]) && forall k :: k in at && i <= k ==> k in keys
    decreases n - i
  {
    if i == n {
      keys := [];
    } else {
      var rest := SortedInOrder(at, i + 1, n);
      keys := (if i in at then [i] else []) + rest;
    }
  }

  /** A span around its words, with what stands before and behind it. */
  lemma FrameAround(before: seq<Token>, inner: seq<Token>, behind: seq<Token>, k: nat)
    requires NoWords(before) && NoWords(behind)
    ensures Around(before + inner + behind, k)
         == (if k == 0 then before else []) + Around(inner, k) + (if k == |TokenWords(inner)| then behind else [])
    ensures TokenWords(before + inner + behind) == TokenWords(inner)
  {
    var n := |TokenWords(inner)|;
    AroundQuiet(before, k);
    TokenWordsConcat(before + inner, behind);
    TokenWordsConcat(before, inner);
    AroundConcat(before + inner, behind, k);
    AroundConcat(before, inner, k);
    AroundQuiet(behind, if k >= n then k - n else 0);
    assert [] + TokenWords(inner) == TokenWords(inner);
  }

  function Before(si: nat, genre: Option<string>): seq<Token> {
    (if si > 0 then [M(Break(BREAK_TIME))] else []) + (if genre.Some? then [O(genre.value)] else [])
  }

  function Behind(s: Staging): seq<Token> {
    (if s.genre.Some? then [C] + s.arms else []) + Body(s.tree)
  }

  lemma LaidTokens(words: seq<string>, s: Staging, si: nat)
    requires s.arms == SortedMarks(s.at, 0, |words|)
    ensures Pause(si > 0) + SentenceTokens(words, s.genre, s.at, s.pause, s.tree)
         == Before(si, s.genre) + WordTokens(words, 0, s.at, s.pause, s.genre.Some?) + Behind(s)
  {
    var lead, inner := Pause(si > 0), WordTokens(words, 0, s.at, s.pause, s.genre.Some?);
    if s.genre.Some? {
      RegroupSpan(lead, [O(s.genre.value)], inner, [C], s.arms, Body(s.tree));
    } else {
      NothingFirst(lead);
      NothingFirst(Body(s.tree));
      Assoc(lead, inner, Body(s.tree));
    }
  }

  lemma RegroupSpan(a: seq<Token>, b: seq<Token>, c: seq<Token>, d: seq<Token>, e: seq<Token>, f: seq<Token>)
    ensures a + (b + c + d + e + f) == (a + b) + c + (d + e + f)
  {
  }

  lemma Regroup(a: seq<Token>, b: seq<Token>, c: seq<Token>, d: seq<Token>, e: seq<Token>, f: seq<Token>)
    ensures (a + b) + (c + d) + (e + f) == a + b + c + d + e + f
  {
  }

  lemma QuietMarks(words: seq<string>, s: Staging, si: nat)
    requires s.arms == SortedMarks(s.at, 0, |words|)
    ensures NoWords(Before(si, s.genre)) && NoWords(Behind(s))
  {
    SortedMarksNoWords(s.at, 0, |words|);
  }

  lemma LaidAround(words: seq<string>, s: Staging, si: nat, k: nat)
    requires s.arms == SortedMarks(s.at, 0, |words|) && k <= |words|
    requires s.tokens == Pause(si > 0) + SentenceTokens(words, s.genre, s.at, s.pause, s.tree)
    ensures Around(s.tokens, k) == AroundWordOf(s, si, |words|, k)
  {
    LaidTokens(words, s, si);
    QuietMarks(words, s, si);
    var n, inner := |words|, WordTokens(words, 0, s.at, s.pause, s.genre.Some?);
    FrameAround(Before(si, s.genre), inner, Behind(s), k);
    WordTokensSpeak(words, 0, s.at, s.pause, s.genre.Some?);
    WordsAround(words, s.at, s.pause, s.genre.Some?, k);
    assert words[0..] == words;
    AroundParts(s, si, n, k);
  }

  lemma AroundParts(s: Staging, si: nat, n: nat, k: nat)
    ensures AroundWordOf(s, si, n, k)
         == (if k == 0 then Before(si, s.genre) else [])
            + Inner(n, s.at, s.pause, s.genre.Some?, k, k > 0)
            + (if k == n then Behind(s) else [])
  {
    var a, b := Pause(k == 0 && si > 0), if k == 0 && s.genre.Some? then [O(s.genre.value)] else [];
    var c, d := if k > 0 then Pause(s.pause == Some(k - 1)) else [], ArmAt(n, s.at, s.genre.Some?, k);
    var e, f := if k == n && s.genre.Some? then [C] + s.arms else [], if k == n then Body(s.tree) else [];
    assert (if k == 0 then Before(si, s.genre) else []) == a + b;
    assert (if k == n then Behind(s) else []) == e + f;
    NothingFirst(d);
    Regroup(a, b, c, d, e, f);
  }

  lemma SentenceLays(words: seq<string>, s: Staging, si: nat)
    requires s.arms == SortedMarks(s.at, 0, |words|) && forall k :: k in s.at ==> k < |words|
    requires s.tokens == Pause(si > 0) + SentenceTokens(words, s.genre, s.at, s.pause, s.tree)
    ensures Lays(s, words, si)
  {
    forall k: nat | k <= |words| ensures Around(s.tokens, k) == AroundWordOf(s, si, |words|, k) {
      LaidAround(words, s, si, k);
    }
    var keys := SortedInOrder(s.at, 0, |words|);
    assert InOrder(s.arms, s.at, keys);
    SentenceTokensSpeak(words, s.genre, s.at, s.pause, s.tree);
    TokenWordsConcat(Pause(si > 0), SentenceTokens(words, s.genre, s.at, s.pause, s.tree));
  }

  // ----- what a sentence's marks are chosen by ---------------------------------------------------------

  /** A known gesture hint, the rest pose not being one. */
  predicate HintIs(rules: Rules, ask: Ask, g: Gesture) {
    ask.gestureHint != "" && rules.gestureAlias(ask.gestureHint) == Some(g) && g != NoGesture
  }

  /** Sentence `si` is the first that matches cue `c`, and no earlier cue matches any. */
  ghost predicate FirstCued(cues: seq<(string -> bool, string)>, sentences: seq<string>, c: nat, si: nat) {
    && c < |cues| && si < |sentences| && cues[c].0(sentences[si])
    && (forall j :: 0 <= j < si ==> !cues[c].0(sentences[j]))
    && forall b, j :: 0 <= b < c && 0 <= j < |sentences| ==> !cues[b].0(sentences[j])
  }

  /** The whole-body tree of sentence `si`: a known look on the first one, whatever is cued;
      else, if trees are on, the cued one on the sentence that cues it. */
  ghost predicate TreeIs(rules: Rules, ask: Ask, sentences: seq<string>, si: nat, name: string) {
    if ask.look != "" && ask.look in rules.gazeTrees then si == 0 && name == ask.look
    else ask.trees && exists c: nat :: FirstCued(rules.treeCues, sentences, c, si) && rules.treeCues[c].1 == name
  }

  /** A pause follows word `i`: it ends the first of several clauses with a comma, and that
      clause is an interjection. */
  predicate PausesAfter(rules: Rules, words: seq<string>, i: nat) {
    && i + 1 < |words| && IsClause(words, 0, i + 1)
    && words[i][|words[i]| - 1] == ',' && rules.interjection(Join(words[..i + 1]))
  }

  /** The delivery, the pause and the tree are those its text and the tables call for. */
  ghost predicate Chosen(rules: Rules, ask: Ask, sentences: seq<string>, si: nat, s: Staging)
    requires si < |sentences|
  {
    && (s.genre == Some("question") <==> EndsIn(sentences[si], '?')) && (s.genre == Some("excited") <==> EndsIn(sentences[si], '!'))
    && (s.genre.Some? ==> s.genre.value == "question" || s.genre.value == "excited")
    && (forall i: nat :: s.pause == Some(i) <==> PausesAfter(rules, Words(sentences[si]), i))
    && (forall name :: s.tree == Some(name) <==> TreeIs(rules, ask, sentences, si, name))
  }

  /** One sentence of the line, `emitted` gestures into it. */
  ghost predicate Stages(rules: Rules, ask: Ask, sentences: seq<string>, si: nat, hint: Option<Gesture>, emitted: nat, s: Staging)
    requires si < |sentences|
  {
    && Lays(s, Words(sentences[si]), si)
    && Placement(rules, Words(sentences[si]), si, emitted, hint, s.tree.Some?, s.at)
    && Chosen(rules, ask, sentences, si, s)
  }

  /** How a sentence is staged, by its place, the gestures before it, and its staging. */
  type Rule = (nat, nat, Staging) -> bool

  ghost function StagingRule(rules: Rules, ask: Ask, sentences: seq<string>, hint: Option<Gesture>): Rule {
    (si: nat, emitted: nat, s: Staging) => si < |sentences| && Stages(rules, ask, sentences, si, hint, emitted, s)
  }

  /** Sentences `si..n`, each staged by the rule, `emitted` counting the gestures so far. */
  ghost predicate StagesFrom(rule: Rule, n: nat, si: nat, emitted: nat, parts: seq<Staging>)
    decreases |parts|
  {
    if parts == [] then si == n
    else rule(si, emitted, parts[0]) && StagesFrom(rule, n, si + 1, emitted + |parts[0].at|, parts[1..])
  }

  function TokensOf(parts: seq<Staging>): seq<Token> {
    if parts == [] then [] else parts[0].tokens + TokensOf(parts[1..])
  }

  lemma {:induction false} FirstMatchIs(cue: string -> bool, sentences: seq<string>, si: nat)
    requires si <= |sentences|
    ensures var r := FirstMatch(cue, sentences, si);
            && (r.None? ==> forall j :: si <= j < |sentences| ==> !cue(sentences[j]))
            && (r.Some? ==> cue(sentences[r.value]) && forall j :: si <= j < r.value ==> !cue(sentences[j]))
    decreases |sentences| - si
  {
    if si < |sentences| {
      FirstMatchIs(cue, sentences, si + 1);
    }
  }

  lemma FirstCuedLater(cues: seq<(string -> bool, string)>, sentences: seq<string>, c: nat, si: nat)
    requires cues != [] && forall j :: 0 <= j < |sentences| ==> !cues[0].0(sentences[j])
    ensures c > 0 ==> (FirstCued(cues, sentences, c, si) <==> FirstCued(cues[1..], sentences, c - 1, si))
    ensures !FirstCued(cues, sentences, 0, si)
  {
    if c > 0 && FirstCued(cues[1..], sentences, c - 1, si) {
      forall b, j | 0 <= b < c && 0 <= j < |sentences| ensures !cues[b].0(sentences[j]) {
        if b > 0 {
          assert cues[b] == cues[1..][b - 1];
        }
      }
    }
    if c > 0 && FirstCued(cues, sentences, c, si) {
      forall b, j | 0 <= b < c - 1 && 0 <= j < |sentences| ensures !cues[1..][b].0(sentences[j]) {
        assert cues[b + 1] == cues[1..][b];
      }
    }
  }

  /** The cued tree and its sentence. */
  lemma {:induction false} CuedTreeIs(cues: seq<(string -> bool, string)>, sentences: seq<string>, si: nat, name: string)
    ensures CuedTree(cues, sentences) == (si as int, Some(name))
            <==> exists c: nat :: FirstCued(cues, sentences, c, si) && cues[c].1 == name
  {
    if cues != [] {
      FirstMatchIs(cues[0].0, sentences, 0);
      if FirstMatch(cues[0].0, sentences, 0).Some? {
        var k := FirstMatch(cues[0].0, sentences, 0).value;
        assert FirstCued(cues, sentences, 0, k);
        OnlyFirstCue(cues, sentences, k, si, name);
      } else {
        CuedTreeIs(cues[1..], sentences, si, name);
        forall c: nat ensures c > 0 ==> (FirstCued(cues, sentences, c, si) <==> FirstCued(cues[1..], sentences, c - 1, si)) {
          FirstCuedLater(cues, sentences, c, si);
        }
        FirstCuedLater(cues, sentences, 0, si);
        if c: nat :| FirstCued(cues[1..], sentences, c, si) && cues[1..][c].1 == name {
          assert FirstCued(cues, sentences, c + 1, si) && cues[c + 1].1 == name;
        }
        if c: nat :| FirstCued(cues, sentences, c, si) && cues[c].1 == name {
          assert FirstCued(cues[1..], sentences, c - 1, si) && cues[1..][c - 1].1 == name;
        }
      }
    }
  }

  lemma OnlyFirstCue(cues: seq<(string -> bool, string)>, sentences: seq<string>, k: nat, si: nat, name: string)
    requires FirstCued(cues, sentences, 0, k)
    ensures (exists c: nat :: FirstCued(cues, sentences, c, si) && cues[c].1 == name) <==> si == k && name == cues[0].1
  {
    if c: nat :| FirstCued(cues, sentences, c, si) && cues[c].1 == name {
      assert c == 0;
    }
  }

  lemma LineTreeIs(rules: Rules, ask: Ask, sentences: seq<string>, si: nat, name: string)
    requires si < |sentences|
    ensures var line := TheLine(rules, ask, sentences);
            HasTree(line, si) && line.tree == Some(name) <==> TreeIs(rules, ask, sentences, si, name)
  {
    if ask.trees {
      CuedTreeIs(rules.treeCues, sentences, si, name);
    }
  }

  lemma LeadingClause(sentence: string)
    requires Words(sentence) != []
    ensures var words, bounds := Words(sentence), ClauseBounds(sentence);
            && bounds != [] && 0 < bounds[0].1 <= |words| && (|bounds| > 1 <==> bounds[0].1 < |words|)
            && forall b: nat :: IsClause(words, 0, b) <==> b == bounds[0].1
  {
    var words, bounds := Words(sentence), ClauseBounds(sentence);
    BoundsTile(sentence);
    BoundsAreClauses(sentence, 0, bounds[0].1);
    assert bounds[0] in bounds;
    forall b: nat | IsClause(words, 0, b) ensures b == bounds[0].1 {
      SameClause(words, 0, bounds[0].1, 0, b);
    }
    assert |bounds| > 1 ==> Tiles(bounds[1..], bounds[0].1, |words|) && bounds[1..] != [];
  }

  lemma PauseIs(rules: Rules, sentence: string, i: nat)
    requires Words(sentence) != [] && Tiles(ClauseBounds(sentence), 0, |Words(sentence)|)
    ensures PauseAfter(rules, Words(sentence), ClauseBounds(sentence)) == Some(i) <==> PausesAfter(rules, Words(sentence), i)
  {
    var words, bounds := Words(sentence), ClauseBounds(sentence);
    LeadingClause(sentence);
    SplitYieldsWords(sentence, "");
    var lead := words[..bounds[0].1];
    LeadPauseIs(rules, lead);
    assert lead[|lead| - 1] == words[bounds[0].1 - 1];
  }

  function StagingOf(line: Line, sentence: string, si: nat, emitted: nat): Staging
    requires Words(sentence) != []
  {
    BoundsTile(sentence);
    var words, at := Words(sentence), GesturesAt(line, sentence, si, emitted).at;
    Staging(at, Genre(sentence), PauseAfter(line.rules, words, ClauseBounds(sentence)),
            if HasTree(line, si) then line.tree else None, SortedMarks(at, 0, |words|), OneSentence(line, sentence, si, emitted))
  }

  lemma SentencePlaced(line: Line, sentence: string, si: nat, emitted: nat)
    requires Words(sentence) != [] && Possible(si, emitted)
    ensures Placement(line.rules, Words(sentence), si, emitted, line.hint, HasTree(line, si), GesturesAt(line, sentence, si, emitted).at)
  {
    BoundsTile(sentence);
    forall a: nat, b: nat ensures (a, b) in ClauseBounds(sentence) <==> IsClause(Words(sentence), a, b) {
      BoundsAreClauses(sentence, a, b);
    }
    GesturesAre(line.rules, Words(sentence), ClauseBounds(sentence), si, emitted, line.hint, HasTree(line, si));
  }

  lemma SentenceCounted(line: Line, sentence: string, si: nat, emitted: nat)
    requires Words(sentence) != [] && Possible(si, emitted)
    ensures var p := GesturesAt(line, sentence, si, emitted); WithinCaps(p, emitted, |Words(sentence)|)
  {
    BoundsTile(sentence);
    SentenceRules(line.rules, Words(sentence), ClauseBounds(sentence), si, emitted, line.hint, HasTree(line, si));
  }

  lemma SentenceLaid(line: Line, sentence: string, si: nat, emitted: nat)
    requires Words(sentence) != [] && Possible(si, emitted)
    ensures Lays(StagingOf(line, sentence, si, emitted), Words(sentence), si)
  {
    SentenceCounted(line, sentence, si, emitted);
    SentenceLays(Words(sentence), StagingOf(line, sentence, si, emitted), si);
  }

  lemma SentenceChosen(rules: Rules, ask: Ask, sentences: seq<string>, si: nat, emitted: nat)
    requires si < |sentences| && Words(sentences[si]) != []
    ensures Chosen(rules, ask, sentences, si, StagingOf(TheLine(rules, ask, sentences), sentences[si], si, emitted))
  {
    var sentence := sentences[si];
    var s := StagingOf(TheLine(rules, ask, sentences), sentence, si, emitted);
    GenreIs(sentence);
    BoundsTile(sentence);
    forall i: nat ensures s.pause == Some(i) <==> PausesAfter(rules, Words(sentence), i) {
      PauseIs(rules, sentence, i);
    }
    forall name ensures s.tree == Some(name) <==> TreeIs(rules, ask, sentences, si, name) {
      LineTreeIs(rules, ask, sentences, si, name);
    }
  }

  lemma SentenceStaged(rules: Rules, ask: Ask, sentences: seq<string>, si: nat, emitted: nat)
    requires si < |sentences| && Words(sentences[si]) != [] && Possible(si, emitted)
    ensures var line := TheLine(rules, ask, sentences);
            StagingRule(rules, ask, sentences, line.hint)(si, emitted, StagingOf(line, sentences[si], si, emitted))
  {
    var line := TheLine(rules, ask, sentences);
    SentenceLaid(line, sentences[si], si, emitted);
    SentencePlaced(line, sentences[si], si, emitted);
    SentenceChosen(rules, ask, sentences, si, emitted);
  }

  predicate Possible(si: nat, emitted: nat) {
    emitted <= MAX_GESTURES_PER_LINE && (si == 0 ==> emitted == 0)
  }

  const NO_STAGING := Staging(map[], None, None, None, [], [])

  function StageAt(line: Line, sentences: seq<string>): (nat, nat) -> Staging {
    (i: nat, e: nat) => if i < |sentences| && Words(sentences[i]) != [] then StagingOf(line, sentences[i], i, e) else NO_STAGING
  }

  /** A line sentence by sentence, whatever a sentence is. */
  function PartsFrom(stage: (nat, nat) -> Staging, n: nat, si: nat, emitted: nat): seq<Staging>
    requires si <= n
    decreases n - si
  {
    if si == n then [] else [stage(si, emitted)] + PartsFrom(stage, n, si + 1, emitted + |stage(si, emitted).at|)
  }

  predicate Follows(rule: Rule, stage: (nat, nat) -> Staging, k: nat, e: nat) {
    rule(k, e, stage(k, e)) && Possible(k + 1, e + |stage(k, e).at|)
  }

  lemma {:induction false} PartsAreStaged(rule: Rule, stage: (nat, nat) -> Staging, n: nat, si: nat, emitted: nat)
    requires si <= n && Possible(si, emitted)
    requires forall k: nat, e: nat :: k < n && Possible(k, e) ==> Follows(rule, stage, k, e)
    ensures StagesFrom(rule, n, si, emitted, PartsFrom(stage, n, si, emitted))
    decreases n - si
  {
    if si < n {
      var s := stage(si, emitted);
      var rest := PartsFrom(stage, n, si + 1, emitted + |s.at|);
      assert Follows(rule, stage, si, emitted);
      PartsAreStaged(rule, stage, n, si + 1, emitted + |s.at|);
      assert ([s] + rest)[1..] == rest;
    }
  }

  predicate SameStep(stage: (nat, nat) -> Staging, lay: (nat, nat) -> seq<Token>, next: (nat, nat) -> nat, k: nat, e: nat) {
    var s := stage(k, e); s.tokens == lay(k, e) && next(k, e) == e + |s.at| && Possible(k + 1, e + |s.at|)
  }

  lemma {:induction false} PartsAreChain(stage: (nat, nat) -> Staging, lay: (nat, nat) -> seq<Token>, next: (nat, nat) -> nat,
                                         n: nat, si: nat, emitted: nat)
    requires si <= n && Possible(si, emitted)
    requires forall k: nat, e: nat :: k < n && Possible(k, e) ==> SameStep(stage, lay, next, k, e)
    ensures TokensOf(PartsFrom(stage, n, si, emitted)) == FloorSpacing.ChainTokens(lay, next, n, si, emitted)
    decreases n - si
  {
    if si < n {
      var s := stage(si, emitted);
      var rest := PartsFrom(stage, n, si + 1, emitted + |s.at|);
      assert SameStep(stage, lay, next, si, emitted);
      PartsAreChain(stage, lay, next, n, si + 1, emitted + |s.at|);
      assert ([s] + rest)[1..] == rest;
    }
  }

  lemma StageLays(line: Line, sentences: seq<string>, k: nat, e: nat)
    requires k < |sentences| && Words(sentences[k]) != [] && Possible(k, e)
    ensures SameStep(StageAt(line, sentences), FloorSpacing.LaySentenceAt(line, sentences),
                     FloorSpacing.EmittedAfter(line, sentences), k, e)
  {
    SentenceCounted(line, sentences[k], k, e);
  }

  lemma StageFollows(rules: Rules, ask: Ask, sentences: seq<string>, k: nat, e: nat)
    requires k < |sentences| && Words(sentences[k]) != [] && Possible(k, e)
    ensures var line := TheLine(rules, ask, sentences);
            StagingRule(rules, ask, sentences, line.hint)(k, e, StageAt(line, sentences)(k, e))
  {
    SentenceStaged(rules, ask, sentences, k, e);
  }

  lemma LineParts(line: Line, sentences: seq<string>)
    requires Worded(sentences)
    ensures TokensOf(PartsFrom(StageAt(line, sentences), |sentences|, 0, 0)) == LineTokens(line, sentences, 0, 0)
  {
    var stage := StageAt(line, sentences);
    var lay, next := FloorSpacing.LaySentenceAt(line, sentences), FloorSpacing.EmittedAfter(line, sentences);
    forall k: nat, e: nat | k < |sentences| && Possible(k, e) ensures SameStep(stage, lay, next, k, e) {
      StageLays(line, sentences, k, e);
    }
    PartsAreChain(stage, lay, next, |sentences|, 0, 0);
    FloorSpacing.LineIsChain(line, sentences, 0, 0);
  }

  lemma SentencesStaged(rules: Rules, ask: Ask, sentences: seq<string>) returns (parts: seq<Staging>)
    requires Worded(sentences)
    ensures StagesFrom(StagingRule(rules, ask, sentences, TheLine(rules, ask, sentences).hint), |sentences|, 0, 0, parts)
    ensures TokensOf(parts) == LineTokens(TheLine(rules, ask, sentences), sentences, 0, 0)
  {
    var line := TheLine(rules, ask, sentences);
    var stage, rule := StageAt(line, sentences), StagingRule(rules, ask, sentences, line.hint);
    forall k: nat, e: nat | k < |sentences| && Possible(k, e) ensures Follows(rule, stage, k, e)
    {
      StageFollows(rules, ask, sentences, k, e);
      StageLays(line, sentences, k, e);
    }
    PartsAreStaged(rule, stage, |sentences|, 0, 0);
    LineParts(line, sentences);
    parts := PartsFrom(stage, |sentences|, 0, 0);
  }

  // ----- what the line opens and closes with --------------------------------------------------------------

  /** Screen before face before sound. */
  function Rank(m: Mark): nat {
    match m
    case Icons(_) => 0
    case Mood(_, _) => 1
    case Audio(_) => 2
    case _ => 3
  }

  /** The face the line shows: a known hint's, else the text's. */
  predicate ShowsMood(rules: Rules, ask: Ask, text: string, mood: int) {
    if ask.moodHint != "" && rules.moodAlias(ask.moodHint).Some? then rules.moodAlias(ask.moodHint) == Some(mood)
    else mood == rules.scoreMood(text).0
  }

  /** Its strength: the requested one, else the text's, moved into range. */
  predicate ShowsStrength(rules: Rules, ask: Ask, text: string, strength: int) {
    var wanted := if ask.intensity.Some? then ask.intensity.value else rules.scoreMood(text).1;
    0 <= strength <= 2 && (0 <= wanted <= 2 ==> strength == wanted) && (wanted < 0 ==> strength == 0) && (wanted > 2 ==> strength == 2)
  }

  /** What stands before the first sentence: the icon, if icons are on and the text cues one; the
      mood, on the first chunk; the stinger, if sounds are on, the face is happy and the text
      is praise. */
  predicate Announces(rules: Rules, ask: Ask, text: string, m: Mark) {
    match m
    case Icons(v) => ask.icons && rules.icon(text) == Some(v)
    case Mood(mood, strength) => ask.chunkIndex == 0 && ShowsMood(rules, ask, text, mood) && ShowsStrength(rules, ask, text, strength)
    case Audio(sound) => sound == "stinger" && ask.sfx && ShowsMood(rules, ask, text, 1) && rules.praise(text)
    case _ => false
  }

  /** Exactly those marks, each once, in that order. */
  ghost predicate Opens(rules: Rules, ask: Ask, text: string, ts: seq<Token>) {
    && (forall t :: t in ts <==> t.M? && Announces(rules, ask, text, t.mark))
    && forall i, j :: 0 <= i < j < |ts| ==> Rank(ts[i].mark) < Rank(ts[j].mark)
  }

  lemma OpeningIs(rules: Rules, ask: Ask, text: string)
    ensures Opens(rules, ask, text, Opening(rules, ask, text))
  {
    var ts, mood := Opening(rules, ask, text), LineMood(rules, ask, text);
    forall t ensures t in ts <==> t.M? && Announces(rules, ask, text, t.mark) {
      if t.M? && t.mark.Mood? && ShowsStrength(rules, ask, text, t.mark.strength) {
        assert t.mark.strength == ClampIntensity(mood.1);
      }
    }
  }

  /** A floor line, whole, for every text, table, hint and setting: its opening, its sentences
      one after another, each with the marks its text, the tables and the hints call for, and
      the rest pose, with the screen cleared if an icon was shown. */
  lemma LineIsStaged(rules: Rules, ask: Ask, text: string, sentences: seq<string>)
    returns (opening: seq<Token>, hint: Option<Gesture>, parts: seq<Staging>)
    requires Worded(sentences)
    ensures Tokens(rules, ask, text, sentences)
         == opening + TokensOf(parts) + [M(Tree(NoGesture, ""))]
            + (if ask.icons && rules.icon(text).Some? then [M(IconsClear)] else [])
    ensures Opens(rules, ask, text, opening)
    ensures forall g :: hint == Some(g) <==> HintIs(rules, ask, g)
    ensures StagesFrom(StagingRule(rules, ask, sentences, hint), |sentences|, 0, 0, parts)
  {
    opening, hint := Opening(rules, ask, text), HintGesture(rules, ask);
    OpeningIs(rules, ask, text);
    parts := SentencesStaged(rules, ask, sentences);
    var clear := if ask.icons && rules.icon(text).Some? then [M(IconsClear)] else [];
    Assoc(opening + TokensOf(parts), [M(REST)], clear);
  }

  /** And so what the generator returns: a text it may not stage, or without a sentence, as it
      is; any other rendered from such a line. */
  lemma AnnotatedIsStaged(u: Alphabet, mint: Mint, rules: Rules, ask: Ask, text: string)
    returns (opening: seq<Token>, hint: Option<Gesture>, parts: seq<Staging>)
    ensures var sentences := Segment(u, 0, text);
            if Blank(text) || !NoAngle(text) || sentences == [] then Annotated(u, mint, rules, ask, text) == text
            else
              && Annotated(u, mint, rules, ask, text)
                 == Rendered(mint, opening + TokensOf(parts) + [M(Tree(NoGesture, ""))]
                                   + (if ask.icons && rules.icon(text).Some? then [M(IconsClear)] else []))
              && Opens(rules, ask, text, opening) && (forall g :: hint == Some(g) <==> HintIs(rules, ask, g))
              && StagesFrom(StagingRule(rules, ask, sentences, hint), |sentences|, 0, 0, parts)
  {
    opening, hint, parts := LineIsStaged(rules, ask, text, Sentences(u, text));
  }
}
