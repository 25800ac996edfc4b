/** The markup floor: gesture placement, the token stream of a line, and `Annotate`. */
module Floor {
  import opened Basics
  import opened Text
  import opened Segmenter
  import opened Wrappers
  import opened Speech
  import opened Vocab
  import opened AutoMarkup
  import opened Clauses

  // ----- gestures of one sentence -------------------------------------------------------

  /** Gestures by word index, with the two counters the caps look at. */
  datatype Placed = Placed(at: map<nat, Gesture>, perSentence: nat, emitted: nat) {
    predicate Room() {
      perSentence < MAX_GESTURES_PER_SENTENCE && emitted < MAX_GESTURES_PER_LINE
    }
    function Add(k: nat, g: Gesture): Placed {
      Placed(at[k := g], perSentence + 1, emitted + 1)
    }
  }

  /** One cued gesture per clause while there is room. */
  function Carry(rules: Rules, words: seq<string>, bounds: seq<(nat, nat)>, lo: nat, p: Placed): Placed
    requires Tiles(bounds, lo, |words|)
  {
    if bounds == [] || !p.Room() then p
    else
      var found := ClauseGesture(rules, words, bounds[0].0, bounds[0].1);
      Carry(rules, words, bounds[1..], bounds[0].1,
            if found.Some? && found.value.0 !in p.at then p.Add(found.value.0, found.value.1) else p)
  }

  /** A talking gesture every `TALK_EVERY` words from `pos`, gated by the digest. */
  function TalkFrom(rules: Rules, si: nat, pos: nat, n: nat, p: Placed): Placed
    decreases n - pos
  {
    if pos + TALK_TAIL < n && p.Room() then
      TalkFrom(rules, si, pos + TALK_EVERY, n,
               if pos !in p.at && rules.roll(si, pos) then p.Add(pos, Talk) else p)
    else p
  }

  /** The largest key below `n`, or 0. */
  function MaxKey(at: map<nat, Gesture>, n: nat): nat {
    if n == 0 then 0 else if n - 1 in at then n - 1 else MaxKey(at, n - 1)
  }

  /** What carries the sentence: the model's hint on sentence 0, else the clause cues. */
  function Carried(rules: Rules, words: seq<string>, bounds: seq<(nat, nat)>, si: nat, emitted: nat,
                   hint: Option<Gesture>, hasTree: bool): Placed
    requires Tiles(bounds, 0, |words|)
  {
    var none := Placed(map[], 0, emitted);
    if si == 0 && hint.Some? then none.Add(0, hint.value)
    else if !hasTree then Carry(rules, words, bounds, 0, none)
    else none
  }

  function Gestures(rules: Rules, words: seq<string>, bounds: seq<(nat, nat)>, si: nat, emitted: nat,
                    hint: Option<Gesture>, hasTree: bool): Placed
    requires Tiles(bounds, 0, |words|)
  {
    var carried := Carried(rules, words, bounds, si, emitted, hint, hasTree);
    if !hasTree && |words| >= TALK_MIN_WORDS
    then TalkFrom(rules, si, MaxKey(carried.at, |words|) + TALK_EVERY, |words|, carried)
    else carried
  }

  method PlaceGestures(rules: Rules, words: seq<string>, bounds: seq<(nat, nat)>, si: nat, emitted: nat,
                       hint: Option<Gesture>, hasTree: bool) returns (p: Placed)
    requires Tiles(bounds, 0, |words|)
    ensures p == Gestures(rules, words, bounds, si, emitted, hint, hasTree)
  {
    p := CarryGestures(rules, words, bounds, si, emitted, hint, hasTree);
    if !hasTree && |words| >= TALK_MIN_WORDS {
      p := AddTalk(rules, si, MaxKey(p.at, |words|) + TALK_EVERY, |words|, p);
    }
  }

  /** The model's hint, or the clause cues while there is room. */
  method CarryGestures(rules: Rules, words: seq<string>, bounds: seq<(nat, nat)>, si: nat, emitted: nat,
                       hint: Option<Gesture>, hasTree: bool) returns (p: Placed)
    requires Tiles(bounds, 0, |words|)
    ensures p == Carried(rules, words, bounds, si, emitted, hint, hasTree)
  {
    p := Placed(map[], 0, emitted);
    if si == 0 && hint.Some? {
      p := p.Add(0, hint.value);
    } else if !hasTree {
      ghost var none := p;
      ghost var lo := 0;
      var i := 0;
      while i < |bounds| && p.Room()
        invariant i <= |bounds| && Tiles(bounds[i..], lo, |words|)
        invariant Carry(rules, words, bounds[i..], lo, p) == Carry(rules, words, bounds, 0, none)
        decreases |bounds| - i
      {
        assert bounds[i..][0] == bounds[i] && bounds[i..][1..] == bounds[i + 1..];
        var found := ClauseGesture(rules, words, bounds[i].0, bounds[i].1);
        if found.Some? && found.value.0 !in p.at {
          p := p.Add(found.value.0, found.value.1);
        }
        lo := bounds[i].1;
        i := i + 1;
      }
    }
  }

  /** Talking gestures at every fifth word from `start` on, while there is room. */
  method AddTalk(rules: Rules, si: nat, start: nat, n: nat, carried: Placed) returns (p: Placed)
    ensures p == TalkFrom(rules, si, start, n, carried)
  {
    p := carried;
    var pos := start;
    while pos + TALK_TAIL < n && p.Room()
      invariant TalkFrom(rules, si, pos, n, p) == TalkFrom(rules, si, start, n, carried)
      decreases n - pos
    {
      if pos !in p.at && rules.roll(si, pos) {
        p := p.Add(pos, Talk);
      }
      pos := pos + TALK_EVERY;
    }
  }

  /** Placement in bounds: counters agree with the map, both caps hold, keys are words. */
  ghost predicate WithinCaps(p: Placed, emitted: nat, n: nat) {
    && p.perSentence == |p.at| <= MAX_GESTURES_PER_SENTENCE
    && p.emitted == emitted + |p.at| <= MAX_GESTURES_PER_LINE
    && forall k :: k in p.at ==> k < n
  }

  lemma {:induction false} CarryWithinCaps(rules: Rules, words: seq<string>, bounds: seq<(nat, nat)>,
                                           lo: nat, p: Placed, emitted: nat)
    requires Tiles(bounds, lo, |words|) && WithinCaps(p, emitted, |words|)
    requires forall k :: k in p.at ==> p.at[k] != Talk && p.at[k] != NoGesture
    ensures var q := Carry(rules, words, bounds, lo, p);
            && WithinCaps(q, emitted, |words|)
            && forall k :: k in q.at ==> q.at[k] != Talk && q.at[k] != NoGesture
    decreases |bounds|
  {
    if bounds != [] && p.Room() {
      var found := ClauseGesture(rules, words, bounds[0].0, bounds[0].1);
      var q := if found.Some? && found.value.0 !in p.at then p.Add(found.value.0, found.value.1) else p;
      CarryWithinCaps(rules, words, bounds[1..], bounds[0].1, q, emitted);
    }
  }

  /** Talking gestures are at least `TALK_EVERY` words apart. */
  ghost predicate Spaced(at: map<nat, Gesture>) {
    forall j, k :: j in at && k in at && at[j] == Talk && at[k] == Talk && j < k ==> j + TALK_EVERY <= k
  }

  ghost predicate TalksBelow(at: map<nat, Gesture>, pos: nat) {
    forall k :: k in at && at[k] == Talk ==> k + TALK_EVERY <= pos
  }

  function TryTalk(rules: Rules, si: nat, pos: nat, p: Placed): Placed {
    if pos !in p.at && rules.roll(si, pos) then p.Add(pos, Talk) else p
  }

  lemma {:induction false} TalkWithinCaps(rules: Rules, si: nat, pos: nat, n: nat, p: Placed, emitted: nat)
    requires WithinCaps(p, emitted, n)
    ensures WithinCaps(TalkFrom(rules, si, pos, n, p), emitted, n)
    decreases n - pos
  {
    if pos + TALK_TAIL < n && p.Room() {
      TalkWithinCaps(rules, si, pos + TALK_EVERY, n, TryTalk(rules, si, pos, p), emitted);
    }
  }

  lemma {:induction false} TalkOnlyAdds(rules: Rules, si: nat, pos: nat, n: nat, p: Placed)
    ensures var q := TalkFrom(rules, si, pos, n, p);
            && (forall k :: k in p.at ==> k in q.at && q.at[k] == p.at[k])
            && (forall k :: k in q.at && k !in p.at ==> q.at[k] == Talk && k + TALK_TAIL < n)
    decreases n - pos
  {
    if pos + TALK_TAIL < n && p.Room() {
      TalkOnlyAdds(rules, si, pos + TALK_EVERY, n, TryTalk(rules, si, pos, p));
    }
  }

  lemma {:induction false} TalkSpaced(rules: Rules, si: nat, pos: nat, n: nat, p: Placed)
    requires Spaced(p.at) && TalksBelow(p.at, pos)
    ensures Spaced(TalkFrom(rules, si, pos, n, p).at)
    decreases n - pos
  {
    if pos + TALK_TAIL < n && p.Room() {
      TalkSpaced(rules, si, pos + TALK_EVERY, n, TryTalk(rules, si, pos, p));
    }
  }

  lemma {:induction false} MaxKeyBounds(at: map<nat, Gesture>, n: nat)
    ensures forall k :: k in at && k < n ==> k <= MaxKey(at, n)
  {
    if n > 0 {
      MaxKeyBounds(at, n - 1);
    }
  }

  lemma CarriedRules(rules: Rules, words: seq<string>, bounds: seq<(nat, nat)>, si: nat, emitted: nat,
                     hint: Option<Gesture>, hasTree: bool)
    requires Tiles(bounds, 0, |words|) && words != []
    requires emitted <= MAX_GESTURES_PER_LINE && (si == 0 ==> emitted == 0)
    ensures var c := Carried(rules, words, bounds, si, emitted, hint, hasTree);
            && WithinCaps(c, emitted, |words|)
            && (forall k :: k in c.at && c.at[k] == Talk ==> k == 0 && si == 0 && hint == Some(Talk))
            && (si == 0 && hint == Some(Talk) ==> 0 in c.at && c.at[0] == Talk)
  {
    if !(si == 0 && hint.Some?) && !hasTree {
      CarryWithinCaps(rules, words, bounds, 0, Placed(map[], 0, emitted), emitted);
    }
  }

  /** At most three gestures in the sentence and never more than six on the line, the talking
      ones placed at least five words apart. For every text, table and hint. Where a placed
      gesture is emitted is another matter: a delivery span moves it. */
  lemma SentenceRules(rules: Rules, words: seq<string>, bounds: seq<(nat, nat)>, si: nat, emitted: nat,
                      hint: Option<Gesture>, hasTree: bool)
    requires Tiles(bounds, 0, |words|) && words != []
    requires emitted <= MAX_GESTURES_PER_LINE && (si == 0 ==> emitted == 0)
    ensures var p := Gestures(rules, words, bounds, si, emitted, hint, hasTree);
            WithinCaps(p, emitted, |words|) && Spaced(p.at)
  {
    CarriedRules(rules, words, bounds, si, emitted, hint, hasTree);
    var c := Carried(rules, words, bounds, si, emitted, hint, hasTree);
    var pos := MaxKey(c.at, |words|) + TALK_EVERY;
    assert Spaced(c.at) && TalksBelow(c.at, pos) by {
      MaxKeyBounds(c.at, |words|);
    }
    assert WithinCaps(c, emitted, |words|);
    TalkWithinCaps(rules, si, pos, |words|, c, emitted);
    TalkSpaced(rules, si, pos, |words|, c);
  }

  /** A sentence with a whole-body tree has an arm gesture on top of it exactly when it is
      the first sentence and the model hinted one. */
  lemma TreeAndArm(rules: Rules, words: seq<string>, bounds: seq<(nat, nat)>, si: nat, emitted: nat,
                   hint: Option<Gesture>)
    requires Tiles(bounds, 0, |words|)
    ensures Gestures(rules, words, bounds, si, emitted, hint, true).at == map[] <==> !(si == 0 && hint.Some?)
  {
    if si == 0 && hint.Some? {
      assert 0 in Gestures(rules, words, bounds, si, emitted, hint, true).at;
    }
  }

  // ----- the token stream of a line -----------------------------------------------------

  /** One word with the marks that stand before and right after it. */
  function WordStep(words: seq<string>, i: nat, at: map<nat, Gesture>, pause: Option<nat>,
                    wrapped: bool): seq<Token>
    requires i < |words|
  {
    (if !wrapped && i in at then [M(Tree(at[i], ""))] else []) + [W(words[i])]
    + (if pause == Some(i) then [M(Break(BREAK_TIME))] else [])
  }

  function WordTokens(words: seq<string>, i: nat, at: map<nat, Gesture>, pause: Option<nat>,
                      wrapped: bool): seq<Token>
    requires i <= |words|
    decreases |words| - i
  {
    if i == |words| then []
    else WordStep(words, i, at, pause, wrapped) + WordTokens(words, i + 1, at, pause, wrapped)
  }

  /** The gestures of a wrapped sentence, in word order, placed after its span. */
  function SortedMarks(at: map<nat, Gesture>, i: nat, n: nat): seq<Token>
    requires i <= n
    decreases n - i
  {
    if i == n then []
    else (if i in at then [M(Tree(at[i], ""))] else []) + SortedMarks(at, i + 1, n)
  }

  function Body(tree: Option<string>): seq<Token> {
    if tree.Some? then [M(Tree(NoGesture, tree.value))] else []
  }

  function SentenceTokens(words: seq<string>, genre: Option<string>, at: map<nat, Gesture>,
                          pause: Option<nat>, tree: Option<string>): seq<Token> {
    match genre
    case None => WordTokens(words, 0, at, pause, false) + Body(tree)
    case Some(g) =>
      [O(g)] + WordTokens(words, 0, at, pause, true) + [C] + SortedMarks(at, 0, |words|) + Body(tree)
  }

  function PauseAfter(rules: Rules, words: seq<string>, bounds: seq<(nat, nat)>): Option<nat>
    requires Tiles(bounds, 0, |words|)
  {
    if |bounds| > 1 && LeadPause(rules, Join(words[..bounds[0].1])) then Some(bounds[0].1 - 1) else None
  }

  /** What the line decided before any sentence is laid down. */
  datatype Line = Line(rules: Rules, treeAt: int, tree: Option<string>, hint: Option<Gesture>)

  predicate HasTree(line: Line, si: nat) {
    si == line.treeAt && line.tree.Some?
  }

  ghost predicate Worded(sentences: seq<string>) {
    forall k :: 0 <= k < |sentences| ==> Words(sentences[k]) != []
  }

  function GesturesAt(line: Line, sentence: string, si: nat, emitted: nat): Placed
    requires Words(sentence) != []
  {
    BoundsTile(sentence);
    Gestures(line.rules, Words(sentence), ClauseBounds(sentence), si, emitted, line.hint, HasTree(line, si))
  }

  function OneSentence(line: Line, sentence: string, si: nat, emitted: nat): seq<Token>
    requires Words(sentence) != []
  {
    BoundsTile(sentence);
    var words := Words(sentence);
    (if si > 0 then [M(Break(BREAK_TIME))] else [])
    + SentenceTokens(words, Genre(sentence), GesturesAt(line, sentence, si, emitted).at,
                     PauseAfter(line.rules, words, ClauseBounds(sentence)),
                     if HasTree(line, si) then line.tree else None)
  }

  function LineTokens(line: Line, sentences: seq<string>, si: nat, emitted: nat): seq<Token>
    requires si <= |sentences| && Worded(sentences)
    decreases |sentences| - si
  {
    if si == |sentences| then []
    else
      OneSentence(line, sentences[si], si, emitted)
      + LineTokens(line, sentences, si + 1, GesturesAt(line, sentences[si], si, emitted).emitted)
  }

  // ----- the line's one tree, its hints and its whole stream ------------------------------

  function FirstMatch(cue: string -> bool, sentences: seq<string>, si: nat): (r: Option<nat>)
    requires si <= |sentences|
    ensures r.Some? ==> si <= r.value < |sentences|
    decreases |sentences| - si
  {
    if si == |sentences| then None
    else if cue(sentences[si]) then Some(si)
    else FirstMatch(cue, sentences, si + 1)
  }

  function CuedTree(cues: seq<(string -> bool, string)>, sentences: seq<string>): (int, Option<string>) {
    if cues == [] then (-1, None)
    else match FirstMatch(cues[0].0, sentences, 0)
         case Some(si) => (si, Some(cues[0].1))
         case None => CuedTree(cues[1..], sentences)
  }

  function LineTree(rules: Rules, sentences: seq<string>, trees: bool, look: string): (int, Option<string>) {
    if look != "" && look in rules.gazeTrees then (0, Some(look))
    else CuedTree(if trees then rules.treeCues else [], sentences)
  }

  /** The caller's choices. An empty hint is no hint. */
  datatype Ask = Ask(moodHint: string, gestureHint: string, look: string, intensity: Option<int>,
                     chunkIndex: int, icons: bool, sfx: bool, trees: bool)

  function HintGesture(rules: Rules, ask: Ask): Option<Gesture> {
    if ask.gestureHint == "" then None
    else match rules.gestureAlias(ask.gestureHint)
         case None => None
         case Some(g) => if g == NoGesture then None else Some(g)
  }

  function LineMood(rules: Rules, ask: Ask, text: string): (int, int) {
    var scored := rules.scoreMood(text);
    (if ask.moodHint != "" && rules.moodAlias(ask.moodHint).Some?
     then rules.moodAlias(ask.moodHint).value else scored.0,
     if ask.intensity.Some? then ClampIntensity(ask.intensity.value) else scored.1)
  }

  function Opening(rules: Rules, ask: Ask, text: string): seq<Token> {
    var icon := if ask.icons then rules.icon(text) else None;
    var mood := LineMood(rules, ask, text);
    (if icon.Some? then [M(Icons(icon.value))] else [])
    + (if ask.chunkIndex == 0 then [M(Mood(mood.0, ClampIntensity(mood.1)))] else [])
    + (if ask.sfx && mood.0 == MOOD_HAPPY && rules.praise(text) then [M(Audio("stinger"))] else [])
  }

  function Closing(rules: Rules, ask: Ask, text: string): seq<Token> {
    [M(REST)] + (if ask.icons && rules.icon(text).Some? then [M(IconsClear)] else [])
  }

  function TheLine(rules: Rules, ask: Ask, sentences: seq<string>): Line {
    var tree := LineTree(rules, sentences, ask.trees, ask.look);
    Line(rules, tree.0, tree.1, HintGesture(rules, ask))
  }

  function Tokens(rules: Rules, ask: Ask, text: string, sentences: seq<string>): seq<Token>
    requires Worded(sentences)
  {
    Opening(rules, ask, text) + LineTokens(TheLine(rules, ask, sentences), sentences, 0, 0)
    + Closing(rules, ask, text)
  }

  /** A text the floor stages, and its sentences. */
  predicate Stageable(text: string) {
    !Blank(text) && NoAngle(text)
  }

  function Sentences(u: Alphabet, text: string): (ss: seq<string>)
    ensures Worded(ss)
  {
    SegmentPieces(u, 0, text);
    SegmentWorded(u, text);
    Segment(u, 0, text)
  }

  lemma SegmentWorded(u: Alphabet, text: string)
    ensures Worded(Segment(u, 0, text))
  {
    SegmentPieces(u, 0, text);
    var out := Segment(u, 0, text);
    forall k | 0 <= k < |out| ensures Words(out[k]) != [] {
      StripTrimmed(out[k]);
      SplitNonBlank(out[k], "");
    }
  }

  /** One spoken line to behavior markup. */
  function Annotated(u: Alphabet, mint: Mint, rules: Rules, ask: Ask, text: string): string {
    if Stageable(text) && Sentences(u, text) != []
    then Rendered(mint, Tokens(rules, ask, text, Sentences(u, text)))
    else text
  }

  // ----- the same, step by step -----------------------------------------------------------

  method LayWords(words: seq<string>, at: map<nat, Gesture>, pause: Option<nat>, wrapped: bool)
    returns (tokens: seq<Token>)
    ensures tokens == WordTokens(words, 0, at, pause, wrapped)
  {
    tokens := [];
    assert [] + WordTokens(words, 0, at, pause, wrapped) == WordTokens(words, 0, at, pause, wrapped);
    for i := 0 to |words|
      invariant tokens + WordTokens(words, i, at, pause, wrapped) == WordTokens(words, 0, at, pause, wrapped)
    {
      ghost var rest := WordTokens(words, i + 1, at, pause, wrapped);
      var step := [W(words[i])];
      if !wrapped && i in at {
        step := [M(Tree(at[i], ""))] + step;
      } else {
        assert [] + step == step;
      }
      if pause == Some(i) {
        step := step + [M(Break(BREAK_TIME))];
      } else {
        assert step + [] == step;
      }
      Assoc(tokens, step, rest);
      tokens := tokens + step;
    }
    assert tokens + [] == tokens;
  }

  method LaySorted(at: map<nat, Gesture>, n: nat) returns (tokens: seq<Token>)
    ensures tokens == SortedMarks(at, 0, n)
  {
    tokens := [];
    assert [] + SortedMarks(at, 0, n) == SortedMarks(at, 0, n);
    for i := 0 to n
      invariant tokens + SortedMarks(at, i, n) == SortedMarks(at, 0, n)
    {
      if i in at {
        Assoc(tokens, [M(Tree(at[i], ""))], SortedMarks(at, i + 1, n));
        tokens := tokens + [M(Tree(at[i], ""))];
      } else {
        assert [] + SortedMarks(at, i + 1, n) == SortedMarks(at, i + 1, n);
      }
    }
    assert tokens + [] == tokens;
  }

  method LaySentence(words: seq<string>, genre: Option<string>, at: map<nat, Gesture>,
                     pause: Option<nat>, tree: Option<string>) returns (tokens: seq<Token>)
    ensures tokens == SentenceTokens(words, genre, at, pause, tree)
  {
    var inner := LayWords(words, at, pause, genre.Some?);
    if genre.Some? {
      var after := LaySorted(at, |words|);
      tokens := [O(genre.value)] + inner + [C] + after;
    } else {
      tokens := inner;
    }
    tokens := tokens + Body(tree);
  }

  method LayLine(line: Line, sentences: seq<string>) returns (tokens: seq<Token>)
    requires Worded(sentences)
    ensures tokens == LineTokens(line, sentences, 0, 0)
  {
    tokens := [];
    var emitted := 0;
    assert [] + LineTokens(line, sentences, 0, 0) == LineTokens(line, sentences, 0, 0);
    for si := 0 to |sentences|
      invariant tokens + LineTokens(line, sentences, si, emitted) == LineTokens(line, sentences, 0, 0)
    {
      var sentence := sentences[si];
      var words := Words(sentence);
      BoundsTile(sentence);
      var bounds := ComputeClauseBounds(sentence);
      var hasTree := HasTree(line, si);
      var p := PlaceGestures(line.rules, words, bounds, si, emitted, line.hint, hasTree);
      var laid := LaySentence(words, Genre(sentence), p.at, PauseAfter(line.rules, words, bounds),
                              if hasTree then line.tree else None);
      if si > 0 {
        laid := [M(Break(BREAK_TIME))] + laid;
      } else {
        assert [] + laid == laid;
      }
      assert laid == OneSentence(line, sentence, si, emitted);
      Assoc(tokens, laid, LineTokens(line, sentences, si + 1, p.emitted));
      tokens := tokens + laid;
      emitted := p.emitted;
    }
    assert tokens + [] == tokens;
  }

  method Annotate(u: Alphabet, mint: Mint, rules: Rules, ask: Ask, text: string) returns (out: string)
    ensures out == Annotated(u, mint, rules, ask, text)
  {
    if !Stageable(text) {
      return text;
    }
    var sentences := SegmentText(u, text, 0);
    SegmentWorded(u, text);
    if sentences == [] {
      return text;
    }
    var laid := LayLine(TheLine(rules, ask, sentences), sentences);
    out := Render(mint, Opening(rules, ask, text) + laid + Closing(rules, ask, text));
  }
}
