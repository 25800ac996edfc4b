/** What a rendered plan shows: the marks of every beat in terms of its fields, and the whole
    line as the floor would render those marks and words. */
module PlanMarks {
  import opened Basics
  import opened Wrappers
  import opened Speech
  import opened Vocab
  import opened AutoMarkup
  import opened Planner
  import opened Performing

  // ----- the marks before the words of a beat ---------------------------------------------------

  /** Screen, face, sound, effect, whole body, arm. */
  function Rank(m: Mark): nat {
    match m
    case Icons(_) => 0
    case Mood(_, _) => 1
    case Audio(_) => 2
    case Spurt(_) => 3
    case Tree(_, behaviour) => if behaviour != "" then 4 else 5
    case _ => 6
  }

  /** Does this beat call for this mark? A gaze moves the body only where no tree does. */
  predicate CallsFor(b: Beat, m: Mark) {
    match m
    case Icons(v) => v != "" && b.icon == Some(v)
    case Mood(mood, strength) =>
      b.mood == Some(mood) && strength == (if b.strength < 0 then 0 else if b.strength > 2 then 2 else b.strength)
    case Audio(sound) => sound != "" && b.sfx == Some(sound)
    case Spurt(id) => id != "" && b.spurt == Some(id)
    case Tree(g, behaviour) =>
      if behaviour == "" then b.gesture == Some(g)
      else g == NoGesture && (b.tree == Some(behaviour) || ((b.tree == None || b.tree == Some("")) && b.gaze == Some(behaviour)))
    case _ => false
  }

  /** Exactly the marks the beat calls for, each once, in that order. */
  ghost predicate Marks(b: Beat, ms: seq<Mark>) {
    && (forall m :: m in ms <==> CallsFor(b, m))
    && forall i, j :: 0 <= i < j < |ms| ==> Rank(ms[i]) < Rank(ms[j])
  }

  lemma BeatMarksAre(b: Beat)
    ensures Marks(b, BeatMarks(b))
  {
    forall m ensures m in BeatMarks(b) <==> CallsFor(b, m) {
      BeatMarkIs(b, m);
    }
    BeatMarksAscend(b);
  }

  lemma BeatMarkIs(b: Beat, m: Mark)
    ensures m in BeatMarks(b) <==> CallsFor(b, m)
  {
  }

  ghost predicate Ascends(ms: seq<Mark>, hi: nat) {
    && (forall i :: 0 <= i < |ms| ==> Rank(ms[i]) < hi)
    && forall i, j :: 0 <= i < j < |ms| ==> Rank(ms[i]) < Rank(ms[j])
  }

  lemma AscendsMore(ms: seq<Mark>, more: seq<Mark>, at: nat)
    requires Ascends(ms, at) && OneOf(more, at)
    ensures Ascends(ms + more, at + 1)
  {
  }

  /** At most one mark, of this rank. */
  ghost predicate OneOf(ms: seq<Mark>, rank: nat) {
    |ms| <= 1 && forall i :: 0 <= i < |ms| ==> Rank(ms[i]) == rank
  }

  lemma SixAscend(a: seq<Mark>, b: seq<Mark>, c: seq<Mark>, d: seq<Mark>, e: seq<Mark>, f: seq<Mark>)
    requires OneOf(a, 0) && OneOf(b, 1) && OneOf(c, 2) && OneOf(d, 3) && OneOf(e, 4) && OneOf(f, 5)
    ensures Ascends(a + b + c + d + e + f, 6)
  {
    AscendsMore(a, b, 1);
    AscendsMore(a + b, c, 2);
    AscendsMore(a + b + c, d, 3);
    AscendsMore(a + b + c + d, e, 4);
    AscendsMore(a + b + c + d + e, f, 5);
  }

  lemma BeatMarksAscend(b: Beat)
    ensures Ascends(BeatMarks(b), 6)
  {
    var icon := if Present(b.icon) then [Icons(b.icon.value)] else [];
    var face := if b.mood.Some? then [Mood(b.mood.value, ClampIntensity(b.strength))] else [];
    var sound := if Present(b.sfx) then [Audio(b.sfx.value)] else [];
    var effect := if Present(b.spurt) then [Spurt(b.spurt.value)] else [];
    var body := if Present(b.tree) then [Tree(NoGesture, b.tree.value)]
                else if Present(b.gaze) then [Tree(NoGesture, b.gaze.value)] else [];
    var arm := if b.gesture.Some? then [Tree(b.gesture.value, "")] else [];
    SixAscend(icon, face, sound, effect, body, arm);
  }

  // ----- the beat as tokens ---------------------------------------------------------------------------

  function MarkTokens(ms: seq<Mark>): (ts: seq<Token>)
    ensures |ts| == |ms| && forall k :: 0 <= k < |ts| ==> ts[k] == M(ms[k])
  {
    seq(|ms|, k requires 0 <= k < |ms| => M(ms[k]))
  }

  /** Its words, in their delivery if it has one. */
  function SaidTokens(b: Beat): seq<Token> {
    if b.text == "" then []
    else if b.usel.Some? && b.usel.value != "" then [O(b.usel.value), W(b.text), C]
    else [W(b.text)]
  }

  function PauseTokens(b: Beat): seq<Token> {
    if b.breakAfter.Some? && b.breakAfter.value != 0.0 then [M(Break(b.breakAfter.value))] else []
  }

  /** A beat as it is performed: its marks, its words, its pause. */
  ghost predicate Plays(b: Beat, ts: seq<Token>) {
    exists ms :: Marks(b, ms) && ts == MarkTokens(ms) + SaidTokens(b) + PauseTokens(b)
  }

  function PartOf(b: Beat): seq<Token> {
    MarkTokens(BeatMarks(b)) + SaidTokens(b) + PauseTokens(b)
  }

  function Joined(parts: seq<seq<Token>>): seq<Token> {
    if parts == [] then [] else parts[0] + Joined(parts[1..])
  }

  // ----- rendering them as the floor does ----------------------------------------------------------------

  function SpaceOver(ts: seq<Token>, space: bool): bool {
    if ts == [] then space else SpaceOver(ts[1..], SpaceAfter(ts[0], space))
  }

  lemma {:induction false} PiecesConcat(mint: Mint, a: seq<Token>, b: seq<Token>, space: bool)
    ensures Pieces(mint, a + b, space) == Pieces(mint, a, space) + Pieces(mint, b, SpaceOver(a, space))
    ensures SpaceOver(a + b, space) == SpaceOver(b, SpaceOver(a, space))
  {
    if a == [] {
      assert a + b == b;
      assert [] + Pieces(mint, b, space) == Pieces(mint, b, space);
    } else {
      var t, s := a[1..], SpaceAfter(a[0], space);
      assert (a + b)[0] == a[0] && (a + b)[1..] == t + b;
      PiecesConcat(mint, t, b, s);
      Assoc(TokenPieces(mint, a[0], space), Pieces(mint, t, s), Pieces(mint, b, SpaceOver(t, s)));
    }
  }

  lemma {:induction false} MarksRender(mint: Mint, ms: seq<Mark>, space: bool)
    ensures Pieces(mint, MarkTokens(ms), space) == Tags(mint, ms) && SpaceOver(MarkTokens(ms), space) == space
  {
    if ms != [] {
      assert MarkTokens(ms)[1..] == MarkTokens(ms[1..]);
      MarksRender(mint, ms[1..], space);
    }
  }

  lemma OneToken(mint: Mint, t: Token, space: bool)
    ensures Pieces(mint, [t], space) == TokenPieces(mint, t, space) && SpaceOver([t], space) == SpaceAfter(t, space)
  {
    assert [t][1..] == [];
    assert TokenPieces(mint, t, space) + [] == TokenPieces(mint, t, space);
  }

  lemma SaidRender(mint: Mint, b: Beat, space: bool)
    ensures Pieces(mint, SaidTokens(b), space) == TextPieces(mint, b, space)
    ensures SpaceOver(SaidTokens(b), space) == (space || b.text != "")
  {
    if b.text != "" {
      if Present(b.usel) {
        var o, w, c := O(b.usel.value), W(b.text), C;
        OneToken(mint, o, space);
        OneToken(mint, w, false);
        OneToken(mint, c, true);
        PiecesConcat(mint, [o], [w] + [c], space);
        PiecesConcat(mint, [w], [c], false);
        assert SaidTokens(b) == [o] + ([w] + [c]);
        var open, said, close := Tag(mint(UselOpen(b.usel.value))), Plain(b.text), Tag(mint(UselClose));
        assert Gap(false) + [said] == [said];
        assert (Gap(space) + [open]) + ([said] + [close]) == Gap(space) + [open, said, close];
      } else {
        OneToken(mint, W(b.text), space);
      }
    }
  }

  lemma PauseRender(mint: Mint, b: Beat, space: bool)
    ensures Pieces(mint, PauseTokens(b), space)
         == (if b.breakAfter.Some? && b.breakAfter.value != 0.0 then [Tag(mint(Break(b.breakAfter.value)))] else [])
    ensures SpaceOver(PauseTokens(b), space) == space
  {
    if b.breakAfter.Some? {
      OneToken(mint, M(Break(b.breakAfter.value)), space);
    }
  }

  lemma PartRender(mint: Mint, b: Beat, space: bool)
    ensures Pieces(mint, PartOf(b), space) == BeatPieces(mint, b, space)
    ensures SpaceOver(PartOf(b), space) == (space || b.text != "")
  {
    var marks, said, pause := MarkTokens(BeatMarks(b)), SaidTokens(b), PauseTokens(b);
    MarksRender(mint, BeatMarks(b), space);
    SaidRender(mint, b, space);
    PauseRender(mint, b, space || b.text != "");
    PiecesConcat(mint, marks, said, space);
    PiecesConcat(mint, marks + said, pause, space);
  }

  function PartsOf(beats: seq<Beat>): (parts: seq<seq<Token>>)
    ensures |parts| == |beats|
  {
    if beats == [] then [] else [PartOf(beats[0])] + PartsOf(beats[1..])
  }

  lemma {:induction false} PartsPlay(beats: seq<Beat>)
    ensures forall k :: 0 <= k < |beats| ==> Plays(beats[k], PartsOf(beats)[k])
  {
    if beats != [] {
      PartsPlay(beats[1..]);
      BeatMarksAre(beats[0]);
      assert Plays(beats[0], PartOf(beats[0]));
      forall k | 0 < k < |beats| ensures Plays(beats[k], PartsOf(beats)[k]) {
        assert beats[1..][k - 1] == beats[k];
      }
    }
  }

  lemma {:induction false} PartsRender(mint: Mint, beats: seq<Beat>, space: bool)
    ensures Pieces(mint, Joined(PartsOf(beats)), space) == BeatsPieces(mint, beats, space)
  {
    if beats != [] {
      var first, rest := PartOf(beats[0]), PartsOf(beats[1..]);
      assert ([first] + rest)[1..] == rest;
      PartRender(mint, beats[0], space);
      PartsRender(mint, beats[1..], space || beats[0].text != "");
      PiecesConcat(mint, first, Joined(rest), space);
    }
  }

  /** The rest pose, and the screen cleared if any beat showed an icon. */
  function Ending(beats: seq<Beat>): seq<Token> {
    [M(Tree(NoGesture, ""))] + (if ShowsIcon(beats) then [M(IconsClear)] else [])
  }

  lemma EndingRender(mint: Mint, beats: seq<Beat>, space: bool)
    ensures Pieces(mint, Ending(beats), space) == Performing.Tail(mint, beats)
  {
    OneToken(mint, M(REST), space);
    if ShowsIcon(beats) {
      OneToken(mint, M(IconsClear), space);
      PiecesConcat(mint, [M(REST)], [M(IconsClear)], space);
    }
  }

  /** A rendered plan is its beats' marks, words and pauses, one beat after another, rendered as
      the floor renders its own tokens, and the rest pose: for every performance. */
  lemma PlanIsPlayed(mint: Mint, p: Performance) returns (parts: seq<seq<Token>>)
    ensures |parts| == |p.beats| && forall k :: 0 <= k < |parts| ==> Plays(p.beats[k], parts[k])
    ensures RenderedPlan(mint, p)
         == if p.beats == [] then ""
            else Rendered(mint, Joined(parts) + [M(Tree(NoGesture, ""))]
                                + (if exists k :: 0 <= k < |p.beats| && p.beats[k].icon.Some? && p.beats[k].icon.value != ""
                                   then [M(IconsClear)] else []))
  {
    parts := PartsOf(p.beats);
    PartsPlay(p.beats);
    PartsRender(mint, p.beats, false);
    var body, ending := Joined(parts), Ending(p.beats);
    PiecesConcat(mint, body, ending, false);
    EndingRender(mint, p.beats, SpaceOver(body, false));
    ShowsIconIs(p.beats);
    Assoc(body, [M(REST)], if ShowsIcon(p.beats) then [M(IconsClear)] else []);
  }

  lemma ShowsIconIs(beats: seq<Beat>)
    ensures ShowsIcon(beats) <==> exists k :: 0 <= k < |beats| && beats[k].icon.Some? && beats[k].icon.value != ""
  {
    if k :| 0 <= k < |beats| && beats[k].icon.Some? && beats[k].icon.value != "" {
      assert Present(beats[k].icon);
    }
    if k :| 0 <= k < |beats| && Present(beats[k].icon) {
      assert beats[k].icon.Some? && beats[k].icon.value != "";
    }
  }
}
