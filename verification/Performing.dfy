/** The planner's gate and its one string-producing function: `validate` and `render`. */
module Performing {
  import opened Basics
  import opened Text
  import opened Segmenter
  import opened Wrappers
  import opened Speech
  import opened Vocab
  import opened AutoMarkup
  import opened Planner

  // ----- validate: the positive list --------------------------------------------------------

  /** The frozen catalogs an id must be in. */
  datatype Catalog = Catalog(
    moods: set<int>, gestures: set<Gesture>, trees: set<string>, gazes: set<string>,
    icons: set<string>, sfx: set<string>, spurts: set<string>, genres: set<string>,
    acts: set<string>, emotions: set<string>, signals: set<string>)

  /** `value` if the catalog has it, else nothing; an empty id is no id. */
  function Check(value: Option<string>, catalog: set<string>): Option<string> {
    if value.Some? && value.value != "" && value.value in catalog then value else None
  }

  /** The refusal recorded for a slot, if any. */
  function Refused(value: Option<string>, catalog: set<string>, slot: string): seq<Drop> {
    if value.Some? && value.value != "" && value.value !in catalog then [DropId(slot, value.value)] else []
  }

  function CheckMood(mood: Option<int>, c: Catalog): Option<int> {
    if mood.Some? && mood.value in c.moods then mood else None
  }

  function CheckPause(p: Option<real>): Option<real> {
    if p.Some? && 0.0 < p.value <= 5.0 then p else None
  }

  function CheckBeat(c: Catalog, b: Beat): Beat {
    b.(mood := CheckMood(b.mood, c),
       strength := ClampIntensity(b.strength),
       gesture := if b.gesture.Some? && b.gesture.value in c.gestures then b.gesture else None,
       tree := Check(b.tree, c.trees),
       gaze := Check(b.gaze, c.gazes),
       icon := Check(b.icon, c.icons),
       sfx := Check(b.sfx, c.sfx),
       spurt := Check(b.spurt, c.spurts),
       usel := Check(b.usel, c.genres),
       breakAfter := CheckPause(b.breakAfter))
  }

  function RefusedMood(mood: Option<int>, c: Catalog): seq<Drop> {
    if mood.Some? && mood.value !in c.moods then [DropMood(mood.value)] else []
  }

  /** The values of one beat that were refused, in the order they are checked. */
  function RefusedOf(c: Catalog, b: Beat): seq<Drop> {
    RefusedMood(b.mood, c)
    + (if 0 <= b.strength <= MAX_INTENSITY then [] else [DropIntensity(b.strength)])
    + (if b.breakAfter.Some? && CheckPause(b.breakAfter).None? then [DropPause(b.breakAfter.value)] else [])
    + (if b.gesture.Some? && b.gesture.value !in c.gestures then [DropGesture(b.gesture.value)] else [])
    + Refused(b.tree, c.trees, "tree") + Refused(b.gaze, c.gazes, "gaze")
    + Refused(b.icon, c.icons, "icon") + Refused(b.sfx, c.sfx, "sfx")
    + Refused(b.spurt, c.spurts, "spurt") + Refused(b.usel, c.genres, "usel")
  }

  function CheckBeats(c: Catalog, beats: seq<Beat>): (r: seq<Beat>)
    ensures |r| == |beats|
    ensures forall k :: 0 <= k < |beats| ==> r[k] == CheckBeat(c, beats[k])
  {
    if beats == [] then [] else [CheckBeat(c, beats[0])] + CheckBeats(c, beats[1..])
  }

  function RefusedOfAll(c: Catalog, beats: seq<Beat>): seq<Drop> {
    if beats == [] then [] else RefusedOf(c, beats[0]) + RefusedOfAll(c, beats[1..])
  }

  function RefusedOfLine(c: Catalog, p: Performance): seq<Drop> {
    RefusedMood(p.mood, c) + Refused(p.act, c.acts, "dialog_act") + Refused(p.emotion, c.emotions, "emotion")
    + Refused(p.signal, c.signals, "signal")
  }

  function Validate(c: Catalog, p: Performance): Performance {
    Performance(
      CheckBeats(c, p.beats),
      Check(p.act, c.acts), Check(p.emotion, c.emotions), Check(p.signal, c.signals),
      CheckMood(p.mood, c), ClampIntensity(p.strength),
      p.dropped + RefusedOfAll(c, p.beats) + RefusedOfLine(c, p))
  }

  method ValidatePerformance(c: Catalog, p: Performance) returns (q: Performance)
    ensures q == Validate(c, p)
  {
    var bad, beats := p.dropped, [];
    assert p.beats[0..] == p.beats;
    assert [] + CheckBeats(c, p.beats) == CheckBeats(c, p.beats);
    for k := 0 to |p.beats|
      invariant beats + CheckBeats(c, p.beats[k..]) == CheckBeats(c, p.beats)
      invariant bad + RefusedOfAll(c, p.beats[k..]) == p.dropped + RefusedOfAll(c, p.beats)
    {
      ghost var rest := p.beats[k..];
      assert rest[1..] == p.beats[k + 1..];
      Assoc(beats, [CheckBeat(c, rest[0])], CheckBeats(c, rest[1..]));
      Assoc(bad, RefusedOf(c, rest[0]), RefusedOfAll(c, rest[1..]));
      beats := beats + [CheckBeat(c, p.beats[k])];
      bad := bad + RefusedOf(c, p.beats[k]);
    }
    assert p.beats[|p.beats|..] == [];
    assert beats + [] == beats && bad + [] == bad;
    bad := bad + RefusedOfLine(c, p);
    q := Performance(beats, Check(p.act, c.acts), Check(p.emotion, c.emotions), Check(p.signal, c.signals),
                     CheckMood(p.mood, c), ClampIntensity(p.strength), bad);
  }

  ghost predicate Listed(value: Option<string>, catalog: set<string>) {
    value.Some? ==> value.value in catalog && value.value != ""
  }

  /** A beat that names catalog ids only. */
  ghost predicate KnownBeat(c: Catalog, b: Beat) {
    && (b.mood.Some? ==> b.mood.value in c.moods) && 0 <= b.strength <= MAX_INTENSITY
    && (b.gesture.Some? ==> b.gesture.value in c.gestures)
    && Listed(b.tree, c.trees) && Listed(b.gaze, c.gazes) && Listed(b.icon, c.icons)
    && Listed(b.sfx, c.sfx) && Listed(b.spurt, c.spurts) && Listed(b.usel, c.genres)
    && (b.breakAfter.Some? ==> 0.0 < b.breakAfter.value <= 5.0)
  }

  ghost predicate Known(c: Catalog, p: Performance) {
    && (forall k :: 0 <= k < |p.beats| ==> KnownBeat(c, p.beats[k]))
    && Listed(p.act, c.acts) && Listed(p.emotion, c.emotions) && Listed(p.signal, c.signals)
    && (p.mood.Some? ==> p.mood.value in c.moods) && 0 <= p.strength <= MAX_INTENSITY
  }

  lemma {:induction false} KnownRefusesNothing(c: Catalog, beats: seq<Beat>)
    requires forall k :: 0 <= k < |beats| ==> KnownBeat(c, beats[k])
    ensures RefusedOfAll(c, beats) == []
  {
    if beats != [] {
      assert KnownBeat(c, beats[0]);
      KnownRefusesNothing(c, beats[1..]);
    }
  }

  lemma CheckedIsKnown(c: Catalog, b: Beat)
    ensures KnownBeat(c, CheckBeat(c, b))
    ensures KnownBeat(c, b) ==> CheckBeat(c, b) == b
  {
  }

  lemma KnownIsKept(c: Catalog, p: Performance)
    requires Known(c, p)
    ensures Validate(c, p) == p
  {
    KnownRefusesNothing(c, p.beats);
    forall k | 0 <= k < |p.beats| ensures CheckBeats(c, p.beats)[k] == p.beats[k] {
      assert KnownBeat(c, p.beats[k]);
      CheckedIsKnown(c, p.beats[k]);
    }
    assert CheckBeats(c, p.beats) == p.beats;
    assert p.dropped + [] + [] == p.dropped;
  }

  /** The gate is a projection onto the catalog: its result names only known ids and keeps
      every spoken word, and a performance is left as it is exactly when it already does. */
  lemma ValidateProjects(c: Catalog, p: Performance)
    ensures Known(c, Validate(c, p))
    ensures TextsOf(Validate(c, p).beats) == TextsOf(p.beats)
    ensures Validate(c, p) == p <==> Known(c, p)
  {
    TextsOfChecked(c, p.beats);
    var q := Validate(c, p);
    forall k | 0 <= k < |q.beats| ensures KnownBeat(c, q.beats[k]) {
      CheckedIsKnown(c, p.beats[k]);
    }
    if Known(c, p) {
      KnownIsKept(c, p);
    }
  }

  lemma {:induction false} TextsOfChecked(c: Catalog, beats: seq<Beat>)
    ensures TextsOf(CheckBeats(c, beats)) == TextsOf(beats)
  {
    if beats != [] {
      TextsOfChecked(c, beats[1..]);
      assert CheckBeats(c, beats)[1..] == CheckBeats(c, beats[1..]);
    }
  }

  // ----- what is recorded -------------------------------------------------------------------------

  /** Nothing refused: every id is the catalog's, or an empty one, which is no id. */
  predicate Passes(value: Option<string>, catalog: set<string>) {
    value.Some? && value.value != "" ==> value.value in catalog
  }

  predicate PassesBeat(c: Catalog, b: Beat) {
    && (b.mood.Some? ==> b.mood.value in c.moods) && 0 <= b.strength <= MAX_INTENSITY
    && (b.breakAfter.Some? ==> 0.0 < b.breakAfter.value <= 5.0)
    && (b.gesture.Some? ==> b.gesture.value in c.gestures)
    && Passes(b.tree, c.trees) && Passes(b.gaze, c.gazes) && Passes(b.icon, c.icons)
    && Passes(b.sfx, c.sfx) && Passes(b.spurt, c.spurts) && Passes(b.usel, c.genres)
  }

  lemma {:induction false} RecordsBeats(c: Catalog, beats: seq<Beat>)
    ensures RefusedOfAll(c, beats) == [] <==> forall k :: 0 <= k < |beats| ==> PassesBeat(c, beats[k])
  {
    if beats != [] {
      RecordsBeats(c, beats[1..]);
      assert RefusedOf(c, beats[0]) == [] <==> PassesBeat(c, beats[0]);
      if forall k :: 0 <= k < |beats[1..]| ==> PassesBeat(c, beats[1..][k]) {
        forall k | 0 < k < |beats| ensures PassesBeat(c, beats[k]) {
          assert beats[1..][k - 1] == beats[k];
        }
      }
    }
  }

  /** A value taken out is recorded, after what was recorded before, and nothing else is: the
      record grows exactly when some value is refused. The line's own intensity is the one
      value that is corrected without a record. */
  lemma ValidateRecords(c: Catalog, p: Performance)
    ensures p.dropped <= Validate(c, p).dropped
    ensures Validate(c, p).dropped == p.dropped
            <==> && (forall k :: 0 <= k < |p.beats| ==> PassesBeat(c, p.beats[k]))
                 && (p.mood.Some? ==> p.mood.value in c.moods)
                 && Passes(p.act, c.acts) && Passes(p.emotion, c.emotions) && Passes(p.signal, c.signals)
  {
    RecordsBeats(c, p.beats);
  }

  // ----- slot by slot ------------------------------------------------------------------------------

  /** A slot after the gate: as it was if it may stay, else empty. */
  ghost predicate Gated<T>(was: Option<T>, now: Option<T>, stays: bool) {
    if stays then now == was else now == None
  }

  predicate Listable(value: Option<string>, catalog: set<string>) {
    value.Some? && value.value != "" && value.value in catalog
  }

  /** A refused slot costs a beat nothing else: every slot is gated by its own catalog alone,
      the words stay, and an intensity is moved to the nearest one in range. */
  lemma ValidateSlots(c: Catalog, p: Performance, k: nat)
    requires k < |p.beats|
    ensures |Validate(c, p).beats| == |p.beats|
    ensures var b, q := p.beats[k], Validate(c, p).beats[k];
            && q.text == b.text
            && Gated(b.mood, q.mood, b.mood.Some? && b.mood.value in c.moods)
            && q.strength == (if b.strength < 0 then 0 else if b.strength > 2 then 2 else b.strength)
            && Gated(b.gesture, q.gesture, b.gesture.Some? && b.gesture.value in c.gestures)
            && Gated(b.tree, q.tree, Listable(b.tree, c.trees)) && Gated(b.gaze, q.gaze, Listable(b.gaze, c.gazes))
            && Gated(b.icon, q.icon, Listable(b.icon, c.icons)) && Gated(b.sfx, q.sfx, Listable(b.sfx, c.sfx))
            && Gated(b.spurt, q.spurt, Listable(b.spurt, c.spurts)) && Gated(b.usel, q.usel, Listable(b.usel, c.genres))
            && Gated(b.breakAfter, q.breakAfter, b.breakAfter.Some? && 0.0 < b.breakAfter.value <= 5.0)
  {
  }

  /** And so is every field of the line. */
  lemma ValidateLine(c: Catalog, p: Performance)
    ensures var q := Validate(c, p);
            && Gated(p.act, q.act, Listable(p.act, c.acts)) && Gated(p.emotion, q.emotion, Listable(p.emotion, c.emotions))
            && Gated(p.signal, q.signal, Listable(p.signal, c.signals))
            && Gated(p.mood, q.mood, p.mood.Some? && p.mood.value in c.moods)
            && q.strength == (if p.strength < 0 then 0 else if p.strength > 2 then 2 else p.strength)
  {
  }

  /** The id that stands in a named slot of a beat, and the catalog of that slot. */
  function SlotOf(c: Catalog, b: Beat, slot: string): (Option<string>, set<string>) {
    if slot == "tree" then (b.tree, c.trees) else if slot == "gaze" then (b.gaze, c.gazes)
    else if slot == "icon" then (b.icon, c.icons) else if slot == "sfx" then (b.sfx, c.sfx)
    else if slot == "spurt" then (b.spurt, c.spurts) else if slot == "usel" then (b.usel, c.genres)
    else (None, {})
  }

  function LineSlot(c: Catalog, p: Performance, slot: string): (Option<string>, set<string>) {
    if slot == "dialog_act" then (p.act, c.acts) else if slot == "emotion" then (p.emotion, c.emotions)
    else if slot == "signal" then (p.signal, c.signals)
    else (None, {})
  }

  /** Is this a value of the beat that no catalog has? */
  predicate BeatRefuses(c: Catalog, b: Beat, d: Drop) {
    match d
    case DropId(slot, id) => var s := SlotOf(c, b, slot); id != "" && s.0 == Some(id) && id !in s.1
    case DropGesture(g) => b.gesture == Some(g) && g !in c.gestures
    case DropMood(m) => b.mood == Some(m) && m !in c.moods
    case DropIntensity(i) => b.strength == i && (i < 0 || i > 2)
    case DropPause(x) => b.breakAfter == Some(x) && (x <= 0.0 || x > 5.0)
  }

  predicate LineRefuses(c: Catalog, p: Performance, d: Drop) {
    match d
    case DropId(slot, id) => var s := LineSlot(c, p, slot); id != "" && s.0 == Some(id) && id !in s.1
    case DropMood(m) => p.mood == Some(m) && m !in c.moods
    case _ => false
  }

  lemma BeatRecords(c: Catalog, b: Beat, d: Drop)
    ensures d in RefusedOf(c, b) <==> BeatRefuses(c, b, d)
  {
    var ids := Refused(b.tree, c.trees, "tree") + Refused(b.gaze, c.gazes, "gaze")
      + Refused(b.icon, c.icons, "icon") + Refused(b.sfx, c.sfx, "sfx")
      + Refused(b.spurt, c.spurts, "spurt") + Refused(b.usel, c.genres, "usel");
    assert d in ids <==> d.DropId? && BeatRefuses(c, b, d);
  }

  lemma {:induction false} BeatsRecord(c: Catalog, beats: seq<Beat>, d: Drop)
    ensures d in RefusedOfAll(c, beats) <==> exists k :: 0 <= k < |beats| && BeatRefuses(c, beats[k], d)
  {
    if beats != [] {
      BeatRecords(c, beats[0], d);
      BeatsRecord(c, beats[1..], d);
      if k :| 0 <= k < |beats[1..]| && BeatRefuses(c, beats[1..][k], d) {
        assert BeatRefuses(c, beats[k + 1], d);
      }
      if k :| 0 < k < |beats| && BeatRefuses(c, beats[k], d) {
        assert BeatRefuses(c, beats[1..][k - 1], d);
      }
    }
  }

  lemma LineRecords(c: Catalog, p: Performance, d: Drop)
    ensures d in RefusedOfLine(c, p) <==> LineRefuses(c, p, d)
  {
  }

  /** What is recorded: exactly the values no catalog has, each with the slot it was meant for. */
  lemma ValidateRecordsWhat(c: Catalog, p: Performance, d: Drop)
    ensures d in Validate(c, p).dropped[|p.dropped|..]
            <==> LineRefuses(c, p, d) || exists k :: 0 <= k < |p.beats| && BeatRefuses(c, p.beats[k], d)
  {
    BeatsRecord(c, p.beats, d);
    LineRecords(c, p, d);
    var known, new1, new2 := p.dropped, RefusedOfAll(c, p.beats), RefusedOfLine(c, p);
    AfterPrefix(known, new1, new2);
  }

  lemma AfterPrefix(a: seq<Drop>, b: seq<Drop>, c: seq<Drop>)
    ensures (a + b + c)[|a|..] == b + c
  {
  }

  function TextsOf(beats: seq<Beat>): seq<string> {
    if beats == [] then [] else [beats[0].text] + TextsOf(beats[1..])
  }

  // ----- render ---------------------------------------------------------------------------------

  predicate Present(v: Option<string>) {
    v.Some? && v.value != ""
  }

  /** Screen, face, sound, whole body, arm: what stands before the words of a beat. */
  function BeatMarks(b: Beat): seq<Mark> {
    (if Present(b.icon) then [Icons(b.icon.value)] else [])
    + (if b.mood.Some? then [Mood(b.mood.value, ClampIntensity(b.strength))] else [])
    + (if Present(b.sfx) then [Audio(b.sfx.value)] else [])
    + (if Present(b.spurt) then [Spurt(b.spurt.value)] else [])
    + (if Present(b.tree) then [Tree(NoGesture, b.tree.value)]
       else if Present(b.gaze) then [Tree(NoGesture, b.gaze.value)] else [])
    + (if b.gesture.Some? then [Tree(b.gesture.value, "")] else [])
  }

  function Tags(mint: Mint, ms: seq<Mark>): seq<Piece> {
    if ms == [] then [] else [Tag(mint(ms[0]))] + Tags(mint, ms[1..])
  }

  function TextPieces(mint: Mint, b: Beat, space: bool): seq<Piece> {
    if b.text == "" then []
    else if Present(b.usel)
    then Gap(space) + [Tag(mint(UselOpen(b.usel.value))), Plain(b.text), Tag(mint(UselClose))]
    else Gap(space) + [Plain(b.text)]
  }

  function BeatPieces(mint: Mint, b: Beat, space: bool): seq<Piece> {
    Tags(mint, BeatMarks(b)) + TextPieces(mint, b, space)
    + (if b.breakAfter.Some? && b.breakAfter.value != 0.0 then [Tag(mint(Break(b.breakAfter.value)))] else [])
  }

  function BeatsPieces(mint: Mint, beats: seq<Beat>, space: bool): seq<Piece> {
    if beats == [] then []
    else BeatPieces(mint, beats[0], space) + BeatsPieces(mint, beats[1..], space || beats[0].text != "")
  }

  predicate ShowsIcon(beats: seq<Beat>) {
    exists k :: 0 <= k < |beats| && Present(beats[k].icon)
  }

  function Tail(mint: Mint, beats: seq<Beat>): seq<Piece> {
    [Tag(mint(REST))] + (if ShowsIcon(beats) then [Tag(mint(IconsClear))] else [])
  }

  function RenderedPlan(mint: Mint, p: Performance): string {
    if p.beats == [] then ""
    else Flatten(BeatsPieces(mint, p.beats, false) + Tail(mint, p.beats))
  }

  lemma BeatsStep(mint: Mint, pieces: seq<Piece>, beats: seq<Beat>, k: nat, space: bool)
    requires k < |beats|
    ensures pieces + BeatsPieces(mint, beats[k..], space)
         == pieces + BeatPieces(mint, beats[k], space)
            + BeatsPieces(mint, beats[k + 1..], space || beats[k].text != "")
  {
    assert beats[k..][0] == beats[k] && beats[k..][1..] == beats[k + 1..];
    Assoc(pieces, BeatPieces(mint, beats[k], space), BeatsPieces(mint, beats[k + 1..], space || beats[k].text != ""));
  }

  lemma ShowsNext(beats: seq<Beat>, k: nat)
    requires k < |beats|
    ensures ShowsIcon(beats[..k + 1]) <==> ShowsIcon(beats[..k]) || Present(beats[k].icon)
  {
    var more, less := beats[..k + 1], beats[..k];
    assert more[k] == beats[k] && forall j :: 0 <= j < k ==> more[j] == less[j];
  }

  method LayPieces(mint: Mint, beats: seq<Beat>) returns (pieces: seq<Piece>, showed: bool)
    ensures pieces == BeatsPieces(mint, beats, false)
    ensures showed == ShowsIcon(beats)
  {
    pieces, showed := [], false;
    var space := false;
    assert beats[0..] == beats;
    assert [] + BeatsPieces(mint, beats, false) == BeatsPieces(mint, beats, false);
    for k := 0 to |beats|
      invariant pieces + BeatsPieces(mint, beats[k..], space) == BeatsPieces(mint, beats, false)
      invariant showed == ShowsIcon(beats[..k])
    {
      BeatsStep(mint, pieces, beats, k, space);
      pieces := pieces + BeatPieces(mint, beats[k], space);
      ShowsNext(beats, k);
      showed := showed || Present(beats[k].icon);
      space := space || beats[k].text != "";
    }
    assert beats[|beats|..] == [] && beats[..|beats|] == beats;
    assert pieces + [] == pieces;
  }

  method RenderPlan(mint: Mint, p: Performance) returns (out: string)
    ensures out == RenderedPlan(mint, p)
  {
    if p.beats == [] {
      return "";
    }
    var pieces, showed := LayPieces(mint, p.beats);
    pieces := pieces + [Tag(mint(REST))];
    if showed {
      pieces := pieces + [Tag(mint(IconsClear))];
    }
    assert pieces == BeatsPieces(mint, p.beats, false) + Tail(mint, p.beats);
    out := Flatten(pieces);
  }

  lemma {:induction false} TagsSilent(mint: Mint, ms: seq<Mark>)
    ensures Spoken(Tags(mint, ms)) == "" && PlainText(Tags(mint, ms))
  {
    if ms != [] {
      TagsSilent(mint, ms[1..]);
    }
  }

  lemma TextPiecesSpeak(mint: Mint, b: Beat, space: bool)
    requires NoAngle(b.text)
    ensures PlainText(TextPieces(mint, b, space))
    ensures Spoken(TextPieces(mint, b, space)) == (if b.text != "" && space then " " else "") + b.text
  {
    var gap := Gap(space);
    assert [Plain(" ")][1..] == [] && " "[1..] == "";
    assert Spoken(gap) == (if space then " " else "") && PlainText(gap);
    if b.text != "" {
      var inner := if Present(b.usel)
                   then [Tag(mint(UselOpen(b.usel.value))), Plain(b.text), Tag(mint(UselClose))]
                   else [Plain(b.text)];
      InnerSpeaks(mint, b);
      SpokenConcat(gap, inner);
      PlainTextConcat(gap, inner);
    }
  }

  lemma InnerSpeaks(mint: Mint, b: Beat)
    requires NoAngle(b.text)
    ensures var ps := [Plain(b.text)]; Spoken(ps) == b.text && PlainText(ps)
    ensures Present(b.usel) ==>
              var ps := [Tag(mint(UselOpen(b.usel.value))), Plain(b.text), Tag(mint(UselClose))];
              Spoken(ps) == b.text && PlainText(ps)
  {
    var one := [Plain(b.text)];
    assert one[1..] == [];
    assert b.text + "" == b.text;
    if Present(b.usel) {
      var open, close := [Tag(mint(UselOpen(b.usel.value)))], [Tag(mint(UselClose))];
      assert open[1..] == [] && close[1..] == [];
      SpokenConcat(open, one + close);
      SpokenConcat(one, close);
      PlainTextConcat(open, one + close);
      PlainTextConcat(one, close);
      assert open + (one + close) == [open[0], Plain(b.text), close[0]];
    }
  }

  lemma BeatSpeaks(mint: Mint, b: Beat, space: bool)
    requires NoAngle(b.text)
    ensures PlainText(BeatPieces(mint, b, space))
    ensures Spoken(BeatPieces(mint, b, space)) == (if b.text != "" && space then " " else "") + b.text
  {
    var marks, text := Tags(mint, BeatMarks(b)), TextPieces(mint, b, space);
    var pause := if b.breakAfter.Some? && b.breakAfter.value != 0.0
                 then Tags(mint, [Break(b.breakAfter.value)]) else Tags(mint, []);
    TagsSilent(mint, BeatMarks(b));
    TextPiecesSpeak(mint, b, space);
    assert PlainText(pause) && Spoken(pause) == "" by {
      TagsSilent(mint, if b.breakAfter.Some? then [Break(b.breakAfter.value)] else []);
      TagsSilent(mint, []);
    }
    assert Tags(mint, []) == [];
    assert b.breakAfter.Some? ==> [Break(b.breakAfter.value)][1..] == [];
    assert BeatPieces(mint, b, space) == marks + text + pause;
    SpokenConcat(marks + text, pause);
    SpokenConcat(marks, text);
    PlainTextConcat(marks + text, pause);
    PlainTextConcat(marks, text);
  }

  ghost predicate AngleFree(beats: seq<Beat>) {
    forall k :: 0 <= k < |beats| ==> NoAngle(beats[k].text)
  }

  lemma SaidMore(said: string, text: string, space: bool)
    requires space || said == ""
    ensures Words(said + ((if text != "" && space then " " else "") + text)) == Words(said) + Words(text)
  {
    if text == "" {
      assert said + ("" + text) == said;
      assert Words(said) + [] == Words(said);
    } else if space {
      assert said + (" " + text) == (said + " ") + text;
      WordsAtSpace(said + " ", text);
      WordsAtSpace(said, " ");
      BlankHasNoWords(" ");
    } else {
      assert said + ("" + text) == text;
      assert [] + Words(text) == Words(text);
    }
  }

  lemma {:induction false} BeatsSpeak(mint: Mint, beats: seq<Beat>, space: bool, said: string)
    requires AngleFree(beats) && (space || said == "")
    ensures Words(said + Spoken(BeatsPieces(mint, beats, space))) == Words(said) + WordsOfAll(TextsOf(beats))
  {
    if beats == [] {
      assert said + "" == said;
    } else {
      var b, more := beats[0], BeatsPieces(mint, beats[1..], space || beats[0].text != "");
      BeatSpeaks(mint, b, space);
      SpokenConcat(BeatPieces(mint, b, space), more);
      var now := said + Spoken(BeatPieces(mint, b, space));
      Assoc(said, Spoken(BeatPieces(mint, b, space)), Spoken(more));
      SaidMore(said, b.text, space);
      BeatsSpeak(mint, beats[1..], space || b.text != "", now);
      Assoc(Words(said), Words(b.text), WordsOfAll(TextsOf(beats[1..])));
    }
  }

  lemma {:induction false} BeatsArePlain(mint: Mint, beats: seq<Beat>, space: bool)
    requires AngleFree(beats)
    ensures PlainText(BeatsPieces(mint, beats, space))
  {
    if beats != [] {
      BeatSpeaks(mint, beats[0], space);
      BeatsArePlain(mint, beats[1..], space || beats[0].text != "");
      PlainTextConcat(BeatPieces(mint, beats[0], space), BeatsPieces(mint, beats[1..], space || beats[0].text != ""));
    }
  }

  lemma TailSilent(mint: Mint, beats: seq<Beat>)
    ensures PlainText(Tail(mint, beats)) && Spoken(Tail(mint, beats)) == ""
  {
    var ms := if ShowsIcon(beats) then [REST, IconsClear] else [REST];
    TagsSilent(mint, ms);
    assert Tags(mint, []) == [];
    assert [IconsClear][1..] == [] && [REST][1..] == [] && [REST, IconsClear][1..] == [IconsClear];
    assert Tags(mint, [IconsClear]) == [Tag(mint(IconsClear))];
    assert Tail(mint, beats) == Tags(mint, ms);
  }

  /** Rendering speaks exactly the words of the beats, in order. */
  lemma RenderSpeaks(u: Alphabet, mint: Mint, p: Performance)
    requires p.beats != [] && AngleFree(p.beats)
    ensures StripMarkup(u, RenderedPlan(mint, p)) == Join(Clean(WordsOfAll(TextsOf(p.beats))))
  {
    var body, tail := BeatsPieces(mint, p.beats, false), Tail(mint, p.beats);
    BeatsArePlain(mint, p.beats, false);
    TailSilent(mint, p.beats);
    SpokenConcat(body, tail);
    PlainTextConcat(body, tail);
    BodySpeaks(mint, p.beats);
    StripFlatten(u, body + tail);
  }

  lemma BodySpeaks(mint: Mint, beats: seq<Beat>)
    requires AngleFree(beats)
    ensures var body := Spoken(BeatsPieces(mint, beats, false));
            Words(body + "") == WordsOfAll(TextsOf(beats))
  {
    BeatsSpeak(mint, beats, false, "");
    var body := Spoken(BeatsPieces(mint, beats, false));
    assert "" + body == body + "";
    assert [] + WordsOfAll(TextsOf(beats)) == WordsOfAll(TextsOf(beats));
  }
}
