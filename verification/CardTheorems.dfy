/** The card printer and the card reader are inverse exactly where a card can say what was
    asked, and the reader authorises nothing else. */
module CardTheorems {
  import opened Wrappers
  import opened Text
  import opened Tidying
  import opened Cards

  // ----- reading one printed tag -------------------------------------------------------------------

  lemma {:induction false} AngleAfter(a: string, b: string)
    requires '<' !in a && '>' !in a && b != "" && (b[0] == '<' || b[0] == '>')
    ensures Angle(a + b) == |a|
  {
    if a == "" {
      assert a + b == b;
    } else {
      assert a[0] in a && (a + b)[0] == a[0];
      forall c | c in a[1..] ensures c in a {
      }
      AngleAfter(a[1..], b);
      assert (a + b)[1..] == a[1..] + b;
    }
  }

  lemma {:induction false} IdentStops(name: string, rest: string)
    requires forall i :: 0 <= i < |name| ==> Ident(name[i])
    requires rest == "" || !Ident(rest[0])
    ensures IdentPrefix(name + rest) == |name|
  {
    if name == "" {
      assert name + rest == rest;
    } else {
      IdentStops(name[1..], rest);
      assert (name + rest)[1..] == name[1..] + rest;
    }
  }

  const LAUNCH: string := "launch"

  /** What the tag pattern makes of `launch` and trimmed arguments. */
  lemma TagOfLaunch(args: string)
    requires args != "" && args[0] == ':' && Trimmed(args)
    ensures TagOf(LAUNCH + args) == Some((LAUNCH, args))
  {
    var inner := LAUNCH + args;
    assert inner[0] == 'l' && !IsSpace('l');
    assert LStrip(inner) == inner;
    IdentStops(LAUNCH, args);
    assert inner[..6] == LAUNCH && inner[6..] == args;
    assert LStrip(args) == args && RStrip(args) == args;
    assert Lower(LAUNCH) == LAUNCH;
  }

  /** A bracketed run at the front is one piece. */
  lemma BracketFirst(inner: string, rest: string)
    requires '<' !in inner && '>' !in inner
    ensures Pieces("<" + inner + ">" + rest) == [Bracketed(inner)] + Pieces(rest)
  {
    var s := "<" + inner + ">" + rest;
    assert s[1..] == inner + (">" + rest);
    AngleAfter(inner, ">" + rest);
    assert First(s) == Bracketed(inner);
    assert s[|inner| + 2..] == rest;
  }

  // ----- the catalog --------------------------------------------------------------------------------

  predicate Capital(s: string) {
    s != "" && forall i :: 0 <= i < |s| ==> 'A' <= s[i] <= 'Z'
  }

  /** Every catalog id is a plain word. */
  lemma CatalogIsCapital(m: string)
    requires m in CATALOG
    ensures Capital(m)
  {
  }

  // ----- printing and reading back ------------------------------------------------------------------

  function Args(m: string, content: Option<string>): string {
    ":" + m + (if content.Some? && content.value != "" then ":" + content.value else "")
  }

  predicate Fits(m: string, content: Option<string>) {
    |Inside(m, content)| + 4 <= MAX_CARD_LEN
  }

  lemma FieldsOfOne(m: string)
    requires Clean(m)
    ensures Fields(":" + m) == [m]
  {
    assert (":" + m)[1..] == m;
    SplitNone(m);
    StripTrimmed(m);
  }

  lemma FieldsOfTwo(m: string, c: string)
    requires Clean(m) && Clean(c)
    ensures Fields(":" + m + ":" + c) == [m, c]
  {
    assert (":" + m + ":" + c)[1..] == m + ":" + c;
    SplitFirst(m, c);
    SplitNone(c);
    StripTrimmed(m);
    StripTrimmed(c);
    assert StripAll([m, c]) == [m] + StripAll([c]) && StripAll([c]) == [c];
  }

  lemma FieldsOfCard(m: string, content: Option<string>)
    requires Clean(m) && (content.Some? ==> Clean(content.value))
    ensures ActionFor(LAUNCH, Fields(Args(m, content))) == Some(Launch(m, content))
  {
    if content.Some? {
      FieldsOfTwo(m, content.value);
      assert Args(m, content) == ":" + m + ":" + content.value;
    } else {
      FieldsOfOne(m);
      assert Args(m, content) == ":" + m;
    }
  }

  lemma ArgsShape(m: string, content: Option<string>)
    requires Clean(m) && (content.Some? ==> Clean(content.value))
    ensures var a := Args(m, content);
            a != "" && a[0] == ':' && Trimmed(a) && '<' !in a && '>' !in a && LAUNCH + a == Inside(m, content)
  {
    var a := Args(m, content);
    assert a[|a| - 1] == (if content.Some? then content.value[|content.value| - 1] else m[|m| - 1]);
    assert LAUNCH + a == Inside(m, content);
  }

  /** A printed inside is a launch tag for exactly what was printed. */
  lemma PrintedTag(m: string, content: Option<string>)
    requires Clean(m) && (content.Some? ==> Clean(content.value))
    ensures var p := Bracketed(Inside(m, content));
            && '<' !in Inside(m, content) && '>' !in Inside(m, content)
            && Ours(p) && Name(p) == LAUNCH && ActionsOf(p) == [Launch(m, content)]
  {
    ArgsShape(m, content);
    FieldsOfCard(m, content);
    TagOfLaunch(Args(m, content));
  }

  /** Everything the reader asks of the text after the marker. */
  predicate Says(ps: seq<Piece>, a: Action) {
    OnlyLaunch(Names(ps)) && Actions(ps) == [a] && Residue(ps) == ""
  }

  lemma Marked(body: string)
    requires body != "" && body[|body| - 1] == '>'
    ensures var v := "GO" + body;
            |v| == |body| + 2 && Strip(v) == v && v[2..] == body && v[..2] == "GO"
  {
    var v := "GO" + body;
    assert v[0] == 'G' && v[|v| - 1] == '>';
    StripTrimmed(v);
  }

  lemma Accepts(v: string, ps: seq<Piece>, a: Action)
    requires 2 <= |v| <= MAX_CARD_LEN && Strip(v) == v && v[..2] == "GO" && Pieces(v[2..]) == ps
    requires Says(ps, a) && a.Launch? && a.moduleId in CATALOG
    ensures Decode(v) == Some(a)
  {
  }

  lemma OneTag(p: Piece)
    requires Ours(p)
    ensures Names([p]) == [Name(p)] && Actions([p]) == ActionsOf(p) && Residue([p]) == ""
  {
    assert [p][..0] == [];
  }

  lemma OneTagSays(p: Piece, a: Action)
    requires Ours(p) && Name(p) == LAUNCH && ActionsOf(p) == [a]
    ensures Says([p], a)
  {
    OneTag(p);
  }

  lemma PrintedPieces(inner: string)
    requires '<' !in inner && '>' !in inner
    ensures Pieces("<" + inner + ">") == [Bracketed(inner)]
  {
    BracketFirst(inner, "");
    assert "<" + inner + ">" + "" == "<" + inner + ">";
  }

  lemma PrintedSays(m: string, content: Option<string>)
    requires Clean(m) && (content.Some? ==> Clean(content.value))
    ensures Says(Pieces("<" + Inside(m, content) + ">"), Launch(m, content))
  {
    PrintedTag(m, content);
    PrintedPieces(Inside(m, content));
    OneTagSays(Bracketed(Inside(m, content)), Launch(m, content));
  }

  lemma CardBody(inner: string)
    ensures "GO<" + inner + ">" == "GO" + ("<" + inner + ">")
  {
  }

  lemma PrintedReadsBack(m: string, content: Option<string>)
    requires m in CATALOG && (content.Some? ==> Clean(content.value)) && Fits(m, content)
    ensures Decode(Encode(m, content).value) == Some(Launch(m, content))
  {
    var body := "<" + Inside(m, content) + ">";
    CatalogIsCapital(m);
    PrintedSays(m, content);
    CardBody(Inside(m, content));
    Marked(body);
    Accepts("GO" + body, Pieces(body), Launch(m, content));
  }

  // ----- what the reader can authorise ------------------------------------------------------------------

  lemma {:induction false} PieceLength(s: string, p: Piece)
    requires p in Pieces(s)
    ensures |Raw(p)| <= |s|
    ensures p.Bracketed? ==> '<' !in p.inner && '>' !in p.inner
    decreases |s|
  {
    FirstIsThere(s);
    if p != First(s) {
      PieceLength(s[|Raw(First(s))|..], p);
    } else if p.Bracketed? {
      assert s[1..][..|p.inner|] == p.inner;
    }
  }

  lemma {:induction false} ActionHasPiece(ps: seq<Piece>, a: Action)
    requires a in Actions(ps)
    ensures exists p :: p in ps && a in ActionsOf(p)
  {
    var last := ps[|ps| - 1];
    if a in ActionsOf(last) {
      assert last in ps;
    } else {
      ActionHasPiece(ps[..|ps| - 1], a);
      var p :| p in ps[..|ps| - 1] && a in ActionsOf(p);
      assert p in ps;
    }
  }

  lemma {:induction false} NameIsListed(ps: seq<Piece>, p: Piece)
    requires p in ps && Ours(p)
    ensures Name(p) in Names(ps)
  {
    if p != ps[|ps| - 1] {
      NameIsListed(ps[..|ps| - 1], p);
    }
  }

  /** The parts of a tag's inside account for its length. */
  lemma TagLength(inner: string)
    requires TagOf(inner).Some?
    ensures var (name, args) := TagOf(inner).value;
            |name| + |args| <= |inner| && forall c :: c in args ==> c in inner
  {
    var t := LStrip(inner);
    var n := IdentPrefix(t);
    var rest := LStrip(t[n..]);
    LStripShape(inner);
    LStripShape(t[n..]);
    RStripShape(rest);
    forall c | c in TagOf(inner).value.1 ensures c in inner {
      assert c in rest;
      assert c in t[n..];
      assert c in t;
    }
  }

  lemma LaunchFits(inner: string, args: string, m: string, content: Option<string>)
    requires TagOf(inner) == Some((LAUNCH, args)) && '<' !in inner && '>' !in inner
    requires ActionFor(LAUNCH, Fields(args)) == Some(Launch(m, content))
    ensures |Inside(m, content)| <= |inner|
    ensures content.Some? ==> Clean(content.value)
  {
    var fields := Fields(args);
    TagLength(inner);
    FieldsTotal(args);
    if |fields| == 2 {
      FieldShape(args, 1);
      TotalTwo(m, content.value);
      assert fields == [m, content.value];
    } else {
      TotalOne(m);
      assert fields == [m];
    }
  }

  lemma TotalOne(m: string)
    ensures Total([m]) == |m|
  {
    assert [m][1..] == [];
  }

  lemma TotalTwo(m: string, c: string)
    ensures Total([m, c]) == |m| + |c|
  {
    assert [m, c][1..] == [c];
    TotalOne(c);
  }

  lemma LaunchTag(ps: seq<Piece>, a: Action) returns (p: Piece)
    requires OnlyLaunch(Names(ps)) && Actions(ps) == [a]
    ensures p in ps && Ours(p) && Name(p) == LAUNCH && ActionsOf(p) == [a]
  {
    ActionHasPiece(ps, a);
    p :| p in ps && a in ActionsOf(p);
    NameIsListed(ps, p);
  }

  lemma LaunchMeans(p: Piece, a: Action)
    requires Ours(p) && Name(p) == LAUNCH && ActionsOf(p) == [a]
    ensures TagOf(p.inner) == Some((LAUNCH, TagOf(p.inner).value.1))
    ensures ActionFor(LAUNCH, Fields(TagOf(p.inner).value.1)) == Some(a)
  {
  }

  lemma LaunchInside(p: Piece, a: Action)
    requires Ours(p) && Name(p) == LAUNCH && ActionsOf(p) == [a] && a.Launch?
    requires '<' !in p.inner && '>' !in p.inner
    ensures |Inside(a.moduleId, a.contentId)| <= |p.inner|
    ensures a.contentId.Some? ==> Clean(a.contentId.value)
  {
    LaunchMeans(p, a);
    LaunchFits(p.inner, TagOf(p.inner).value.1, a.moduleId, a.contentId);
  }

  /** The bracketed runs of a text of at most `n` characters. */
  ghost predicate Within(ps: seq<Piece>, n: nat) {
    forall p :: p in ps && p.Bracketed? ==> |p.inner| + 2 <= n && '<' !in p.inner && '>' !in p.inner
  }

  lemma PiecesWithin(s: string)
    ensures Within(Pieces(s), |s|)
  {
    forall p | p in Pieces(s) && p.Bracketed? ensures |p.inner| + 2 <= |s| && '<' !in p.inner && '>' !in p.inner {
      PieceLength(s, p);
    }
  }

  /** A single launch comes from a tag of that name that is at least as long as its card. */
  lemma LaunchPiece(ps: seq<Piece>, n: nat, a: Action)
    requires OnlyLaunch(Names(ps)) && Actions(ps) == [a] && a.Launch? && Within(ps, n)
    ensures |Inside(a.moduleId, a.contentId)| + 2 <= n
    ensures a.contentId.Some? ==> Clean(a.contentId.value)
  {
    var p := LaunchTag(ps, a);
    LaunchInside(p, a);
  }

  /** Whatever the reader accepts launches a catalog activity, with a content id that a card
      can carry, and that fits a card. */
  lemma DecodedIsClean(value: string)
    requires Decode(value).Some?
    ensures var a := Decode(value).value;
            && a.Launch? && a.moduleId in CATALOG
            && (a.contentId.Some? ==> Clean(a.contentId.value)) && Fits(a.moduleId, a.contentId)
  {
    var text := Strip(value);
    var lo, hi := StripSlice(value);
    PiecesWithin(text[2..]);
    LaunchPiece(Pieces(text[2..]), |text| - 2, Decode(value).value);
  }

  /** Only a catalog id is printed, and an empty content id is none. Printing and reading are
      inverse for a catalog id exactly when the content id is absent, or is trimmed, not empty, free of brackets and colons, and short enough for a card. */
  lemma RoundTrip(m: string, content: Option<string>)
    ensures Encode(m, content).Some? <==> m in CATALOG
    ensures Encode(m, Some("")) == Encode(m, None)
    ensures m in CATALOG ==>
              (Decode(Encode(m, content).value) == Some(Launch(m, content))
               <==> (content.Some? ==> Clean(content.value) && Fits(m, content)))
  {
    if m !in CATALOG {
    } else if content.None? {
      CatalogFits(m);
      PrintedReadsBack(m, content);
    } else if Clean(content.value) && Fits(m, content) {
      PrintedReadsBack(m, content);
    } else if Decode(Encode(m, content).value) == Some(Launch(m, content)) {
      DecodedIsClean(Encode(m, content).value);
    }
  }

  lemma CatalogFits(m: string)
    requires m in CATALOG
    ensures Fits(m, None)
  {
  }

  /** Spaces and case in a scanned card are forgotten by printing it anew, and nothing else. */
  lemma ReprintMeansTheSame(value: string)
    requires Decode(value).Some?
    ensures var a := Decode(value).value;
            Encode(a.moduleId, a.contentId).Some? && Decode(Encode(a.moduleId, a.contentId).value) == Decode(value)
  {
    DecodedIsClean(value);
    var a := Decode(value).value;
    PrintedReadsBack(a.moduleId, a.contentId);
  }

  /** "Exactly one launch tag" is not what is checked: every tag must be a launch, and one of
      them must be well formed. A card followed by an empty launch tag is still that card. */
  lemma MalformedSecondTagIsAccepted(m: string, content: Option<string>)
    requires m in CATALOG && (content.Some? ==> Clean(content.value)) && |Inside(m, content)| + 13 <= MAX_CARD_LEN
    ensures var value := "GO<" + Inside(m, content) + "><" + "launch:" + ">";
            && Names(Pieces(value[2..])) == [LAUNCH, LAUNCH]
            && Decode(value) == Some(Launch(m, content))
  {
    var inner := Inside(m, content);
    var body := "<" + inner + ">" + ("<" + "launch:" + ">");
    TwoTagText(inner);
    CatalogIsCapital(m);
    SecondTagSays(m, content);
    Marked(body);
    Accepts("GO" + body, Pieces(body), Launch(m, content));
  }

  lemma TwoTagText(inner: string)
    ensures var body := "<" + inner + ">" + ("<" + "launch:" + ">");
            && "GO<" + inner + "><" + "launch:" + ">" == "GO" + body && ("GO" + body)[2..] == body
            && body[|body| - 1] == '>'
  {
  }

  lemma SecondTagSays(m: string, content: Option<string>)
    requires Clean(m) && (content.Some? ==> Clean(content.value))
    ensures var body := "<" + Inside(m, content) + ">" + ("<" + "launch:" + ">");
            Says(Pieces(body), Launch(m, content)) && Names(Pieces(body)) == [LAUNCH, LAUNCH]
  {
    PrintedTag(m, content);
    EmptyLaunch();
    NoBrackets();
    TwoTagPieces(Inside(m, content), "launch:");
    TwoTagsSay(Bracketed(Inside(m, content)), Bracketed("launch:"), Launch(m, content));
  }

  lemma TwoTagsSay(t: Piece, u: Piece, a: Action)
    requires Ours(t) && Ours(u) && Name(t) == LAUNCH && Name(u) == LAUNCH
    requires ActionsOf(t) == [a] && ActionsOf(u) == []
    ensures Says([t, u], a) && Names([t, u]) == [LAUNCH, LAUNCH]
  {
    TwoTags(t, u);
  }

  lemma TwoTagPieces(inner: string, second: string)
    requires '<' !in inner && '>' !in inner && '<' !in second && '>' !in second
    ensures Pieces("<" + inner + ">" + ("<" + second + ">")) == [Bracketed(inner), Bracketed(second)]
  {
    BracketFirst(inner, "<" + second + ">");
    PrintedPieces(second);
  }

  lemma LaunchColon()
    ensures LAUNCH + ":" == "launch:"
  {
  }

  lemma NoBrackets()
    ensures '<' !in "launch:" && '>' !in "launch:"
  {
  }

  lemma EmptyLaunch()
    ensures var p := Bracketed("launch:"); Ours(p) && Name(p) == LAUNCH && ActionsOf(p) == []
  {
    TagOfLaunch(":");
    LaunchColon();
    NoFields();
  }

  lemma NoFields()
    ensures Fields(":") == []
  {
    assert ":"[1..] == "";
    assert SplitColon("") == [""];
    StripTrimmed("");
  }

  lemma TwoTags(t: Piece, u: Piece)
    requires Ours(t) && Ours(u)
    ensures Names([t, u]) == [Name(t), Name(u)] && Actions([t, u]) == ActionsOf(t) + ActionsOf(u) && Residue([t, u]) == ""
  {
    assert [t, u][..1] == [t];
    OneTag(t);
  }

  // ----- exactly which strings are cards ----------------------------------------------------------

  lemma {:induction false} NamesAre(ps: seq<Piece>, name: string)
    ensures (forall k :: 0 <= k < |Names(ps)| ==> Names(ps)[k] == name) <==> forall p :: p in ps && Ours(p) ==> Name(p) == name
  {
    if ps != [] {
      var front, last := ps[..|ps| - 1], ps[|ps| - 1];
      NamesAre(front, name);
      assert ps == front + [last];
      var a := Names(front);
      if Ours(last) {
        assert Names(ps) == a + [Name(last)];
        assert (a + [Name(last)])[|a|] == Name(last);
        assert forall k :: 0 <= k < |a| ==> (a + [Name(last)])[k] == a[k];
      } else {
        assert Names(ps) == a;
      }
    }
  }

  lemma BlankConcat(a: string, b: string)
    ensures Blank(a + b) <==> Blank(a) && Blank(b)
  {
    if Blank(a + b) {
      assert forall i :: 0 <= i < |a| ==> a[i] == (a + b)[i];
      assert forall i :: 0 <= i < |b| ==> b[i] == (a + b)[|a| + i];
    }
  }

  predicate IsGap(p: Piece) {
    p.Plain? && IsSpace(p.c)
  }

  lemma LeftBlank(p: Piece)
    ensures Blank(Left(p)) <==> Ours(p) || IsGap(p)
  {
    if p.Bracketed? && !Ours(p) {
      assert Left(p)[0] == '<' && !IsSpace('<');
    }
    if p.Plain? {
      assert Left(p)[0] == p.c;
    }
  }

  function Joined(left: Piece -> string, ps: seq<Piece>): string {
    if ps == [] then "" else Joined(left, ps[..|ps| - 1]) + left(ps[|ps| - 1])
  }

  lemma {:induction false} ResidueJoined(ps: seq<Piece>)
    ensures Residue(ps) == Joined(Left, ps)
  {
    if ps != [] {
      ResidueJoined(ps[..|ps| - 1]);
    }
  }

  lemma {:induction false} JoinedBlank(left: Piece -> string, ps: seq<Piece>)
    ensures Blank(Joined(left, ps)) <==> forall p :: p in ps ==> Blank(left(p))
  {
    if ps != [] {
      var front, last := ps[..|ps| - 1], ps[|ps| - 1];
      JoinedBlank(left, front);
      BlankConcat(Joined(left, front), left(last));
      assert ps == front + [last];
    }
  }

  lemma ResidueBlank(ps: seq<Piece>)
    ensures Blank(Residue(ps)) <==> forall p :: p in ps ==> Ours(p) || IsGap(p)
  {
    ResidueJoined(ps);
    JoinedBlank(Left, ps);
    forall p ensures Blank(Left(p)) <==> Ours(p) || IsGap(p) {
      LeftBlank(p);
    }
  }

  function Gather(act: Piece -> seq<Action>, ps: seq<Piece>): seq<Action> {
    if ps == [] then [] else Gather(act, ps[..|ps| - 1]) + act(ps[|ps| - 1])
  }

  lemma {:induction false} ActionsGather(ps: seq<Piece>)
    ensures Actions(ps) == Gather(ActionsOf, ps)
  {
    if ps != [] {
      ActionsGather(ps[..|ps| - 1]);
    }
  }

  /** One piece acts, and no other. */
  ghost predicate OnlyActor(act: Piece -> seq<Action>, ps: seq<Piece>, i: nat, a: Action) {
    i < |ps| && act(ps[i]) == [a] && forall j :: 0 <= j < |ps| && j != i ==> act(ps[j]) == []
  }

  lemma {:induction false} NoActions(act: Piece -> seq<Action>, ps: seq<Piece>)
    ensures Gather(act, ps) == [] <==> forall j :: 0 <= j < |ps| ==> act(ps[j]) == []
  {
    if ps != [] {
      var front := ps[..|ps| - 1];
      NoActions(act, front);
      assert forall j :: 0 <= j < |front| ==> front[j] == ps[j];
    }
  }

  lemma {:induction false} OneActionHasActor(act: Piece -> seq<Action>, ps: seq<Piece>, a: Action)
    requires Gather(act, ps) == [a]
    ensures exists i: nat :: OnlyActor(act, ps, i, a)
  {
    var front, last := ps[..|ps| - 1], ps[|ps| - 1];
    assert forall j :: 0 <= j < |front| ==> front[j] == ps[j];
    OneOfTwo(Gather(act, front), act(last), a);
    if act(last) == [] {
      OneActionHasActor(act, front, a);
      var i: nat :| OnlyActor(act, front, i, a);
      assert OnlyActor(act, ps, i, a);
    } else {
      NoActions(act, front);
      assert OnlyActor(act, ps, |front|, a);
    }
  }

  lemma {:induction false} ActorMakesOneAction(act: Piece -> seq<Action>, ps: seq<Piece>, i: nat, a: Action)
    requires OnlyActor(act, ps, i, a)
    ensures Gather(act, ps) == [a]
  {
    var front := ps[..|ps| - 1];
    assert forall j :: 0 <= j < |front| ==> front[j] == ps[j];
    if i < |front| {
      ActorMakesOneAction(act, front, i, a);
    } else {
      NoActions(act, front);
    }
  }

  lemma OneOfTwo(x: seq<Action>, y: seq<Action>, a: Action)
    requires x + y == [a]
    ensures (x == [a] && y == []) || (x == [] && y == [a])
  {
    if x != [] {
      assert (x + y)[0] == x[0];
    } else {
      assert x + y == y;
    }
  }

  /** A card: short enough, the marker, then nothing but gaps and launch tags, exactly one of
      which is well formed; and that one names a catalog activity. */
  ghost predicate IsCard(value: string, a: Action) {
    var text := Strip(value);
    && |value| <= MAX_CARD_LEN && |text| >= 2 && text[..2] == "GO"
    && var ps := Pieces(text[2..]);
       && (forall p :: p in ps ==> IsGap(p) || (Ours(p) && Name(p) == LAUNCH))
       && (exists i: nat :: OnlyActor(ActionsOf, ps, i, a))
       && a.Launch? && a.moduleId in CATALOG
  }

  lemma BodyIsCard(ps: seq<Piece>, a: Action)
    ensures OnlyLaunch(Names(ps)) && Actions(ps) == [a] && Tidy(Residue(ps)) == ""
            <==> (forall p :: p in ps ==> IsGap(p) || (Ours(p) && Name(p) == LAUNCH)) && exists i: nat :: OnlyActor(ActionsOf, ps, i, a)
  {
    TidyKeepsContent(Residue(ps));
    BlankBodyIsCard(ps, a);
  }

  lemma BlankBodyIsCard(ps: seq<Piece>, a: Action)
    ensures OnlyLaunch(Names(ps)) && Actions(ps) == [a] && Blank(Residue(ps))
            <==> (forall p :: p in ps ==> IsGap(p) || (Ours(p) && Name(p) == LAUNCH)) && exists i: nat :: OnlyActor(ActionsOf, ps, i, a)
  {
    NamesAre(ps, LAUNCH);
    ResidueBlank(ps);
    ActionsGather(ps);
    if Actions(ps) == [a] {
      OneActionHasActor(ActionsOf, ps, a);
    }
    if i: nat :| OnlyActor(ActionsOf, ps, i, a) {
      ActorMakesOneAction(ActionsOf, ps, i, a);
      assert ps[i] in ps && Ours(ps[i]);
      NameIsListed(ps, ps[i]);
    }
  }

  /** The reader accepts exactly the cards. */
  lemma AcceptedExactly(value: string, a: Action)
    ensures Decode(value) == Some(a) <==> IsCard(value, a)
  {
    var text := Strip(value);
    if |text| >= 2 {
      BodyIsCard(Pieces(text[2..]), a);
    }
  }
}
