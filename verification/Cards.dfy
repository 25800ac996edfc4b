/** The action-tag grammar and the launch cards printed and read with it. */
module Cards {
  import opened Wrappers
  import opened Text
  import opened Tidying

  // ----- tags ------------------------------------------------------------------------------

  predicate IdentStart(c: char) {
    'A' <= c <= 'Z' || 'a' <= c <= 'z' || c == '_'
  }

  predicate Ident(c: char) {
    IdentStart(c) || '0' <= c <= '9'
  }

  function LowerChar(c: char): char {
    if 'A' <= c <= 'Z' then (c as int + 32) as char else c
  }

  /** Lower case of an identifier. */
  function Lower(s: string): string {
    seq(|s|, i requires 0 <= i < |s| => LowerChar(s[i]))
  }

  function IdentPrefix(s: string): (n: nat)
    ensures n <= |s|
  {
    if s == "" || !Ident(s[0]) then 0 else 1 + IdentPrefix(s[1..])
  }

  /** What stands between the angle brackets, read as a name and its arguments. */
  function TagOf(inner: string): Option<(string, string)> {
    var t := LStrip(inner);
    var n := IdentPrefix(t);
    if n == 0 || !IdentStart(t[0]) then None
    else
      var rest := LStrip(t[n..]);
      if rest == "" then Some((Lower(t[..n]), ""))
      else if rest[0] == ':' then Some((Lower(t[..n]), RStrip(rest)))
      else None
  }

  /** The first angle bracket. */
  function Angle(s: string): (k: nat)
    ensures k <= |s|
    ensures forall i :: 0 <= i < k ==> s[i] != '<' && s[i] != '>'
  {
    if s == "" || s[0] == '<' || s[0] == '>' then 0 else 1 + Angle(s[1..])
  }

  /** One character, or a bracketed run without a bracket inside. */
  datatype Piece = Plain(c: char) | Bracketed(inner: string)

  function First(s: string): Piece
    requires s != ""
  {
    var k := Angle(s[1..]);
    if s[0] == '<' && k < |s| - 1 && s[k + 1] == '>' then Bracketed(s[1..k + 1]) else Plain(s[0])
  }

  function Raw(p: Piece): string {
    if p.Plain? then [p.c] else "<" + p.inner + ">"
  }

  lemma FirstIsThere(s: string)
    requires s != ""
    ensures 0 < |Raw(First(s))| <= |s| && s[..|Raw(First(s))|] == Raw(First(s))
  {
  }

  /** The text cut at its bracketed runs. The tag pattern matches some of them and nothing
      else: a run it does not match is left as it stands. */
  function Pieces(s: string): seq<Piece>
    decreases |s|
  {
    if s == "" then []
    else
      FirstIsThere(s);
      [First(s)] + Pieces(s[|Raw(First(s))|..])
  }

  // ----- actions ---------------------------------------------------------------------------

  datatype Action = Exit | Sleep | Launch(moduleId: string, contentId: Option<string>)

  const KNOWN_TAGS: set<string> := {"exit", "sleep", "launch", "launch_if_confirmed"}

  function SplitColon(s: string): (parts: seq<string>)
    ensures parts != []
  {
    if s == "" then [""]
    else if s[0] == ':' then [""] + SplitColon(s[1..])
    else [[s[0]] + SplitColon(s[1..])[0]] + SplitColon(s[1..])[1..]
  }

  function StripAll(parts: seq<string>): (r: seq<string>)
    ensures |r| == |parts|
  {
    if parts == [] then [] else [Strip(parts[0])] + StripAll(parts[1..])
  }

  function DropEmpties(parts: seq<string>): seq<string> {
    if parts != [] && parts[|parts| - 1] == "" then DropEmpties(parts[..|parts| - 1]) else parts
  }

  function Fields(args: string): seq<string> {
    if args == "" then [] else DropEmpties(StripAll(SplitColon(args[1..])))
  }

  method FieldsOf(args: string) returns (parts: seq<string>)
    ensures parts == Fields(args)
  {
    if args == "" {
      return [];
    }
    parts := StripAll(SplitColon(args[1..]));
    while parts != [] && parts[|parts| - 1] == ""
      invariant DropEmpties(parts) == Fields(args)
    {
      parts := parts[..|parts| - 1];
    }
  }

  function ActionFor(name: string, fields: seq<string>): Option<Action> {
    if name == "exit" || name == "sleep" then
      if fields != [] then None else Some(if name == "exit" then Exit else Sleep)
    else if fields == [] || fields[0] == "" || |fields| > 2 then None
    else Some(Launch(fields[0], if |fields| == 2 then Some(fields[1]) else None))
  }

  /** A tag we claim by name, well formed or not. */
  predicate Ours(p: Piece) {
    p.Bracketed? && TagOf(p.inner).Some? && TagOf(p.inner).value.0 in KNOWN_TAGS
  }

  function Name(p: Piece): string
    requires Ours(p)
  {
    TagOf(p.inner).value.0
  }

  function ActionsOf(p: Piece): seq<Action> {
    if !Ours(p) then []
    else
      match ActionFor(Name(p), Fields(TagOf(p.inner).value.1))
      case None => []
      case Some(a) => [a]
  }

  function Actions(ps: seq<Piece>): seq<Action> {
    if ps == [] then [] else Actions(ps[..|ps| - 1]) + ActionsOf(ps[|ps| - 1])
  }

  function Names(ps: seq<Piece>): seq<string> {
    if ps == [] then [] else Names(ps[..|ps| - 1]) + (if Ours(ps[|ps| - 1]) then [Name(ps[|ps| - 1])] else [])
  }

  function Left(p: Piece): string {
    if Ours(p) then "" else Raw(p)
  }

  /** The text without our tags, before its spaces are tidied. */
  function Residue(ps: seq<Piece>): string {
    if ps == [] then "" else Residue(ps[..|ps| - 1]) + Left(ps[|ps| - 1])
  }

  method ActionOfTag(p: Piece) returns (actions: seq<Action>)
    requires Ours(p)
    ensures actions == ActionsOf(p)
  {
    var fields := FieldsOf(TagOf(p.inner).value.1);
    var action := ActionFor(Name(p), fields);
    actions := if action.Some? then [action.value] else [];
  }

  /** What one match is replaced by, and what it does. */
  method Replace(p: Piece) returns (left: string, actions: seq<Action>)
    ensures left == Left(p) && actions == ActionsOf(p)
  {
    if Ours(p) {
      left := "";
      actions := ActionOfTag(p);
    } else {
      left, actions := Raw(p), [];
    }
  }

  /** What is said, with the gaps of the removed tags closed, and what is done. */
  method ParseActionTags(text: string) returns (clean: string, actions: seq<Action>)
    ensures clean == Tidy(Residue(Pieces(text))) && actions == Actions(Pieces(text))
  {
    var ps := Pieces(text);
    clean, actions := "", [];
    for i := 0 to |ps|
      invariant clean == Residue(ps[..i]) && actions == Actions(ps[..i])
    {
      OneMore(ps, i);
      var left, more := Replace(ps[i]);
      clean, actions := clean + left, actions + more;
    }
    assert ps[..|ps|] == ps;
    clean := Tidy(clean);
  }

  lemma OneMore(ps: seq<Piece>, i: nat)
    requires i < |ps|
    ensures Residue(ps[..i + 1]) == Residue(ps[..i]) + Left(ps[i])
    ensures Actions(ps[..i + 1]) == Actions(ps[..i]) + ActionsOf(ps[i])
  {
    assert ps[..i + 1][..i] == ps[..i];
  }

  // ----- cards -------------------------------------------------------------------------------

  const MAX_CARD_LEN := 4096

  /** The on-board activities and the daily missions. */
  const CATALOG: set<string> :=
    {"AFFIRM", "AB", "ANIMALEXERCISE", "BODYSCAN", "RDL", "BREATHINGSHAPES", "COMPOSING", "FACES",
     "FF", "GUIDEDVIS", "JOKE", "JUKEBOX", "MENTORSAYS", "NONSENSE", "DANCE", "DRAW",
     "STORYTELLING", "PASSWORDGAME", "READ", "SCAVENGERHUNT", "STORY", "AUDMED", "WHIMSY", "DM"}

  function Inside(m: string, content: Option<string>): string {
    "launch:" + m + (if content.Some? && content.value != "" then ":" + content.value else "")
  }

  /** None is the raised error. */
  function Encode(m: string, content: Option<string>): Option<string> {
    if m !in CATALOG then None else Some("GO<" + Inside(m, content) + ">")
  }

  predicate OnlyLaunch(names: seq<string>) {
    names != [] && forall k :: 0 <= k < |names| ==> names[k] == "launch"
  }

  function Decode(value: string): Option<Action> {
    if |value| > MAX_CARD_LEN then None
    else
      var text := Strip(value);
      if |text| < 2 || text[..2] != "GO" then None
      else
        var ps := Pieces(text[2..]);
        if !OnlyLaunch(Names(ps)) then None
        else if |Actions(ps)| != 1 || !Actions(ps)[0].Launch? then None
        else if Tidy(Residue(ps)) != "" then None
        else if Actions(ps)[0].moduleId !in CATALOG then None
        else Some(Actions(ps)[0])
  }

  /** A content id a card can carry. */
  predicate Clean(c: string) {
    c != "" && Trimmed(c) && forall i :: 0 <= i < |c| ==> c[i] != '<' && c[i] != '>' && c[i] != ':'
  }

  // ----- fields and their lengths ----------------------------------------------------------------

  lemma {:induction false} SplitNone(a: string)
    requires ':' !in a
    ensures SplitColon(a) == [a]
  {
    if a != "" {
      SplitNone(a[1..]);
      assert a == [a[0]] + a[1..];
    }
  }

  lemma {:induction false} SplitFirst(a: string, b: string)
    requires ':' !in a
    ensures SplitColon(a + ":" + b) == [a] + SplitColon(b)
  {
    var all := a + ":" + b;
    if a == "" {
      assert all[1..] == b;
    } else {
      SplitFirst(a[1..], b);
      assert all[1..] == a[1..] + ":" + b;
      assert a == [a[0]] + a[1..];
    }
  }

  function Total(parts: seq<string>): nat {
    if parts == [] then 0 else |parts[0]| + Total(parts[1..])
  }

  lemma {:induction false} SplitTotal(s: string)
    ensures Total(SplitColon(s)) + |SplitColon(s)| == |s| + 1
  {
    if s != "" {
      SplitTotal(s[1..]);
      var parts := SplitColon(s[1..]);
      if s[0] == ':' {
        assert ([""] + parts)[1..] == parts;
      } else {
        assert ([[s[0]] + parts[0]] + parts[1..])[1..] == parts[1..];
      }
    }
  }

  lemma {:induction false} SplitHas(s: string, k: nat)
    requires k < |SplitColon(s)|
    ensures ':' !in SplitColon(s)[k] && forall c :: c in SplitColon(s)[k] ==> c in s
  {
    if s != "" {
      var parts := SplitColon(s[1..]);
      if s[0] == ':' {
        if k > 0 { SplitHas(s[1..], k - 1); }
      } else {
        SplitHas(s[1..], k);
        if k == 0 { assert SplitColon(s)[0] == [s[0]] + parts[0]; }
      }
    }
  }

  lemma {:induction false} StripAllAt(parts: seq<string>, k: nat)
    requires k < |parts|
    ensures StripAll(parts)[k] == Strip(parts[k])
  {
    if k > 0 {
      StripAllAt(parts[1..], k - 1);
    }
  }

  lemma {:induction false} StripAllTotal(parts: seq<string>)
    ensures Total(StripAll(parts)) <= Total(parts)
  {
    if parts != [] {
      StripAllTotal(parts[1..]);
      var lo, hi := StripSlice(parts[0]);
      assert StripAll(parts)[1..] == StripAll(parts[1..]);
    }
  }

  lemma {:induction false} TotalSnoc(parts: seq<string>, last: string)
    ensures Total(parts + [last]) == Total(parts) + |last|
  {
    if parts != [] {
      TotalSnoc(parts[1..], last);
      assert (parts + [last])[1..] == parts[1..] + [last];
    }
  }

  lemma {:induction false} DropEmptiesIs(parts: seq<string>)
    ensures DropEmpties(parts) <= parts && Total(DropEmpties(parts)) == Total(parts)
    ensures DropEmpties(parts) != [] ==> DropEmpties(parts)[|DropEmpties(parts)| - 1] != ""
  {
    if parts != [] && parts[|parts| - 1] == "" {
      var front := parts[..|parts| - 1];
      DropEmptiesIs(front);
      TotalSnoc(front, "");
      assert parts == front + [""];
    }
  }

  lemma {:induction false} StripKeeps(s: string, c: char)
    requires c in Strip(s)
    ensures c in s
  {
    var lo, hi := StripSlice(s);
    assert s[lo..hi] <= s[lo..];
  }

  /** Every field is a trimmed run without a colon, and the last one is not empty. */
  lemma FieldShape(args: string, k: nat)
    requires k < |Fields(args)|
    ensures var f := Fields(args)[k];
            && Trimmed(f) && ':' !in f && (forall c :: c in f ==> c in args)
            && (k == |Fields(args)| - 1 ==> f != "")
  {
    var parts := SplitColon(args[1..]);
    DropEmptiesIs(StripAll(parts));
    StripAllAt(parts, k);
    SplitHas(args[1..], k);
    StripTrimmed(parts[k]);
    forall c | c in Strip(parts[k]) ensures c in parts[k] {
      StripKeeps(parts[k], c);
    }
  }

  lemma FieldsTotal(args: string)
    requires args != ""
    ensures Total(Fields(args)) + |Fields(args)| <= |args|
  {
    var parts := SplitColon(args[1..]);
    SplitTotal(args[1..]);
    StripAllTotal(parts);
    DropEmptiesIs(StripAll(parts));
  }
}
