/** `strip_markup`: the spoken text of a behavior-markup line. It is the observer of every
    word-preservation theorem. */
module Speech {
  import opened Text

  /** The pictograph class removed before synthesis. */
  predicate IsEmoji(c: char) {
    || '\U{1F000}' <= c <= '\U{1FAFF}'
    || '\U{2600}' <= c <= '\U{27BF}'
    || '\U{2B00}' <= c <= '\U{2BFF}'
    || '\U{FE00}' <= c <= '\U{FE0F}'
    || c == '\U{200D}' || c == '\U{20E3}'
    || c == '\U{A9}' || c == '\U{AE}' || c == '\U{2122}' || c == '\U{2139}'
    || c == '\U{2934}' || c == '\U{2935}' || c == '\U{3030}' || c == '\U{303D}'
    || c == '\U{3297}' || c == '\U{3299}'
  }

  /** Index of the first `>` at or after `i`, or the length. */
  function NextClose(s: string, i: nat): (k: nat)
    requires i <= |s|
    ensures i <= k <= |s|
    decreases |s| - i
  {
    if i == |s| || s[i] == '>' then i else NextClose(s, i + 1)
  }

  /** A `\w` character; `>` is none in any table. */
  predicate WordChar(u: Alphabet, c: char) {
    c != '>' && (u.isAlnum(c) || c == '_')
  }

  /** Does `<mark\b[^>]*` with its closing `>` match at the start of `s`? The pattern is
      case-blind, and the Kelvin sign folds to `k`. */
  predicate MarkAt(u: Alphabet, s: string) {
    && |s| > 5 && s[0] == '<'
    && s[1] in "mM" && s[2] in "aA" && s[3] in "rR" && s[4] in "kK\U{212A}"
    && !WordChar(u, s[5])
    && NextClose(s, 5) < |s|
  }

  function SubMarks(u: Alphabet, s: string): string
    decreases |s|
  {
    if s == "" then ""
    else if MarkAt(u, s) then SubMarks(u, s[NextClose(s, 5) + 1..])
    else [s[0]] + SubMarks(u, s[1..])
  }

  /** Does `<[^>]+>` match at the start of `s`? */
  predicate TagAt(s: string) {
    |s| > 1 && s[0] == '<' && s[1] != '>' && NextClose(s, 1) < |s|
  }

  function SubTags(s: string): string
    decreases |s|
  {
    if s == "" then ""
    else if TagAt(s) then SubTags(s[NextClose(s, 1) + 1..])
    else [s[0]] + SubTags(s[1..])
  }

  function DropEmoji(s: string): string {
    if s == "" then ""
    else (if IsEmoji(s[0]) then "" else [s[0]]) + DropEmoji(s[1..])
  }

  function StripMarkup(u: Alphabet, markup: string): string {
    TidySpaces(DropEmoji(SubTags(SubMarks(u, markup))))
  }

  // ----- markup lines as alternating text and tags ------------------------------------

  predicate Without(cs: string, s: string) {
    s == "" || (s[0] !in cs && Without(cs, s[1..]))
  }

  predicate NoAngle(s: string) {
    Without("<>", s)
  }

  lemma {:induction false} WithoutConcat(cs: string, a: string, b: string)
    ensures Without(cs, a + b) <==> Without(cs, a) && Without(cs, b)
  {
    if a == "" {
      assert a + b == b;
    } else {
      assert (a + b)[1..] == a[1..] + b;
      WithoutConcat(cs, a[1..], b);
    }
  }

  lemma {:induction false} WithoutAt(cs: string, s: string)
    ensures Without(cs, s) <==> forall i :: 0 <= i < |s| ==> s[i] !in cs
  {
    if s != "" {
      WithoutAt(cs, s[1..]);
      if forall i :: 0 <= i < |s| ==> s[i] !in cs {
        assert forall i :: 0 <= i < |s[1..]| ==> s[1..][i] == s[i + 1];
      }
      if Without(cs, s) {
        assert forall i :: 0 < i < |s| ==> s[i] == s[1..][i - 1];
      }
    }
  }

  /** The inside of one angle-bracket tag. */
  type TagBody = b: string | b != "" && NoAngle(b) witness (assert "b"[1..] == ""; "b")

  datatype Piece = Plain(text: string) | Tag(body: TagBody)

  predicate PlainText(ps: seq<Piece>) {
    ps == [] || ((ps[0].Plain? ==> NoAngle(ps[0].text)) && PlainText(ps[1..]))
  }

  lemma {:induction false} PlainTextConcat(a: seq<Piece>, b: seq<Piece>)
    ensures PlainText(a + b) <==> PlainText(a) && PlainText(b)
  {
    if a == [] {
      assert a + b == b;
    } else {
      assert (a + b)[1..] == a[1..] + b;
      PlainTextConcat(a[1..], b);
    }
  }

  function Write(p: Piece): string {
    match p
    case Plain(t) => t
    case Tag(b) => "<" + b + ">"
  }

  function Flatten(ps: seq<Piece>): string {
    if ps == [] then "" else Write(ps[0]) + Flatten(ps[1..])
  }

  /** The text of a line with every tag removed. */
  function Spoken(ps: seq<Piece>): string {
    if ps == [] then ""
    else (if ps[0].Plain? then ps[0].text else "") + Spoken(ps[1..])
  }

  lemma {:induction false} FlattenConcat(a: seq<Piece>, b: seq<Piece>)
    ensures Flatten(a + b) == Flatten(a) + Flatten(b)
  {
    if a == [] {
      assert a + b == b;
    } else {
      assert (a + b)[1..] == a[1..] + b;
      FlattenConcat(a[1..], b);
    }
  }

  lemma {:induction false} SpokenConcat(a: seq<Piece>, b: seq<Piece>)
    ensures Spoken(a + b) == Spoken(a) + Spoken(b)
  {
    if a == [] {
      assert a + b == b;
    } else {
      assert (a + b)[1..] == a[1..] + b;
      SpokenConcat(a[1..], b);
    }
  }

  predicate IsMarkBody(u: Alphabet, b: string) {
    && |b| >= 4
    && b[0] in "mM" && b[1] in "aA" && b[2] in "rR" && b[3] in "kK\U{212A}"
    && (|b| > 4 ==> !WordChar(u, b[4]))
  }

  function WithoutMarks(u: Alphabet, ps: seq<Piece>): (r: seq<Piece>) {
    if ps == [] then []
    else (if ps[0].Tag? && IsMarkBody(u, ps[0].body) then [] else [ps[0]]) + WithoutMarks(u, ps[1..])
  }

  // ----- the two substitutions on such lines ------------------------------------------

  lemma {:induction false} NextCloseBody(a: string, rest: string, i: nat)
    requires i <= |a| && NoAngle(a[i..])
    ensures NextClose(a + ">" + rest, i) == |a|
    decreases |a| - i
  {
    var s := a + ">" + rest;
    if i < |a| {
      assert s[i] == a[i..][0];
      assert a[i + 1..] == a[i..][1..];
      NextCloseBody(a, rest, i + 1);
    }
  }

  lemma {:induction false} NoAngleNoOpen(t: string)
    requires NoAngle(t)
    ensures Without("<", t)
  {
    if t != "" {
      NoAngleNoOpen(t[1..]);
    }
  }

  lemma {:induction false} NoAngleFrom(t: string, i: nat)
    requires NoAngle(t) && i <= |t|
    ensures NoAngle(t[i..])
  {
    WithoutConcat("<>", t[..i], t[i..]);
    assert t == t[..i] + t[i..];
  }

  lemma {:induction false} SubMarksPlain(u: Alphabet, t: string, rest: string)
    requires Without("<", t)
    ensures SubMarks(u, t + rest) == t + SubMarks(u, rest)
  {
    if t == "" {
      assert t + rest == rest;
    } else {
      assert (t + rest)[1..] == t[1..] + rest;
      SubMarksPlain(u, t[1..], rest);
      assert [t[0]] + (t[1..] + SubMarks(u, rest)) == t + SubMarks(u, rest);
    }
  }

  lemma {:induction false} SubTagsPlain(t: string, rest: string)
    requires Without("<", t)
    ensures SubTags(t + rest) == t + SubTags(rest)
  {
    if t == "" {
      assert t + rest == rest;
    } else {
      assert (t + rest)[1..] == t[1..] + rest;
      SubTagsPlain(t[1..], rest);
      assert [t[0]] + (t[1..] + SubTags(rest)) == t + SubTags(rest);
    }
  }

  lemma TagClose(b: TagBody, rest: string, i: nat)
    requires 1 <= i <= |b| + 1
    ensures var s := Write(Tag(b)) + rest;
            NextClose(s, i) == |b| + 1 && s[|b| + 2..] == rest
  {
    var a := "<" + b;
    var s := Write(Tag(b)) + rest;
    assert s == a + ">" + rest;
    assert a[i..] == b[i - 1..];
    NoAngleFrom(b, i - 1);
    NextCloseBody(a, rest, i);
  }

  lemma MarkAtTag(u: Alphabet, b: TagBody, rest: string)
    ensures MarkAt(u, Write(Tag(b)) + rest) ==> IsMarkBody(u, b)
    ensures IsMarkBody(u, b) ==> MarkAt(u, Write(Tag(b)) + rest)
  {
    var s := Write(Tag(b)) + rest;
    assert forall k :: 0 <= k < |b| ==> s[k + 1] == b[k];
    assert s[|b| + 1] == '>';
    assert |b| > 0 ==> s[1] == b[0];
    assert |b| > 1 ==> s[2] == b[1];
    assert |b| > 2 ==> s[3] == b[2];
    assert |b| > 3 ==> s[4] == b[3];
    assert |b| > 4 ==> s[5] == b[4];
    if IsMarkBody(u, b) {
      TagClose(b, rest, 5);
    }
  }

  /** A tag that is no mark stays, and the scan goes on behind its opening bracket. */
  lemma OtherTagStays(u: Alphabet, b: TagBody, rest: string)
    requires !MarkAt(u, Write(Tag(b)) + rest)
    ensures SubMarks(u, Write(Tag(b)) + rest) == Write(Tag(b)) + SubMarks(u, rest)
  {
    var s, inner := Write(Tag(b)) + rest, b + ">";
    assert s[1..] == inner + rest;
    InnerStays(u, b, rest);
    OpenBracket(b, SubMarks(u, rest));
  }

  lemma OpenBracket(b: TagBody, rest: string)
    ensures ['<'] + (b + ">" + rest) == Write(Tag(b)) + rest
  {
  }

  lemma MarkGoes(u: Alphabet, b: TagBody, rest: string)
    requires IsMarkBody(u, b) && MarkAt(u, Write(Tag(b)) + rest)
    ensures SubMarks(u, Write(Tag(b)) + rest) == SubMarks(u, rest)
  {
    TagClose(b, rest, 5);
  }

  lemma InnerStays(u: Alphabet, b: TagBody, rest: string)
    ensures SubMarks(u, b + ">" + rest) == b + ">" + SubMarks(u, rest)
  {
    NoAngleNoOpen(b);
    WithoutConcat("<", b, ">");
    SubMarksPlain(u, b + ">", rest);
  }

  lemma SubMarksTag(u: Alphabet, b: TagBody, rest: string)
    ensures SubMarks(u, Write(Tag(b)) + rest)
         == (if IsMarkBody(u, b) then "" else Write(Tag(b))) + SubMarks(u, rest)
  {
    MarkAtTag(u, b, rest);
    if IsMarkBody(u, b) {
      MarkGoes(u, b, rest);
      assert "" + SubMarks(u, rest) == SubMarks(u, rest);
    } else {
      OtherTagStays(u, b, rest);
    }
  }

  lemma {:induction false} SubMarksFlatten(u: Alphabet, ps: seq<Piece>)
    requires PlainText(ps)
    ensures SubMarks(u, Flatten(ps)) == Flatten(WithoutMarks(u, ps))
  {
    if ps != [] {
      SubMarksFlatten(u, ps[1..]);
      var rest := Flatten(ps[1..]);
      var kept := WithoutMarks(u, ps[1..]);
      match ps[0] {
        case Plain(t) =>
          NoAngleNoOpen(t);
          SubMarksPlain(u, t, rest);
          assert ([ps[0]] + kept)[1..] == kept;
        case Tag(b) =>
          SubMarksTag(u, b, rest);
          if IsMarkBody(u, b) {
            assert [] + kept == kept;
            assert "" + Flatten(kept) == Flatten(kept);
          } else {
            assert ([ps[0]] + kept)[1..] == kept;
          }
      }
    }
  }

  lemma {:induction false} SubTagsFlatten(ps: seq<Piece>)
    requires PlainText(ps)
    ensures SubTags(Flatten(ps)) == Spoken(ps)
  {
    if ps != [] {
      SubTagsFlatten(ps[1..]);
      var rest := Flatten(ps[1..]);
      match ps[0] {
        case Plain(t) =>
          NoAngleNoOpen(t);
          SubTagsPlain(t, rest);
        case Tag(b) =>
          TagClose(b, rest, 1);
          var s := Write(ps[0]) + rest;
          assert s[1] == b[0];
          assert "" + Spoken(ps[1..]) == Spoken(ps[1..]);
      }
    }
  }

  lemma {:induction false} WithoutMarksSpoken(u: Alphabet, ps: seq<Piece>)
    requires PlainText(ps)
    ensures PlainText(WithoutMarks(u, ps)) && Spoken(WithoutMarks(u, ps)) == Spoken(ps)
  {
    if ps != [] {
      WithoutMarksSpoken(u, ps[1..]);
      var kept := WithoutMarks(u, ps[1..]);
      if ps[0].Tag? && IsMarkBody(u, ps[0].body) {
        assert [] + kept == kept;
      } else {
        assert ([ps[0]] + kept)[1..] == kept;
      }
    }
  }

  // ----- emoji and words --------------------------------------------------------------

  /** The words left when emoji are dropped: emoji-only words vanish. */
  function Clean(ws: seq<string>): seq<string> {
    if ws == [] then [] else Flush(DropEmoji(ws[0])) + Clean(ws[1..])
  }

  lemma {:induction false} CleanConcat(a: seq<string>, b: seq<string>)
    ensures Clean(a + b) == Clean(a) + Clean(b)
  {
    if a == [] {
      assert a + b == b;
    } else {
      assert (a + b)[1..] == a[1..] + b;
      CleanConcat(a[1..], b);
    }
  }

  lemma {:induction false} DropEmojiSnoc(s: string, c: char)
    ensures DropEmoji(s + [c]) == DropEmoji(s) + (if IsEmoji(c) then "" else [c])
  {
    if s != "" {
      assert (s + [c])[1..] == s[1..] + [c];
      DropEmojiSnoc(s[1..], c);
    }
  }

  lemma {:induction false} SplitDropEmoji(s: string, cur: string)
    ensures Split(DropEmoji(s), DropEmoji(cur)) == Clean(Split(s, cur))
  {
    if s == "" {
    } else if IsSpace(s[0]) {
      SplitDropEmoji(s[1..], "");
      CleanConcat(Flush(cur), Split(s[1..], ""));
      var d := DropEmoji(s);
      assert d == [s[0]] + DropEmoji(s[1..]);
      assert d[1..] == DropEmoji(s[1..]);
    } else {
      SplitDropEmoji(s[1..], cur + [s[0]]);
      DropEmojiSnoc(cur, s[0]);
      var d := DropEmoji(s);
      if IsEmoji(s[0]) {
        assert d == DropEmoji(s[1..]);
        assert DropEmoji(cur) + "" == DropEmoji(cur);
      } else {
        assert d[1..] == DropEmoji(s[1..]);
      }
    }
  }

  /** What is spoken of any line: its cleaned words, joined by single spaces. */
  lemma StripFlatten(u: Alphabet, ps: seq<Piece>)
    requires PlainText(ps)
    ensures StripMarkup(u, Flatten(ps)) == Join(Clean(Words(Spoken(ps))))
  {
    SubMarksFlatten(u, ps);
    WithoutMarksSpoken(u, ps);
    SubTagsFlatten(WithoutMarks(u, ps));
    SplitDropEmoji(Spoken(ps), "");
    TidyIsJoin(DropEmoji(Spoken(ps)));
  }

  lemma StripPlain(u: Alphabet, t: string)
    requires NoAngle(t)
    ensures StripMarkup(u, t) == Join(Clean(Words(t)))
  {
    NoAngleNoOpen(t);
    SubMarksPlain(u, t, "");
    SubTagsPlain(t, "");
    assert t + "" == t;
    SplitDropEmoji(t, "");
    TidyIsJoin(DropEmoji(t));
  }
}
