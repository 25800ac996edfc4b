/** Characters, whitespace, word splitting and space tidying, as Python's `str` and `re`
    treat them. Every text theorem of the project speaks through `Words`. */
module Text {

  /** The character classes whose Unicode tables are not spelled out here. Every theorem
      holds for any such tables. */
  datatype Alphabet = Alphabet(
    isAlnum: char -> bool, isDigit: char -> bool, isAlpha: char -> bool,
    lower: string -> string)

  /** `str.isspace`, which is also the `\s` of a `str` pattern. */
  predicate IsSpace(c: char) {
    || '\U{09}' <= c <= '\U{0D}'
    || '\U{1C}' <= c <= '\U{20}'
    || c == '\U{85}' || c == '\U{A0}' || c == '\U{1680}'
    || '\U{2000}' <= c <= '\U{200A}'
    || c == '\U{2028}' || c == '\U{2029}' || c == '\U{202F}'
    || c == '\U{205F}' || c == '\U{3000}'
  }

  predicate Blank(s: string) {
    forall i :: 0 <= i < |s| ==> IsSpace(s[i])
  }

  predicate IsWord(w: string) {
    w != "" && forall i :: 0 <= i < |w| ==> !IsSpace(w[i])
  }

  predicate AllWords(ws: seq<string>) {
    forall i :: 0 <= i < |ws| ==> IsWord(ws[i])
  }

  function LStrip(s: string): (r: string)
    ensures |r| <= |s|
  {
    if s == "" || !IsSpace(s[0]) then s else LStrip(s[1..])
  }

  function RStrip(s: string): (r: string)
    ensures |r| <= |s|
  {
    if s == "" || !IsSpace(s[|s| - 1]) then s else RStrip(s[..|s| - 1])
  }

  function Strip(s: string): string {
    RStrip(LStrip(s))
  }

  lemma DropBoth(s: string, k: nat)
    requires k < |s|
    ensures s[1..][k..] == s[k + 1..]
  {
  }

  lemma BlankMore(s: string, k: nat)
    requires k < |s| && IsSpace(s[0]) && Blank(s[1..][..k])
    ensures Blank(s[..k + 1])
  {
    forall i | 0 <= i <= k ensures IsSpace(s[i]) {
      if i > 0 {
        assert s[i] == s[1..][..k][i - 1];
      }
    }
  }

  lemma {:induction false} LStripShape(s: string)
    ensures var r := LStrip(s);
            && (r == "" || !IsSpace(r[0]))
            && r == s[|s| - |r|..] && Blank(s[..|s| - |r|])
  {
    if s != "" && IsSpace(s[0]) {
      var t := s[1..];
      LStripShape(t);
      DropBoth(s, |t| - |LStrip(t)|);
      BlankMore(s, |t| - |LStrip(t)|);
    }
  }

  lemma BlankLess(s: string, k: nat)
    requires k < |s| && IsSpace(s[|s| - 1]) && Blank(s[..|s| - 1][k..])
    ensures Blank(s[k..])
  {
    forall i | k <= i < |s| ensures IsSpace(s[i]) {
      if i < |s| - 1 {
        assert s[i] == s[..|s| - 1][k..][i - k];
      }
    }
  }

  lemma {:induction false} RStripShape(s: string)
    ensures var r := RStrip(s);
            && (r == "" || !IsSpace(r[|r| - 1]))
            && r == s[..|r|] && Blank(s[|r|..])
  {
    if s != "" && IsSpace(s[|s| - 1]) {
      RStripShape(s[..|s| - 1]);
      BlankLess(s, |RStrip(s)|);
    }
  }

  predicate Trimmed(s: string) {
    s == "" || (!IsSpace(s[0]) && !IsSpace(s[|s| - 1]))
  }

  lemma StripTrimmed(s: string)
    ensures Trimmed(Strip(s))
    ensures Trimmed(s) ==> Strip(s) == s
    ensures Strip(s) == "" <==> Blank(s)
  {
    var l := LStrip(s);
    var r := RStrip(l);
    LStripShape(s);
    RStripShape(l);
    if r != "" {
      assert r[0] == l[0];
      assert l[0] == s[|s| - |l|];
    }
    if Blank(s) {
      LStripAfter(s, "");
      assert s + "" == s;
    }
    if r == "" {
      assert l[|r|..] == l;
      assert l == "" ==> s[..|s| - |l|] == s;
    }
  }

  /** A stripped text is a slice of the original. */
  lemma StripSlice(s: string) returns (lo: nat, hi: nat)
    ensures lo <= hi <= |s| && Strip(s) == s[lo..hi]
    ensures forall k :: 0 <= k < |s| && (k < lo || hi <= k) ==> IsSpace(s[k])
  {
    var l := LStrip(s);
    LStripShape(s);
    RStripShape(l);
    lo := |s| - |l|;
    hi := lo + |RStrip(l)|;
    assert l[|RStrip(l)|..] == s[hi..];
    forall k | 0 <= k < |s| && (k < lo || hi <= k) ensures IsSpace(s[k]) {
      if k < lo {
        assert s[k] == s[..lo][k];
      } else {
        assert s[k] == s[hi..][k - hi];
      }
    }
  }

  // ----- word splitting -------------------------------------------------------------

  function Flush(cur: string): seq<string> {
    if cur == "" then [] else [cur]
  }

  /** `str.split()` with the unfinished word `cur` already read. */
  function Split(s: string, cur: string): seq<string> {
    if s == "" then Flush(cur)
    else if IsSpace(s[0]) then Flush(cur) + Split(s[1..], "")
    else Split(s[1..], cur + [s[0]])
  }

  /** `str.split()`. */
  function Words(s: string): seq<string> {
    Split(s, "")
  }

  lemma {:induction false} SplitAtSpace(a: string, b: string, cur: string)
    requires b == "" || IsSpace(b[0])
    ensures Split(a + b, cur) == Split(a, cur) + Split(b, "")
  {
    if a == "" {
      assert a + b == b;
    } else {
      assert (a + b)[1..] == a[1..] + b;
      SplitAtSpace(a[1..], b, if IsSpace(a[0]) then "" else cur + [a[0]]);
    }
  }

  /** Splitting distributes over a cut made beside whitespace. */
  lemma WordsAtSpace(a: string, b: string)
    requires a == "" || b == "" || IsSpace(b[0]) || IsSpace(a[|a| - 1])
    ensures Words(a + b) == Words(a) + Words(b)
  {
    if b == "" || IsSpace(b[0]) {
      SplitAtSpace(a, b, "");
    } else if a == "" {
      assert a + b == b;
    } else {
      var c := a[..|a| - 1];
      var sp := [a[|a| - 1]];
      assert a == c + sp;
      assert a + b == c + (sp + b);
      SplitAtSpace(c, sp + b, "");
      SplitAtSpace(c, sp, "");
      assert (sp + b)[1..] == b;
      assert sp[1..] == "";
    }
  }

  lemma {:induction false} SplitWord(w: string, cur: string)
    requires forall i :: 0 <= i < |w| ==> !IsSpace(w[i])
    ensures Split(w, cur) == Flush(cur + w)
  {
    if w == "" {
      assert cur + w == cur;
    } else {
      SplitWord(w[1..], cur + [w[0]]);
      assert cur + [w[0]] + w[1..] == cur + w;
    }
  }

  lemma {:induction false} SplitYieldsWords(s: string, cur: string)
    requires forall i :: 0 <= i < |cur| ==> !IsSpace(cur[i])
    ensures AllWords(Split(s, cur))
  {
    if s != "" {
      SplitYieldsWords(s[1..], if IsSpace(s[0]) then "" else cur + [s[0]]);
    }
  }

  lemma {:induction false} BlankHasNoWords(s: string)
    requires Blank(s)
    ensures Words(s) == []
  {
    if s != "" {
      BlankHasNoWords(s[1..]);
    }
  }

  lemma {:induction false} SplitNonBlank(s: string, cur: string)
    requires cur != "" || !Blank(s)
    ensures Split(s, cur) != []
  {
    if s != "" {
      if IsSpace(s[0]) {
        if cur == "" {
          assert !Blank(s[1..]) by {
            var i :| 0 <= i < |s| && !IsSpace(s[i]);
            assert s[1..][i - 1] == s[i];
          }
          SplitNonBlank(s[1..], "");
        }
      } else {
        SplitNonBlank(s[1..], cur + [s[0]]);
      }
    }
  }

  lemma WordsOfLStrip(s: string)
    ensures Words(LStrip(s)) == Words(s)
  {
    var l := LStrip(s);
    LStripShape(s);
    var front := s[..|s| - |l|];
    assert s == front + l;
    BlankHasNoWords(front);
    if front != "" {
      assert IsSpace(front[|front| - 1]);
    }
    WordsAtSpace(front, l);
  }

  lemma WordsOfStrip(s: string)
    ensures Words(Strip(s)) == Words(s)
  {
    WordsOfLStrip(s);
    var l := LStrip(s);
    var r := RStrip(l);
    RStripShape(l);
    var back := l[|r|..];
    assert l == r + back;
    BlankHasNoWords(back);
    WordsAtSpace(r, back);
  }

  // ----- joining words with single spaces -------------------------------------------

  function Join(ws: seq<string>): string {
    if ws == [] then ""
    else if |ws| == 1 then ws[0]
    else ws[0] + " " + Join(ws[1..])
  }

  lemma {:induction false} JoinWords(ws: seq<string>)
    requires AllWords(ws)
    ensures Words(Join(ws)) == ws
    ensures Join(ws) == "" <==> ws == []
    ensures ws != [] ==> Join(ws)[0] == ws[0][0]
  {
    if ws != [] {
      SplitWord(ws[0], "");
      assert "" + ws[0] == ws[0];
      if |ws| > 1 {
        JoinWords(ws[1..]);
        var tail := Join(ws[1..]);
        assert ws[0] + " " + tail == (ws[0] + " ") + tail;
        WordsAtSpace(ws[0] + " ", tail);
        WordsAtSpace(ws[0], " ");
        BlankHasNoWords(" ");
      }
    }
  }

  // ----- `re.sub(r"\s+", " ", s).strip()` -------------------------------------------

  function Collapse(s: string, inRun: bool): string {
    if s == "" then ""
    else if IsSpace(s[0]) then (if inRun then "" else " ") + Collapse(s[1..], true)
    else [s[0]] + Collapse(s[1..], false)
  }

  function TidySpaces(s: string): string {
    Strip(Collapse(s, false))
  }

  function Tail(s: string, cur: string): string {
    if Split(s, cur) != [] && s != "" && IsSpace(s[|s| - 1]) then " " else ""
  }

  lemma JoinAfterGap(cur: string, ws: seq<string>, c: string, tail: string)
    requires c == Join(ws) + tail && (ws == [] ==> tail == "")
    ensures cur + (" " + c) == Join([cur] + ws) + (if ws == [] then " " else tail)
  {
    assert ([cur] + ws)[1..] == ws;
    if ws == [] {
      assert [cur] + ws == [cur];
    } else {
      assert cur + (" " + (Join(ws) + tail)) == cur + " " + Join(ws) + tail;
    }
  }

  /** Collapsing leaves the words joined by single spaces, and one blank if the text ended
      in whitespace. */
  lemma {:induction false} CollapseIsJoin(s: string, cur: string)
    requires forall i :: 0 <= i < |cur| ==> !IsSpace(cur[i])
    ensures cur + Collapse(s, cur == "") == Join(Split(s, cur)) + Tail(s, cur)
    decreases s, cur, 1
  {
    if s != "" {
      if IsSpace(s[0]) {
        CollapseAtSpace(s, cur);
      } else {
        var t, next := s[1..], cur + [s[0]];
        CollapseIsJoin(t, next);
        assert cur + ([s[0]] + Collapse(t, false)) == next + Collapse(t, false);
        SplitNonBlank(t, next);
      }
    }
  }

  lemma {:induction false} CollapseAtSpace(s: string, cur: string)
    requires s != "" && IsSpace(s[0])
    requires forall i :: 0 <= i < |cur| ==> !IsSpace(cur[i])
    ensures cur + Collapse(s, cur == "") == Join(Split(s, cur)) + Tail(s, cur)
    decreases s, cur, 0
  {
    var t := s[1..];
    CollapseIsJoin(t, "");
    var c := Collapse(t, true);
    assert "" + c == c;
    LastBeyond(s);
    if cur == "" {
      assert Split(s, cur) == Split(t, "");
    } else {
      JoinAfterGap(cur, Split(t, ""), c, Tail(t, ""));
    }
  }

  lemma LastBeyond(s: string)
    requires s != "" && IsSpace(s[0])
    ensures Words(s[1..]) == [] ==> IsSpace(s[|s| - 1])
    ensures Words(s[1..]) != [] ==> |s| > 1 && s[|s| - 1] == s[1..][|s| - 2]
  {
    if Words(s[1..]) == [] {
      LastOfBlank(s);
    }
  }

  lemma LastOfBlank(s: string)
    requires s != "" && Words(s[1..]) == [] && IsSpace(s[0])
    ensures IsSpace(s[|s| - 1])
  {
    if !Blank(s[1..]) {
      SplitNonBlank(s[1..], "");
    } else if |s| > 1 {
      assert s[1..][|s| - 2] == s[|s| - 1];
    }
  }

  lemma {:induction false} JoinEnds(ws: seq<string>)
    requires AllWords(ws) && ws != []
    ensures Join(ws) != "" && Trimmed(Join(ws))
  {
    if |ws| > 1 {
      JoinEnds(ws[1..]);
    }
  }

  lemma StripAround(pre: string, core: string, post: string)
    requires Trimmed(core) && Blank(pre) && Blank(post)
    requires core == "" ==> post == ""
    ensures Strip(pre + (core + post)) == core
  {
    var s := core + post;
    LStripAfter(pre, s);
    if core == "" {
      assert s == "";
    } else {
      assert s[0] == core[0];
      RStripBefore(core, post);
    }
  }

  lemma {:induction false} LStripAfter(pre: string, s: string)
    requires Blank(pre)
    ensures LStrip(pre + s) == LStrip(s)
  {
    if pre == "" {
      assert pre + s == s;
    } else {
      assert (pre + s)[1..] == pre[1..] + s;
      LStripAfter(pre[1..], s);
    }
  }

  lemma {:induction false} RStripBefore(s: string, post: string)
    requires Blank(post)
    ensures RStrip(s + post) == RStrip(s)
  {
    if post == "" {
      assert s + post == s;
    } else {
      assert (s + post)[..|s + post| - 1] == s + post[..|post| - 1];
      RStripBefore(s, post[..|post| - 1]);
    }
  }

  /** Tidying spaces is joining the words: two texts with the same words tidy alike. */
  lemma TidyIsJoin(s: string)
    ensures TidySpaces(s) == Join(Words(s))
  {
    var core := Join(Words(s));
    SplitYieldsWords(s, "");
    if Words(s) != [] {
      JoinEnds(Words(s));
    }
    CollapseFromStart(s);
    StripAround(if s != "" && IsSpace(s[0]) then " " else "", core, Tail(s, ""));
  }

  lemma CollapseFromStart(s: string)
    ensures Collapse(s, false) == (if s != "" && IsSpace(s[0]) then " " else "") + (Join(Words(s)) + Tail(s, ""))
  {
    CollapseIsJoin(s, "");
    NothingBefore(Collapse(s, true));
    CollapseStarts(s);
  }

  lemma NothingBefore(s: string)
    ensures "" + s == s
  {
  }

  lemma CollapseStarts(s: string)
    ensures Collapse(s, false) == (if s != "" && IsSpace(s[0]) then " " else "") + Collapse(s, true)
  {
    if s == "" || !IsSpace(s[0]) {
      NothingBefore(Collapse(s, true));
    } else {
      NothingBefore(Collapse(s[1..], true));
    }
  }

  // ----- list helpers ----------------------------------------------------------------

  /** The words of several texts, in order. */
  function WordsOfAll(ss: seq<string>): seq<string> {
    if ss == [] then [] else Words(ss[0]) + WordsOfAll(ss[1..])
  }

  lemma {:induction false} WordsOfAllConcat(a: seq<string>, b: seq<string>)
    ensures WordsOfAll(a + b) == WordsOfAll(a) + WordsOfAll(b)
  {
    if a == [] {
      assert a + b == b;
    } else {
      assert (a + b)[1..] == a[1..] + b;
      WordsOfAllConcat(a[1..], b);
    }
  }

  /** All texts, one after another. */
  function Concat(ss: seq<string>): string {
    if ss == [] then "" else ss[0] + Concat(ss[1..])
  }
}
