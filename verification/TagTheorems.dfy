/** The action-tag grammar without the scan: which bracketed runs are tags, what they are
    called, and what each of them does. */
module TagTheorems {
  import opened Wrappers
  import opened Text
  import opened Cards

  // ----- what a tag looks like ------------------------------------------------------------------

  predicate Letter(c: char) {
    'a' <= c <= 'z' || 'A' <= c <= 'Z' || c == '_'
  }

  predicate WordChar(c: char) {
    Letter(c) || '0' <= c <= '9'
  }

  /** `name` is `word` with its capital letters made small. */
  ghost predicate Lowered(word: string, name: string) {
    && |name| == |word|
    && forall k :: 0 <= k < |word| ==>
         name[k] as int == word[k] as int + (if 'A' <= word[k] <= 'Z' then 'a' as int - 'A' as int else 0)
  }

  /** A gap up to `i`, a word up to `j`, a gap up to `k`, then nothing, or a colon and arguments
      with no gap behind them. */
  ghost predicate TagAt(inner: string, i: nat, j: nat, k: nat, name: string, args: string) {
    && i < j <= k <= |inner|
    && Blank(inner[..i]) && Letter(inner[i]) && (forall m :: i <= m < j ==> WordChar(inner[m])) && Blank(inner[j..k])
    && Lowered(inner[i..j], name)
    && if k == |inner| then args == ""
       else inner[k] == ':' && args != "" && !IsSpace(args[|args| - 1]) && args <= inner[k..] && Blank(inner[k + |args|..])
  }

  ghost predicate IsTag(inner: string, name: string, args: string) {
    exists i: nat, j: nat, k: nat :: TagAt(inner, i, j, k, name, args)
  }

  // ----- the scan finds exactly that ----------------------------------------------------------------

  lemma LStripAt(s: string, i: nat)
    requires i <= |s| && Blank(s[..i]) && (i < |s| ==> !IsSpace(s[i]))
    ensures LStrip(s) == s[i..]
  {
    LStripAfter(s[..i], s[i..]);
    assert s == s[..i] + s[i..];
  }

  lemma RStripAt(s: string, n: nat)
    requires 0 < n <= |s| && !IsSpace(s[n - 1]) && Blank(s[n..])
    ensures RStrip(s) == s[..n]
  {
    RStripBefore(s[..n], s[n..]);
    assert s == s[..n] + s[n..];
  }

  lemma {:induction false} PrefixIs(s: string, n: nat)
    requires n <= |s| && (forall m :: 0 <= m < n ==> WordChar(s[m])) && (n < |s| ==> !WordChar(s[n]))
    ensures IdentPrefix(s) == n
  {
    if n > 0 {
      PrefixIs(s[1..], n - 1);
    }
  }

  lemma {:induction false} PrefixShape(s: string)
    ensures var n := IdentPrefix(s);
            (forall m :: 0 <= m < n ==> WordChar(s[m])) && (n < |s| ==> !WordChar(s[n]))
  {
    if s != "" && Ident(s[0]) {
      PrefixShape(s[1..]);
      var n := IdentPrefix(s[1..]);
      forall m | 0 <= m < n + 1 ensures WordChar(s[m]) {
        if m > 0 {
          assert s[m] == s[1..][m - 1];
        }
      }
    }
  }

  lemma LowerIs(word: string)
    ensures Lowered(word, Lower(word))
  {
  }

  lemma OneLowered(word: string, a: string, b: string)
    requires Lowered(word, a) && Lowered(word, b)
    ensures a == b
  {
    forall k | 0 <= k < |a| ensures a[k] == b[k] {
      assert a[k] as int == b[k] as int;
    }
  }

  lemma WordsAreSolid(c: char)
    requires WordChar(c) || c == ':'
    ensures !IsSpace(c)
  {
  }

  lemma BlankSlice(s: string, i: nat, j: nat)
    requires i < j <= |s| && Blank(s[i..j])
    ensures IsSpace(s[i])
  {
    assert s[i..j][0] == s[i];
  }

  lemma RStripOf(s: string, args: string)
    requires s != "" && s[0] == ':'
    ensures args == RStrip(s) <==> args != "" && !IsSpace(args[|args| - 1]) && args <= s && Blank(s[|args|..])
  {
    RStripShape(s);
    var r := RStrip(s);
    WordsAreSolid(':');
    if args != "" && args <= s && !IsSpace(args[|args| - 1]) && Blank(s[|args|..]) {
      RStripAt(s, |args|);
    }
  }

  /** Where the word of a tag ends, and where its gap does. */
  lemma ScanOf(inner: string, i: nat, j: nat, k: nat, name: string, args: string)
    requires TagAt(inner, i, j, k, name, args)
    ensures LStrip(inner) == inner[i..] && IdentPrefix(inner[i..]) == j - i && LStrip(inner[j..]) == inner[k..]
  {
    var t := inner[i..];
    WordsAreSolid(inner[i]);
    LStripAt(inner, i);
    assert inner[j..][..k - j] == inner[j..k];
    if k < |inner| {
      WordsAreSolid(':');
      assert inner[j..][k - j] == inner[k];
    }
    LStripAt(inner[j..], k - j);
    assert inner[j..][k - j..] == inner[k..];
    if j < k {
      BlankSlice(inner, j, k);
    }
    assert forall m :: 0 <= m < j - i ==> t[m] == inner[i + m];
    assert j < |inner| ==> t[j - i] == inner[j] && !WordChar(inner[j]) by {
      if j < |inner| && WordChar(inner[j]) {
        WordsAreSolid(inner[j]);
      }
    }
    PrefixIs(t, j - i);
  }

  lemma TagOfTag(inner: string, i: nat, j: nat, k: nat, name: string, args: string)
    requires TagAt(inner, i, j, k, name, args)
    ensures TagOf(inner) == Some((name, args))
  {
    ScanOf(inner, i, j, k, name, args);
    ScanIs(inner, i, j, k);
    ReadSlices(inner, i, j, k);
    LowerIs(inner[i..j]);
    OneLowered(inner[i..j], name, Lower(inner[i..j]));
    if k < |inner| {
      assert inner[k..][0] == inner[k];
      assert inner[k..][|args|..] == inner[k + |args|..];
      RStripOf(inner[k..], args);
    }
  }

  lemma Slices(inner: string, i: nat, n: nat, g: nat)
    requires i + n + g <= |inner|
    ensures inner[i..][..n] == inner[i..i + n] && inner[i..][n..] == inner[i + n..]
    ensures inner[i + n..][..g] == inner[i + n..i + n + g] && inner[i + n..][g..] == inner[i + n + g..]
  {
  }

  lemma LStripCut(s: string) returns (g: nat)
    ensures g <= |s| && LStrip(s) == s[g..] && Blank(s[..g])
  {
    LStripShape(s);
    g := |s| - |LStrip(s)|;
  }

  /** What the scan makes of a text behind its gap, the length of its word and what follows. */
  function Read(t: string, n: nat, rest: string): Option<(string, string)>
    requires n <= |t|
  {
    if n == 0 || !IdentStart(t[0]) then None
    else if rest == "" then Some((Lower(t[..n]), ""))
    else if rest[0] == ':' then Some((Lower(t[..n]), RStrip(rest)))
    else None
  }

  lemma TagOfIsRead(inner: string)
    ensures var t := LStrip(inner); var n := IdentPrefix(t); TagOf(inner) == Read(t, n, LStrip(t[n..]))
  {
  }

  lemma ReadSlices(inner: string, i: nat, j: nat, k: nat)
    requires i <= j <= k <= |inner|
    ensures Read(inner[i..], j - i, inner[k..])
         == if i == j || !IdentStart(inner[i]) then None
            else if k == |inner| then Some((Lower(inner[i..j]), ""))
            else if inner[k] == ':' then Some((Lower(inner[i..j]), RStrip(inner[k..])))
            else None
  {
    Slices(inner, i, j - i, k - j);
    assert i < j ==> inner[i..][0] == inner[i];
    assert k < |inner| ==> inner[k..][0] == inner[k];
  }

  /** What the scan makes of a run whose leading gap ends at `i`, its word at `j` and the gap
      behind that at `k`. */
  lemma ScanIs(inner: string, i: nat, j: nat, k: nat)
    requires i <= j <= k <= |inner| && LStrip(inner) == inner[i..] && IdentPrefix(inner[i..]) == j - i
    requires LStrip(inner[j..]) == inner[k..]
    ensures TagOf(inner) == Read(inner[i..], j - i, inner[k..])
  {
    TagOfIsRead(inner);
    assert inner[i..][j - i..] == inner[j..];
  }

  lemma FoundWord(inner: string, i: nat, j: nat)
    requires i < j <= |inner| && IdentPrefix(inner[i..]) == j - i && IdentStart(inner[i])
    ensures Letter(inner[i]) && forall m :: i <= m < j ==> WordChar(inner[m])
  {
    PrefixShape(inner[i..]);
    forall m | i <= m < j ensures WordChar(inner[m]) {
      assert inner[m] == inner[i..][m - i];
    }
  }

  lemma FoundArgs(inner: string, k: nat, args: string)
    requires k < |inner| && inner[k] == ':' && args == RStrip(inner[k..])
    ensures args != "" && !IsSpace(args[|args| - 1]) && args <= inner[k..] && Blank(inner[k + |args|..])
  {
    RStripOf(inner[k..], args);
    assert inner[k..][|args|..] == inner[k + |args|..];
  }

  lemma TagOfIsTag(inner: string, name: string, args: string)
    requires TagOf(inner) == Some((name, args))
    ensures IsTag(inner, name, args)
  {
    var i, j, k := ScanFound(inner);
    ReadSlices(inner, i, j, k);
    IsTagFrom(inner, i, j, k, name, args);
  }

  lemma GapFrom(s: string, j: nat) returns (k: nat)
    requires j <= |s|
    ensures j <= k <= |s| && LStrip(s[j..]) == s[k..] && Blank(s[j..k])
  {
    var g := LStripCut(s[j..]);
    k := j + g;
    assert s[j..][g..] == s[k..] && s[j..][..g] == s[j..k];
  }

  lemma ScanFound(inner: string) returns (i: nat, j: nat, k: nat)
    ensures i <= j <= k <= |inner| && Blank(inner[..i]) && Blank(inner[j..k]) && IdentPrefix(inner[i..]) == j - i
    ensures TagOf(inner) == Read(inner[i..], j - i, inner[k..])
  {
    i := LStripCut(inner);
    j := i + IdentPrefix(inner[i..]);
    k := GapFrom(inner, j);
    ScanIs(inner, i, j, k);
  }

  lemma IsTagFrom(inner: string, i: nat, j: nat, k: nat, name: string, args: string)
    requires i < j <= k <= |inner| && IdentStart(inner[i]) && IdentPrefix(inner[i..]) == j - i
    requires Blank(inner[..i]) && Blank(inner[j..k]) && name == Lower(inner[i..j])
    requires if k == |inner| then args == "" else inner[k] == ':' && args == RStrip(inner[k..])
    ensures IsTag(inner, name, args)
  {
    FoundWord(inner, i, j);
    LowerIs(inner[i..j]);
    if k < |inner| {
      FoundArgs(inner, k, args);
    }
    assert TagAt(inner, i, j, k, name, args);
  }

  /** The tag scan reads a bracketed run as a tag exactly when it has that shape, with the name
      in small letters and the arguments from the colon on. */
  lemma TagGrammar(inner: string, name: string, args: string)
    ensures TagOf(inner) == Some((name, args)) <==> IsTag(inner, name, args)
  {
    if TagOf(inner) == Some((name, args)) {
      TagOfIsTag(inner, name, args);
    }
    if i: nat, j: nat, k: nat :| TagAt(inner, i, j, k, name, args) {
      TagOfTag(inner, i, j, k, name, args);
    }
  }

  // ----- what a tag does --------------------------------------------------------------------------------

  /** The action a tag of ours asks for, if it is well formed: leaving and sleeping take no
      field; a launch takes a module and at most one more. */
  predicate Asks(name: string, fields: seq<string>, a: Action) {
    match a
    case Exit => name == "exit" && fields == []
    case Sleep => name == "sleep" && fields == []
    case Launch(m, content) =>
      && (name == "launch" || name == "launch_if_confirmed") && m != ""
      && fields == if content.None? then [m] else [m, content.value]
  }

  ghost predicate IsOurs(inner: string) {
    exists name, args :: IsTag(inner, name, args) && name in {"exit", "sleep", "launch", "launch_if_confirmed"}
  }

  ghost predicate AsksFor(inner: string, a: Action) {
    exists name, args :: IsTag(inner, name, args) && Asks(name, Fields(args), a)
  }

  /** Every piece of a line, by its shape: a run that is no tag, or a tag not ours, stays and
      does nothing; a tag of ours goes, and does what it asks for or, malformed, nothing. */
  lemma PieceMeans(p: Piece)
    ensures Left(p) == if p.Bracketed? && IsOurs(p.inner) then "" else Raw(p)
    ensures |ActionsOf(p)| <= 1
    ensures forall a :: a in ActionsOf(p) <==> p.Bracketed? && AsksFor(p.inner, a)
  {
    if p.Bracketed? {
      OursIs(p.inner);
      forall a ensures a in ActionsOf(p) <==> AsksFor(p.inner, a) {
        AsksIs(p.inner, a);
      }
    }
  }

  lemma OursIs(inner: string)
    ensures IsOurs(inner) <==> TagOf(inner).Some? && TagOf(inner).value.0 in KNOWN_TAGS
  {
    forall name, args ensures IsTag(inner, name, args) <==> TagOf(inner) == Some((name, args)) {
      TagGrammar(inner, name, args);
    }
  }

  lemma AsksIs(inner: string, a: Action)
    ensures AsksFor(inner, a) <==> Ours(Bracketed(inner)) && a in ActionsOf(Bracketed(inner))
  {
    forall name, args ensures IsTag(inner, name, args) <==> TagOf(inner) == Some((name, args)) {
      TagGrammar(inner, name, args);
    }
    if TagOf(inner).Some? {
      var (name, args) := TagOf(inner).value;
      AskedFor(name, Fields(args));
    }
  }

  lemma AskedFor(name: string, fields: seq<string>)
    ensures name in KNOWN_TAGS ==> forall a :: ActionFor(name, fields) == Some(a) <==> Asks(name, fields, a)
    ensures name !in KNOWN_TAGS ==> forall a :: !Asks(name, fields, a)
  {
  }
}
