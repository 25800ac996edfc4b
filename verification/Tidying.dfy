/** Closing the gaps that removed tags leave in a spoken line: four substitutions over runs of
    blanks and line ends, then a strip. */
module Tidying {
  import opened Text

  predicate IsBlank(c: char) { c == ' ' || c == '\t' }
  predicate IsNewline(c: char) { c == '\n' }
  predicate IsStop(c: char) { c == ',' || c == '.' || c == '!' || c == '?' || c == ';' }

  /** One substitution over whole runs: several blanks become one, blanks before a stop mark or
      at the end of a line go, many line ends become two. */
  datatype Sub = OneBlank | NoneBeforeStop | NoneAtLineEnd | TwoNewlines

  predicate InRun(sub: Sub, c: char) {
    if sub.TwoNewlines? then IsNewline(c) else IsBlank(c)
  }

  /** What replaces a run, given the text after it. */
  function Put(sub: Sub, run: string, rest: string): string {
    match sub
    case OneBlank => if |run| >= 2 then " " else run
    case NoneBeforeStop => if rest != "" && IsStop(rest[0]) then "" else run
    case NoneAtLineEnd => if rest == "" || IsNewline(rest[0]) then "" else run
    case TwoNewlines => if |run| >= 3 then "\n\n" else run
  }

  function RunOf(sub: Sub, s: string): (n: nat)
    ensures n <= |s| && (forall i :: 0 <= i < n ==> InRun(sub, s[i])) && (n < |s| ==> !InRun(sub, s[n]))
    ensures s != "" && InRun(sub, s[0]) ==> n > 0
  {
    if s == "" || !InRun(sub, s[0]) then 0 else 1 + RunOf(sub, s[1..])
  }

  /** How far one round goes, and what it leaves: a run replaced, or a character as it is. */
  function Round(sub: Sub, s: string): (n: nat)
    requires s != ""
    ensures 0 < n <= |s|
  {
    if InRun(sub, s[0]) then RunOf(sub, s) else 1
  }

  function Laid(sub: Sub, s: string): string
    requires s != ""
  {
    if InRun(sub, s[0]) then Put(sub, s[..Round(sub, s)], s[Round(sub, s)..]) else [s[0]]
  }

  /** Every longest run of the class replaced, from left to right. */
  function SubRuns(sub: Sub, s: string): string
    decreases |s|
  {
    if s == "" then "" else Laid(sub, s) + SubRuns(sub, s[Round(sub, s)..])
  }

  function Tidy(s: string): string {
    Strip(SubRuns(TwoNewlines, SubRuns(NoneAtLineEnd, SubRuns(NoneBeforeStop, SubRuns(OneBlank, s)))))
  }

  // ----- nothing but spaces goes ----------------------------------------------------------------

  /** The characters that are not whitespace, in order. */
  function Solid(s: string): string {
    if s == "" then "" else (if IsSpace(s[0]) then "" else [s[0]]) + Solid(s[1..])
  }

  lemma {:induction false} SolidConcat(a: string, b: string)
    ensures Solid(a + b) == Solid(a) + Solid(b)
  {
    if a == "" {
      assert a + b == b;
    } else {
      assert (a + b)[1..] == a[1..] + b;
      SolidConcat(a[1..], b);
    }
  }

  lemma {:induction false} SolidBlank(s: string)
    ensures Solid(s) == "" <==> Blank(s)
  {
    if s != "" {
      SolidBlank(s[1..]);
      if Blank(s[1..]) && IsSpace(s[0]) {
        forall i | 0 <= i < |s| ensures IsSpace(s[i]) {
          if i > 0 {
            assert s[i] == s[1..][i - 1];
          }
        }
      }
    }
  }

  lemma LaidSolid(sub: Sub, s: string)
    requires s != ""
    ensures Solid(Laid(sub, s)) == Solid(s[..Round(sub, s)])
  {
    var n := Round(sub, s);
    if InRun(sub, s[0]) {
      SolidBlank(s[..n]);
      SolidBlank(Laid(sub, s));
    } else {
      assert s[..n] == [s[0]];
    }
  }

  lemma Rejoin(s: string, n: nat)
    requires n <= |s|
    ensures s[..n] + s[n..] == s
  {
  }

  lemma SolidOfParts(s: string, n: nat)
    requires n <= |s|
    ensures Solid(s) == Solid(s[..n]) + Solid(s[n..])
  {
    Rejoin(s, n);
    SolidConcat(s[..n], s[n..]);
  }

  lemma {:induction false} SubRunsSolid(sub: Sub, s: string)
    ensures Solid(SubRuns(sub, s)) == Solid(s)
    decreases |s|
  {
    if s != "" {
      var n := Round(sub, s);
      LaidSolid(sub, s);
      SubRunsSolid(sub, s[n..]);
      SolidConcat(Laid(sub, s), SubRuns(sub, s[n..]));
      SolidOfParts(s, n);
    }
  }

  lemma LStripSolid(s: string)
    ensures Solid(LStrip(s)) == Solid(s)
  {
    LStripShape(s);
    SolidOfParts(s, |s| - |LStrip(s)|);
    SolidBlank(s[..|s| - |LStrip(s)|]);
  }

  lemma RStripSolid(s: string)
    ensures Solid(RStrip(s)) == Solid(s)
  {
    RStripShape(s);
    SolidOfParts(s, |RStrip(s)|);
    SolidBlank(s[|RStrip(s)|..]);
  }

  /** Tidying takes and adds whitespace only; so nothing is left exactly of a blank text. */
  lemma TidyKeepsContent(s: string)
    ensures Solid(Tidy(s)) == Solid(s)
    ensures Tidy(s) == "" <==> Blank(s)
  {
    var one := SubRuns(OneBlank, s);
    var closed := SubRuns(NoneBeforeStop, one);
    var ended := SubRuns(NoneAtLineEnd, closed);
    var all := SubRuns(TwoNewlines, ended);
    SubRunsSolid(OneBlank, s);
    SubRunsSolid(NoneBeforeStop, one);
    SubRunsSolid(NoneAtLineEnd, closed);
    SubRunsSolid(TwoNewlines, ended);
    LStripSolid(all);
    RStripSolid(LStrip(all));
    SolidBlank(s);
    SolidBlank(all);
    StripTrimmed(all);
  }

  // ----- the tidy form ---------------------------------------------------------------------------

  /** A blank before a blank; from level 1 before a stop mark too, and from level 2 before a
      line end. */
  predicate Loose(level: nat, a: char, b: char) {
    && (a == ' ' || a == '\t')
    && (b == ' ' || b == '\t' || (level >= 1 && (b == ',' || b == '.' || b == '!' || b == '?' || b == ';'))
        || (level >= 2 && b == '\n'))
  }

  predicate NoPair(level: nat, s: string) {
    forall i :: 0 <= i < |s| - 1 ==> !Loose(level, s[i], s[i + 1])
  }

  predicate NoTriple(s: string) {
    forall i :: 0 <= i < |s| - 2 ==> !(s[i] == s[i + 1] == s[i + 2] == '\n')
  }

  predicate EndsSolid(s: string) {
    s == "" || !IsBlank(s[|s| - 1])
  }

  predicate TidyForm(s: string) {
    Trimmed(s) && NoPair(2, s) && NoTriple(s)
  }

  lemma SuffixPairs(level: nat, s: string, n: nat)
    requires NoPair(level, s) && n <= |s|
    ensures NoPair(level, s[n..])
  {
    forall i | 0 <= i < |s[n..]| - 1 ensures !Loose(level, s[n..][i], s[n..][i + 1]) {
      assert !Loose(level, s[n + i], s[n + i + 1]);
    }
  }

  lemma JoinPairs(level: nat, a: string, b: string)
    requires NoPair(level, a) && NoPair(level, b)
    requires a != "" && b != "" ==> !Loose(level, a[|a| - 1], b[0])
    ensures NoPair(level, a + b)
  {
    forall i | 0 <= i < |a + b| - 1 ensures !Loose(level, (a + b)[i], (a + b)[i + 1]) {
      if i >= |a| {
        assert !Loose(level, b[i - |a|], b[i - |a| + 1]);
      } else if i < |a| - 1 {
        assert !Loose(level, a[i], a[i + 1]);
      }
    }
  }

  /** What stands first stays first, unless it is a run that goes. */
  lemma HeadStays(sub: Sub, s: string)
    requires s == "" || !InRun(sub, s[0]) || sub.TwoNewlines?
    ensures (SubRuns(sub, s) == "" <==> s == "") && (s != "" ==> SubRuns(sub, s)[0] == s[0])
  {
    if s != "" {
      assert Laid(sub, s) != "" && Laid(sub, s)[0] == s[0];
    }
  }

  /** The pairs a substitution rules out, and those it needs ruled out before. */
  function Level(sub: Sub): nat {
    match sub
    case OneBlank => 0
    case NoneBeforeStop => 1
    case _ => 2
  }

  /** The pairs ruled out so far. */
  predicate Ready(sub: Sub, s: string) {
    match sub
    case OneBlank => true
    case NoneBeforeStop => NoPair(0, s)
    case NoneAtLineEnd => NoPair(1, s)
    case TwoNewlines => NoPair(2, s) && EndsSolid(s)
  }

  lemma SuffixReady(sub: Sub, s: string, n: nat)
    requires Ready(sub, s) && n <= |s|
    ensures Ready(sub, s[n..])
  {
    if !sub.OneBlank? {
      SuffixPairs(if sub.TwoNewlines? then 2 else Level(sub) - 1, s, n);
    }
  }

  /** A single blank stays only where it may, and no two. */
  lemma BlankRunIsOne(sub: Sub, s: string)
    requires s != "" && Ready(sub, s) && IsBlank(s[0]) && (sub.NoneBeforeStop? || sub.NoneAtLineEnd?)
    ensures Round(sub, s) == 1
  {
    assert |s| > 1 ==> !Loose(Level(sub) - 1, s[0], s[1]);
  }

  lemma LaidPairs(sub: Sub, s: string)
    requires s != "" && Ready(sub, s)
    ensures NoPair(Level(sub), Laid(sub, s))
  {
    if IsBlank(s[0]) && (sub.NoneBeforeStop? || sub.NoneAtLineEnd?) {
      BlankRunIsOne(sub, s);
    }
  }

  lemma LaidThenNext(sub: Sub, s: string)
    requires s != "" && Ready(sub, s) && Round(sub, s) < |s| && Laid(sub, s) != ""
    ensures !Loose(Level(sub), Laid(sub, s)[|Laid(sub, s)| - 1], s[Round(sub, s)])
  {
    if IsBlank(s[0]) {
      if sub.NoneBeforeStop? || sub.NoneAtLineEnd? {
        BlankRunIsOne(sub, s);
      }
      if !sub.OneBlank? {
        assert !Loose(if sub.TwoNewlines? then 2 else Level(sub) - 1, s[0], s[1]);
      }
    }
  }

  lemma {:induction false} SubRunsPairs(sub: Sub, s: string)
    requires Ready(sub, s)
    ensures NoPair(Level(sub), SubRuns(sub, s))
    decreases |s|
  {
    if s != "" {
      var rest := s[Round(sub, s)..];
      SuffixReady(sub, s, Round(sub, s));
      SubRunsPairs(sub, rest);
      LaidPairs(sub, s);
      if rest != "" && Laid(sub, s) != "" {
        LaidThenNext(sub, s);
        if IsBlank(s[0]) || sub.TwoNewlines? {
          HeadStays(sub, rest);
        }
      }
      JoinPairs(Level(sub), Laid(sub, s), SubRuns(sub, rest));
    }
  }

  lemma {:induction false} EndStays(sub: Sub, s: string)
    requires sub.NoneAtLineEnd? || (sub.TwoNewlines? && EndsSolid(s))
    ensures EndsSolid(SubRuns(sub, s))
    decreases |s|
  {
    if s != "" {
      var rest := s[Round(sub, s)..];
      EndStays(sub, rest);
      if IsBlank(s[0]) || sub.TwoNewlines? {
        HeadStays(sub, rest);
      }
    }
  }

  lemma {:induction false} TwoNewlinesTriples(s: string)
    ensures NoTriple(SubRuns(TwoNewlines, s))
    decreases |s|
  {
    if s != "" {
      var rest := s[Round(TwoNewlines, s)..];
      TwoNewlinesTriples(rest);
      HeadStays(TwoNewlines, rest);
      JoinTriples(Laid(TwoNewlines, s), SubRuns(TwoNewlines, rest));
    }
  }

  lemma JoinTriples(a: string, b: string)
    requires NoTriple(b) && (|a| == 1 || (|a| == 2 && (b == "" || !IsNewline(b[0]))))
    requires |a| == 1 && IsNewline(a[0]) ==> b == "" || !IsNewline(b[0])
    ensures NoTriple(a + b)
  {
    forall i | 0 <= i < |a + b| - 2
      ensures !(IsNewline((a + b)[i]) && IsNewline((a + b)[i + 1]) && IsNewline((a + b)[i + 2]))
    {
      if i >= |a| {
        assert !(IsNewline(b[i - |a|]) && IsNewline(b[i - |a| + 1]) && IsNewline(b[i - |a| + 2]));
      }
    }
  }

  lemma SlicePairs(s: string, lo: nat, hi: nat)
    requires lo <= hi <= |s| && NoPair(2, s)
    ensures NoPair(2, s[lo..hi])
  {
    forall i | 0 <= i < hi - lo - 1 ensures !Loose(2, s[lo..hi][i], s[lo..hi][i + 1]) {
      assert !Loose(2, s[lo + i], s[lo + i + 1]);
    }
  }

  lemma SliceTriples(s: string, lo: nat, hi: nat)
    requires lo <= hi <= |s| && NoTriple(s)
    ensures NoTriple(s[lo..hi])
  {
    var r := s[lo..hi];
    forall i | 0 <= i < |r| - 2 ensures !(IsNewline(r[i]) && IsNewline(r[i + 1]) && IsNewline(r[i + 2])) {
      assert !(IsNewline(s[lo + i]) && IsNewline(s[lo + i + 1]) && IsNewline(s[lo + i + 2]));
    }
  }

  lemma StripKeepsForm(s: string)
    requires NoPair(2, s) && NoTriple(s)
    ensures TidyForm(Strip(s))
  {
    StripTrimmed(s);
    var lo, hi := StripSlice(s);
    SlicePairs(s, lo, hi);
    SliceTriples(s, lo, hi);
  }

  // ----- what stays as it is ----------------------------------------------------------------------

  /** A text the substitutions have nothing to do in. */
  predicate Settled(s: string) {
    NoPair(2, s) && NoTriple(s) && EndsSolid(s)
  }

  lemma ShortRun(s: string)
    requires NoTriple(s)
    ensures RunOf(TwoNewlines, s) < 3
  {
    assert 2 < RunOf(TwoNewlines, s) ==> InRun(TwoNewlines, s[2]);
  }

  lemma RoundStays(sub: Sub, s: string)
    requires s != "" && Settled(s)
    ensures Laid(sub, s) == s[..Round(sub, s)]
  {
    var n := Round(sub, s);
    if IsBlank(s[0]) {
      assert |s| > 1 && !Loose(2, s[0], s[1]);
    } else if IsNewline(s[0]) && sub.TwoNewlines? {
      ShortRun(s);
    }
  }

  lemma SuffixSettled(s: string, n: nat)
    requires Settled(s) && n <= |s|
    ensures Settled(s[n..])
  {
    SlicePairs(s, n, |s|);
    SliceTriples(s, n, |s|);
    assert s[n..|s|] == s[n..];
  }

  lemma Peel(sub: Sub, s: string)
    requires s != "" && Laid(sub, s) == s[..Round(sub, s)] && SubRuns(sub, s[Round(sub, s)..]) == s[Round(sub, s)..]
    ensures SubRuns(sub, s) == s
  {
    Rejoin(s, Round(sub, s));
  }

  lemma {:induction false} SettledStays(sub: Sub, s: string)
    requires Settled(s)
    ensures SubRuns(sub, s) == s
    decreases |s|
  {
    if s != "" {
      var n := Round(sub, s);
      RoundStays(sub, s);
      SuffixSettled(s, n);
      SettledStays(sub, s[n..]);
      Peel(sub, s);
    }
  }

  lemma FormStays(s: string)
    requires TidyForm(s)
    ensures Tidy(s) == s
  {
    SettledStays(OneBlank, s);
    SettledStays(NoneBeforeStop, s);
    SettledStays(NoneAtLineEnd, s);
    SettledStays(TwoNewlines, s);
    StripTrimmed(s);
  }

  /** Tidying puts every text in tidy form, and changes exactly those that are not. */
  lemma TidyProjects(s: string)
    ensures TidyForm(Tidy(s))
    ensures Tidy(s) == s <==> TidyForm(s)
  {
    var one := SubRuns(OneBlank, s);
    var closed := SubRuns(NoneBeforeStop, one);
    var ended := SubRuns(NoneAtLineEnd, closed);
    SubRunsPairs(OneBlank, s);
    SubRunsPairs(NoneBeforeStop, one);
    SubRunsPairs(NoneAtLineEnd, closed);
    EndStays(NoneAtLineEnd, closed);
    SubRunsPairs(TwoNewlines, ended);
    TwoNewlinesTriples(ended);
    StripKeepsForm(SubRuns(TwoNewlines, ended));
    if TidyForm(s) {
      FormStays(s);
    }
  }
}
