/** The streaming sentence splitter: a buffer that `Feed` grows and drains, and `Flush`
    empties. The main result is that the cut into chunks does not matter. */
module Segmenter {
  import opened Basics
  import opened Text
  import opened Wrappers

  const TERMINALS: string := ".!?"
  const CLOSERS: string := "\"')]}\U{201D}\U{2019}\U{BB}"
  const ABBREVIATIONS: set<string> := {
    "mr", "mrs", "ms", "dr", "prof", "st", "sr", "jr", "vs", "etc", "approx",
    "fig", "dept", "est", "min", "max", "no",
    "e.g", "i.e", "a.m", "p.m", "u.s", "u.k", "p.s"
  }

  // ----- one boundary ---------------------------------------------------------------

  /** Start of the run of letters, digits and dots that ends just before `i`. */
  function TokenStart(u: Alphabet, buf: string, i: nat): (j: nat)
    requires i <= |buf|
    ensures j <= i
  {
    if i > 0 && (u.isAlnum(buf[i - 1]) || buf[i - 1] == '.') then TokenStart(u, buf, i - 1) else i
  }

  predicate IsAbbreviation(u: Alphabet, buf: string, i: nat)
    requires i < |buf|
  {
    var tok := u.lower(buf[TokenStart(u, buf, i)..i]);
    tok != "" && (tok in ABBREVIATIONS || (|tok| == 1 && u.isAlpha(tok[0])))
  }

  /** Does the terminal character at `i` really end a sentence? */
  predicate Terminates(u: Alphabet, buf: string, i: nat)
    requires i < |buf|
  {
    if buf[i] != '.' then true
    else if i > 0 && buf[i - 1] == '.' then false
    else if i + 1 < |buf| && buf[i + 1] == '.' then false
    else if 0 < i < |buf| - 1 && u.isDigit(buf[i - 1]) && u.isDigit(buf[i + 1]) then false
    else !IsAbbreviation(u, buf, i)
  }

  function SkipClosers(buf: string, j: nat): (k: nat)
    requires j <= |buf|
    ensures j <= k <= |buf|
    decreases |buf| - j
  {
    if j < |buf| && buf[j] in CLOSERS then SkipClosers(buf, j + 1) else j
  }

  /** What scanning decides at one position. */
  datatype Verdict = Skip(next: nat) | Wait | Cut(at: nat)

  function Judge(u: Alphabet, min: int, buf: string, i: nat): (v: Verdict)
    requires i < |buf|
    ensures v.Skip? ==> i < v.next <= |buf|
    ensures v.Cut? ==> i < v.at < |buf|
  {
    if buf[i] !in TERMINALS || !Terminates(u, buf, i) then Skip(i + 1)
    else
      var j := SkipClosers(buf, i + 1);
      if j >= |buf| then Wait
      else if !IsSpace(buf[j]) then Skip(i + 1)
      else if Blank(buf[j..]) then Wait
      else if |Strip(buf[..j])| < min then Skip(j)
      else Cut(j)
  }

  /** Index just past the first usable sentence end, or `None` when more text is needed. */
  function NextBoundary(u: Alphabet, min: int, buf: string, i: nat): (cut: Option<nat>)
    requires i <= |buf|
    ensures cut.Some? ==> i < cut.value < |buf|
    decreases |buf| - i
  {
    if i == |buf| then None
    else match Judge(u, min, buf, i)
         case Skip(next) => NextBoundary(u, min, buf, next)
         case Wait => None
         case Cut(at) => Some(at)
  }

  // ----- draining the buffer --------------------------------------------------------

  function Rest(buf: string, cut: nat): (r: string)
    requires 0 < cut < |buf|
    ensures |r| < |buf|
  {
    LStrip(buf[cut..])
  }

  function Emit(sentence: string): seq<string> {
    if sentence == "" then [] else [sentence]
  }

  /** Everything the buffer can release now, and what stays in it. */
  function Drain(u: Alphabet, min: int, buf: string): (r: (seq<string>, string))
    decreases |buf|
  {
    match NextBoundary(u, min, buf, 0)
    case None => ([], buf)
    case Some(cut) =>
      var d := Drain(u, min, Rest(buf, cut));
      (Emit(Strip(buf[..cut])) + d.0, d.1)
  }

  function Fed(u: Alphabet, min: int, buf: string, text: string): (seq<string>, string) {
    if text == "" then ([], buf) else Drain(u, min, buf + text)
  }

  /** The batch splitter. */
  function Segment(u: Alphabet, min: int, text: string): seq<string> {
    var d := Fed(u, min, "", text);
    d.0 + Emit(Strip(d.1))
  }

  /** Everything a stream of chunks makes the splitter say, the final flush included. */
  function Stream(u: Alphabet, min: int, buf: string, chunks: seq<string>): seq<string>
    decreases |chunks|
  {
    if chunks == [] then Emit(Strip(buf))
    else
      var d := Fed(u, min, buf, chunks[0]);
      d.0 + Stream(u, min, d.1, chunks[1..])
  }

  function Prepend(out: seq<string>, d: (seq<string>, string)): (seq<string>, string) {
    (out + d.0, d.1)
  }

  lemma PrependStep(u: Alphabet, min: int, out: seq<string>, buf: string, cut: nat)
    requires NextBoundary(u, min, buf, 0) == Some(cut)
    ensures Prepend(out, Drain(u, min, buf))
         == Prepend(out + Emit(Strip(buf[..cut])), Drain(u, min, Rest(buf, cut)))
  {
    Assoc(out, Emit(Strip(buf[..cut])), Drain(u, min, Rest(buf, cut)).0);
  }

  // ----- the object -----------------------------------------------------------------

  class SentenceSegmenter {
    const alphabet: Alphabet
    const minChars: int
    var buf: string

    constructor (u: Alphabet, min: int)
      ensures alphabet == u && minChars == min && buf == ""
    {
      alphabet, minChars, buf := u, min, "";
    }

    method PastClosers(start: nat) returns (j: nat)
      requires start <= |buf|
      ensures j == SkipClosers(buf, start)
    {
      j := start;
      while j < |buf| && buf[j] in CLOSERS
        invariant start <= j <= |buf|
        invariant SkipClosers(buf, start) == SkipClosers(buf, j)
      {
        j := j + 1;
      }
    }

    /** What stands at one position: go on, wait for more text, or cut. */
    method JudgeAt(i: nat) returns (v: Verdict)
      requires i < |buf|
      ensures v == Judge(alphabet, minChars, buf, i)
    {
      if buf[i] !in TERMINALS || !Terminates(alphabet, buf, i) {
        return Skip(i + 1);
      }
      var j := PastClosers(i + 1);
      if j >= |buf| {
        return Wait;
      }
      if !IsSpace(buf[j]) {
        return Skip(i + 1);
      }
      if Blank(buf[j..]) {
        return Wait;
      }
      v := if |Strip(buf[..j])| < minChars then Skip(j) else Cut(j);
    }

    method FindBoundary() returns (cut: Option<nat>)
      ensures cut == NextBoundary(alphabet, minChars, buf, 0)
    {
      var i := 0;
      while i < |buf|
        invariant i <= |buf|
        invariant NextBoundary(alphabet, minChars, buf, 0) == NextBoundary(alphabet, minChars, buf, i)
      {
        var v := JudgeAt(i);
        match v {
          case Skip(next) => i := next;
          case Wait => return None;
          case Cut(at) => return Some(at);
        }
      }
      cut := None;
    }

    /** Adds text; releases exactly the sentences that `Drain` finds complete. */
    method Feed(text: string) returns (out: seq<string>)
      modifies this
      ensures (out, buf) == Fed(alphabet, minChars, old(buf), text)
    {
      if text == "" {
        return [];
      }
      buf := buf + text;
      ghost var whole := Drain(alphabet, minChars, buf);
      out := [];
      assert out + whole.0 == whole.0;
      while true
        invariant Prepend(out, Drain(alphabet, minChars, buf)) == whole
        decreases |buf|
      {
        var cut := FindBoundary();
        if cut == None {
          assert out + [] == out;
          return;
        }
        PrependStep(alphabet, minChars, out, buf, cut.value);
        var sentence := Strip(buf[..cut.value]);
        buf := Rest(buf, cut.value);
        if sentence == "" {
          assert out + [] == out;
        } else {
          out := out + [sentence];
        }
      }
    }

    method Flush() returns (out: seq<string>)
      modifies this
      ensures out == Emit(Strip(old(buf))) && buf == ""
    {
      out := Emit(Strip(buf));
      buf := "";
    }
  }

  method SegmentText(u: Alphabet, text: string, min: int) returns (out: seq<string>)
    ensures out == Segment(u, min, text)
  {
    var seg := new SentenceSegmenter(u, min);
    var head := seg.Feed(text);
    var tail := seg.Flush();
    out := head + tail;
  }

  // ----- a boundary stays the first boundary under any extension ----------------------

  lemma {:induction false} TokenStartExtends(u: Alphabet, buf: string, ext: string, i: nat)
    requires i <= |buf|
    ensures TokenStart(u, buf + ext, i) == TokenStart(u, buf, i)
  {
    if i > 0 {
      TokenStartExtends(u, buf, ext, i - 1);
    }
  }

  lemma TerminatesExtends(u: Alphabet, buf: string, ext: string, i: nat)
    requires i + 1 < |buf|
    ensures Terminates(u, buf + ext, i) == Terminates(u, buf, i)
  {
    TokenStartExtends(u, buf, ext, i);
    var j := TokenStart(u, buf, i);
    assert (buf + ext)[j..i] == buf[j..i];
  }

  lemma {:induction false} SkipClosersExtends(buf: string, ext: string, j: nat)
    requires j <= |buf|
    ensures SkipClosers(buf, j) < |buf| ==> SkipClosers(buf + ext, j) == SkipClosers(buf, j)
    decreases |buf| - j
  {
    if j < |buf| && buf[j] in CLOSERS {
      SkipClosersExtends(buf, ext, j + 1);
    }
  }

  lemma BlankExtends(s: string, t: string)
    requires !Blank(s)
    ensures !Blank(s + t)
  {
    var i :| 0 <= i < |s| && !IsSpace(s[i]);
    assert (s + t)[i] == s[i];
  }

  /** Every verdict but `Wait` is final once the next character is known. */
  lemma JudgeExtends(u: Alphabet, min: int, buf: string, ext: string, i: nat)
    requires i + 1 < |buf| && Judge(u, min, buf, i) != Wait
    ensures Judge(u, min, buf + ext, i) == Judge(u, min, buf, i)
  {
    TerminatesExtends(u, buf, ext, i);
    if buf[i] in TERMINALS && Terminates(u, buf, i) {
      SkipClosersExtends(buf, ext, i + 1);
      var j := SkipClosers(buf, i + 1);
      assert (buf + ext)[..j] == buf[..j];
      assert (buf + ext)[j..] == buf[j..] + ext;
      if IsSpace(buf[j]) {
        BlankExtends(buf[j..], ext);
      }
    }
  }

  lemma {:induction false} BoundaryExtends(u: Alphabet, min: int, buf: string, ext: string, i: nat)
    requires i <= |buf| && NextBoundary(u, min, buf, i).Some?
    ensures NextBoundary(u, min, buf + ext, i) == NextBoundary(u, min, buf, i)
    decreases |buf| - i
  {
    JudgeExtends(u, min, buf, ext, i);
    var v := Judge(u, min, buf, i);
    if v.Skip? {
      BoundaryExtends(u, min, buf, ext, v.next);
    }
  }

  lemma {:induction false} LStripExtends(s: string, ext: string)
    requires !Blank(s)
    ensures LStrip(s + ext) == LStrip(s) + ext
  {
    if IsSpace(s[0]) {
      assert (s + ext)[1..] == s[1..] + ext;
      var i :| 0 <= i < |s| && !IsSpace(s[i]);
      assert s[1..][i - 1] == s[i];
      LStripExtends(s[1..], ext);
    }
  }

  /** A boundary sits at whitespace with more text behind it. */
  lemma {:induction false} BoundaryInside(u: Alphabet, min: int, buf: string, i: nat)
    requires i <= |buf| && NextBoundary(u, min, buf, i).Some?
    ensures var cut := NextBoundary(u, min, buf, i).value;
            IsSpace(buf[cut]) && !Blank(buf[cut..])
    decreases |buf| - i
  {
    var v := Judge(u, min, buf, i);
    if v.Skip? {
      BoundaryInside(u, min, buf, v.next);
    }
  }

  lemma CutExtends(u: Alphabet, min: int, buf: string, ext: string)
    requires NextBoundary(u, min, buf, 0).Some?
    ensures var cut := NextBoundary(u, min, buf, 0).value;
            && NextBoundary(u, min, buf + ext, 0) == Some(cut)
            && (buf + ext)[..cut] == buf[..cut]
            && Rest(buf + ext, cut) == Rest(buf, cut) + ext
  {
    BoundaryExtends(u, min, buf, ext, 0);
    BoundaryInside(u, min, buf, 0);
    var cut := NextBoundary(u, min, buf, 0).value;
    assert (buf + ext)[cut..] == buf[cut..] + ext;
    LStripExtends(buf[cut..], ext);
  }

  /** Draining, then growing what is left and draining again, is draining it all at once. */
  lemma {:induction false} DrainExtends(u: Alphabet, min: int, buf: string, ext: string)
    ensures var first := Drain(u, min, buf);
            var second := Drain(u, min, first.1 + ext);
            Drain(u, min, buf + ext) == (first.0 + second.0, second.1)
    decreases |buf|
  {
    var b := NextBoundary(u, min, buf, 0);
    if b.Some? {
      CutExtends(u, min, buf, ext);
      var rest := Rest(buf, b.value);
      DrainExtends(u, min, rest, ext);
      Assoc(Emit(Strip(buf[..b.value])), Drain(u, min, rest).0, Drain(u, min, Drain(u, min, rest).1 + ext).0);
    } else {
      assert [] + Drain(u, min, buf + ext).0 == Drain(u, min, buf + ext).0;
    }
  }

  lemma {:induction false} DrainedIsDry(u: Alphabet, min: int, buf: string)
    ensures NextBoundary(u, min, Drain(u, min, buf).1, 0) == None
    decreases |buf|
  {
    var b := NextBoundary(u, min, buf, 0);
    if b.Some? {
      DrainedIsDry(u, min, Rest(buf, b.value));
    }
  }

  lemma {:induction false} StreamFromBuffer(u: Alphabet, min: int, buf: string, chunks: seq<string>)
    requires NextBoundary(u, min, buf, 0) == None
    ensures var all := Drain(u, min, buf + Concat(chunks));
            Stream(u, min, buf, chunks) == all.0 + Emit(Strip(all.1))
    decreases |chunks|
  {
    if chunks == [] {
      assert buf + "" == buf;
      assert [] + Emit(Strip(buf)) == Emit(Strip(buf));
    } else {
      var c, more := chunks[0], Concat(chunks[1..]);
      Assoc(buf, c, more);
      var d := Drain(u, min, buf + c);
      if c == "" {
        assert buf + c == buf;
      }
      assert Fed(u, min, buf, c) == d;
      DrainedIsDry(u, min, buf + c);
      StreamFromBuffer(u, min, d.1, chunks[1..]);
      DrainExtends(u, min, buf + c, more);
      var later := Drain(u, min, d.1 + more);
      Assoc(d.0, later.0, Emit(Strip(later.1)));
    }
  }

  /** Streaming equals batch: every text, every way of cutting it, every minimum length. */
  lemma StreamingEqualsBatch(u: Alphabet, min: int, chunks: seq<string>)
    ensures Stream(u, min, "", chunks) == Segment(u, min, Concat(chunks))
  {
    StreamFromBuffer(u, min, "", chunks);
    assert "" + Concat(chunks) == Concat(chunks);
  }

  // ----- what the pieces are ----------------------------------------------------------

  lemma EmitWords(s: string)
    ensures WordsOfAll(Emit(Strip(s))) == Words(s)
  {
    WordsOfStrip(s);
    assert Words(s) + [] == Words(s);
  }

  lemma CutKeepsWords(buf: string, cut: nat)
    requires 0 < cut < |buf| && IsSpace(buf[cut])
    ensures Words(buf) == WordsOfAll(Emit(Strip(buf[..cut]))) + Words(Rest(buf, cut))
  {
    EmitWords(buf[..cut]);
    WordsOfLStrip(buf[cut..]);
    WordsAtSpace(buf[..cut], buf[cut..]);
    assert buf == buf[..cut] + buf[cut..];
  }

  lemma {:induction false} DrainKeepsWords(u: Alphabet, min: int, buf: string)
    ensures Words(buf) == WordsOfAll(Drain(u, min, buf).0) + Words(Drain(u, min, buf).1)
    decreases |buf|
  {
    var b := NextBoundary(u, min, buf, 0);
    if b.Some? {
      var rest := Rest(buf, b.value);
      var said := Emit(Strip(buf[..b.value]));
      DrainKeepsWords(u, min, rest);
      BoundaryInside(u, min, buf, 0);
      CutKeepsWords(buf, b.value);
      var d := Drain(u, min, rest);
      WordsOfAllConcat(said, d.0);
      Assoc(WordsOfAll(said), WordsOfAll(d.0), Words(d.1));
    } else {
      assert [] + Words(buf) == Words(buf);
    }
  }

  /** Segmentation neither adds, drops nor reorders a word. */
  lemma SegmentKeepsWords(u: Alphabet, min: int, text: string)
    ensures WordsOfAll(Segment(u, min, text)) == Words(text)
  {
    var (now, rest) := Fed(u, min, "", text);
    assert "" + text == text;
    EmitWords(rest);
    WordsOfAllConcat(now, Emit(Strip(rest)));
    if text != "" {
      DrainKeepsWords(u, min, text);
    }
  }

  /** A sentence released before the flush: trimmed, long enough, and ended by a terminal
      character followed by nothing but closers. */
  ghost predicate Finished(min: int, s: string) {
    && s != "" && Trimmed(s) && |s| >= min
    && exists k :: EndsAt(s, k)
  }

  predicate EndsAt(s: string, k: int) {
    0 <= k < |s| && s[k] in TERMINALS && forall m :: k < m < |s| ==> s[m] in CLOSERS
  }

  lemma {:induction false} SkipClosersShape(buf: string, j: nat)
    requires j <= |buf|
    ensures forall i :: j <= i < SkipClosers(buf, j) ==> buf[i] in CLOSERS
    decreases |buf| - j
  {
    if j < |buf| && buf[j] in CLOSERS {
      SkipClosersShape(buf, j + 1);
    }
  }

  /** Stripping a text whose last character is solid leaves that end in place. */
  lemma StripKeepsEnd(front: string, i: nat) returns (lo: nat)
    requires front != "" && !IsSpace(front[|front| - 1]) && i < |front| && !IsSpace(front[i])
    ensures lo <= i && Strip(front) == front[lo..]
  {
    var hi: nat;
    lo, hi := StripSlice(front);
    assert hi == |front|;
  }

  lemma ShapeFinished(min: int, front: string, i: nat)
    requires EndsAt(front, i) && |Strip(front)| >= min
    ensures Finished(min, Strip(front))
  {
    var lo := StripKeepsEnd(front, i);
    StripTrimmed(front);
    assert EndsAt(front[lo..], i - lo);
  }

  lemma CutIsFinished(u: Alphabet, min: int, buf: string, i: nat)
    requires i < |buf| && Judge(u, min, buf, i).Cut?
    ensures Finished(min, Strip(buf[..Judge(u, min, buf, i).at]))
  {
    SkipClosersShape(buf, i + 1);
    ShapeFinished(min, buf[..Judge(u, min, buf, i).at], i);
  }

  lemma {:induction false} BoundaryIsFinished(u: Alphabet, min: int, buf: string, i: nat)
    requires i <= |buf| && NextBoundary(u, min, buf, i).Some?
    ensures Finished(min, Strip(buf[..NextBoundary(u, min, buf, i).value]))
    decreases |buf| - i
  {
    var v := Judge(u, min, buf, i);
    if v.Skip? {
      BoundaryIsFinished(u, min, buf, v.next);
    } else {
      CutIsFinished(u, min, buf, i);
    }
  }

  lemma {:induction false} DrainIsFinished(u: Alphabet, min: int, buf: string)
    ensures forall s :: s in Drain(u, min, buf).0 ==> Finished(min, s)
    decreases |buf|
  {
    var b := NextBoundary(u, min, buf, 0);
    if b.Some? {
      BoundaryIsFinished(u, min, buf, 0);
      DrainIsFinished(u, min, Rest(buf, b.value));
    }
  }

  /** Every piece but the last is a finished sentence; the last is trimmed and non-empty. */
  lemma SegmentPieces(u: Alphabet, min: int, text: string)
    ensures var out := Segment(u, min, text);
            && (forall k :: 0 <= k < |out| - 1 ==> Finished(min, out[k]))
            && (forall k :: 0 <= k < |out| ==> out[k] != "" && Trimmed(out[k]))
  {
    var (now, rest) := Fed(u, min, "", text);
    assert "" + text == text;
    StripTrimmed(rest);
    if text != "" {
      DrainIsFinished(u, min, text);
    }
    var out := Segment(u, min, text);
    assert forall k :: 0 <= k < |now| ==> out[k] == now[k] && now[k] in now;
  }

  // ----- what a boundary is, without scanning --------------------------------------------------

  /** The longest run of letters, digits and dots that ends just before `i` starts at `j`. */
  predicate TokenRun(u: Alphabet, buf: string, j: nat, i: nat)
    requires i <= |buf|
  {
    && j <= i && (forall m :: j <= m < i ==> u.isAlnum(buf[m]) || buf[m] == '.')
    && (j > 0 ==> !u.isAlnum(buf[j - 1]) && buf[j - 1] != '.')
  }

  /** An abbreviation of the table in lower case, or a single letter. */
  predicate Shortens(u: Alphabet, token: string) {
    u.lower(token) in ABBREVIATIONS || (|u.lower(token)| == 1 && u.isAlpha(u.lower(token)[0]))
  }

  /** A terminal that really ends a sentence: an exclamation or question mark always; a full
      stop unless another one is beside it, a digit is on both sides, or the token before it is
      shortened by it. */
  ghost predicate RealEnd(u: Alphabet, buf: string, i: nat)
    requires i < |buf|
  {
    buf[i] == '.' ==>
      && (i > 0 ==> buf[i - 1] != '.') && (i + 1 < |buf| ==> buf[i + 1] != '.')
      && !(i > 0 && i + 1 < |buf| && u.isDigit(buf[i - 1]) && u.isDigit(buf[i + 1]))
      && forall j: nat :: TokenRun(u, buf, j, i) ==> !Shortens(u, buf[j..i])
  }

  lemma {:induction false} TokenStartIsRun(u: Alphabet, buf: string, i: nat)
    requires i <= |buf|
    ensures TokenRun(u, buf, TokenStart(u, buf, i), i)
  {
    if i > 0 && (u.isAlnum(buf[i - 1]) || buf[i - 1] == '.') {
      TokenStartIsRun(u, buf, i - 1);
    }
  }

  lemma OneRun(u: Alphabet, buf: string, j: nat, k: nat, i: nat)
    requires i <= |buf| && TokenRun(u, buf, j, i) && TokenRun(u, buf, k, i)
    ensures j == k
  {
  }

  /** Which terminals end a sentence: the scan's test is the condition above, for every
      buffer, alphabet and position. */
  lemma TerminatesMeans(u: Alphabet, buf: string, i: nat)
    requires i < |buf|
    ensures Terminates(u, buf, i) <==> RealEnd(u, buf, i)
  {
    var j := TokenStart(u, buf, i);
    TokenStartIsRun(u, buf, i);
    forall k: nat | TokenRun(u, buf, k, i) ensures k == j {
      OneRun(u, buf, j, k, i);
    }
  }

  /** The terminal at `t` ends the sentence that `c` cuts off: only closers stand between, and
      a gap and more text follow. */
  ghost predicate EndsSentence(u: Alphabet, min: int, buf: string, t: nat, c: nat) {
    && t < c < |buf| && buf[t] in TERMINALS && RealEnd(u, buf, t)
    && (forall m :: t < m < c ==> buf[m] in CLOSERS)
    && IsSpace(buf[c]) && !Blank(buf[c..]) && |Strip(buf[..c])| >= min
  }

  ghost predicate BoundaryFrom(u: Alphabet, min: int, buf: string, i: nat, c: nat) {
    exists t: nat :: i <= t && EndsSentence(u, min, buf, t, c)
  }

  /** The first place, if any, where a sentence that ends at or after `i` can be cut off. */
  ghost predicate IsFirst(u: Alphabet, min: int, buf: string, i: nat, cut: Option<nat>) {
    match cut
    case None => forall c: nat :: !BoundaryFrom(u, min, buf, i, c)
    case Some(k) => BoundaryFrom(u, min, buf, i, k) && forall c: nat :: c < k ==> !BoundaryFrom(u, min, buf, i, c)
  }

  lemma ClosersApart(c: char)
    requires c in CLOSERS
    ensures c !in TERMINALS && !IsSpace(c)
  {
  }

  lemma TerminalsAreNoSpace(c: char)
    requires c in TERMINALS
    ensures !IsSpace(c)
  {
  }

  lemma {:induction false} SkipClosersStops(buf: string, j: nat)
    requires j <= |buf|
    ensures var k := SkipClosers(buf, j);
            (forall m :: j <= m < k ==> buf[m] in CLOSERS) && (k < |buf| ==> buf[k] !in CLOSERS)
    decreases |buf| - j
  {
    if j < |buf| && buf[j] in CLOSERS {
      SkipClosersStops(buf, j + 1);
    }
  }

  /** A terminal ends a sentence at the first character after its closers, or nowhere. */
  lemma EndsWhereClosersStop(u: Alphabet, min: int, buf: string, t: nat, c: nat)
    requires EndsSentence(u, min, buf, t, c)
    ensures c == SkipClosers(buf, t + 1)
  {
    var j := SkipClosers(buf, t + 1);
    SkipClosersStops(buf, t + 1);
    if c < j {
      ClosersApart(buf[c]);
    }
    assert j < |buf| ==> buf[j] !in CLOSERS;
  }

  /** No terminal stands among the closers after one. */
  lemma NextTerminalIsPast(u: Alphabet, min: int, buf: string, i: nat, t: nat, c: nat)
    requires i < t && EndsSentence(u, min, buf, t, c)
    ensures SkipClosers(buf, i + 1) <= t
  {
    SkipClosersStops(buf, i + 1);
    if t < SkipClosers(buf, i + 1) {
      ClosersApart(buf[t]);
    }
  }

  lemma NoTerminalInGap(u: Alphabet, min: int, buf: string, j: nat, t: nat, c: nat)
    requires EndsSentence(u, min, buf, t, c) && j <= |buf| && Blank(buf[j..])
    ensures t < j
  {
    if j <= t {
      assert buf[j..][t - j] == buf[t];
      TerminalsAreNoSpace(buf[t]);
    }
  }

  /** A terminal that ends a sentence is cut when the scan stands on it. */
  lemma EndsHereIsCut(u: Alphabet, min: int, buf: string, i: nat, c: nat)
    requires EndsSentence(u, min, buf, i, c)
    ensures Judge(u, min, buf, i) == Cut(c)
  {
    EndsWhereClosersStop(u, min, buf, i, c);
    TerminatesMeans(u, buf, i);
  }

  lemma SkipTarget(u: Alphabet, min: int, buf: string, i: nat)
    requires i < |buf| && Judge(u, min, buf, i).Skip?
    ensures Judge(u, min, buf, i).next == i + 1 || Judge(u, min, buf, i).next == SkipClosers(buf, i + 1)
  {
  }

  lemma EndsAfterSkip(u: Alphabet, min: int, buf: string, i: nat, t: nat, c: nat)
    requires i < |buf| && Judge(u, min, buf, i).Skip? && i <= t && EndsSentence(u, min, buf, t, c)
    ensures Judge(u, min, buf, i).next <= t
  {
    SkipTarget(u, min, buf, i);
    if t > i {
      NextTerminalIsPast(u, min, buf, i, t, c);
    } else {
      EndsHereIsCut(u, min, buf, t, c);
    }
  }

  /** Skipping a position loses no boundary. */
  lemma SkipIsSound(u: Alphabet, min: int, buf: string, i: nat, c: nat)
    requires i < |buf| && Judge(u, min, buf, i).Skip?
    ensures BoundaryFrom(u, min, buf, i, c) <==> BoundaryFrom(u, min, buf, Judge(u, min, buf, i).next, c)
  {
    var next := Judge(u, min, buf, i).next;
    if BoundaryFrom(u, min, buf, i, c) {
      var t: nat :| i <= t && EndsSentence(u, min, buf, t, c);
      EndsAfterSkip(u, min, buf, i, t, c);
    }
  }

  lemma WaitMeansGap(u: Alphabet, min: int, buf: string, i: nat)
    requires i < |buf| && Judge(u, min, buf, i).Wait?
    ensures var j := SkipClosers(buf, i + 1); j >= |buf| || Blank(buf[j..])
  {
  }

  /** Waiting is right: nothing can be cut yet. */
  lemma WaitIsSound(u: Alphabet, min: int, buf: string, i: nat, c: nat)
    requires i < |buf| && Judge(u, min, buf, i).Wait?
    ensures !BoundaryFrom(u, min, buf, i, c)
  {
    if BoundaryFrom(u, min, buf, i, c) {
      var t: nat :| i <= t && EndsSentence(u, min, buf, t, c);
      WaitMeansGap(u, min, buf, i);
      if t > i {
        NextTerminalIsPast(u, min, buf, i, t, c);
        NoTerminalInGap(u, min, buf, SkipClosers(buf, i + 1), t, c);
      } else {
        EndsHereIsCut(u, min, buf, t, c);
      }
      assert false;
    }
  }

  lemma CutIsSound(u: Alphabet, min: int, buf: string, i: nat)
    requires i < |buf| && Judge(u, min, buf, i).Cut?
    ensures IsFirst(u, min, buf, i, Some(Judge(u, min, buf, i).at))
  {
    var j := Judge(u, min, buf, i).at;
    SkipClosersStops(buf, i + 1);
    TerminatesMeans(u, buf, i);
    assert EndsSentence(u, min, buf, i, j);
    forall c: nat | c < j ensures !BoundaryFrom(u, min, buf, i, c) {
      if t: nat :| i <= t && EndsSentence(u, min, buf, t, c) {
        EndsWhereClosersStop(u, min, buf, t, c);
        if t > i {
          NextTerminalIsPast(u, min, buf, i, t, c);
        }
        assert false;
      }
    }
  }

  /** The scan finds exactly the first boundary: the first cut that leaves a long enough
      sentence, ended by a real terminal and its closers, with a gap and more text after it. */
  lemma {:induction false} BoundaryIsFirst(u: Alphabet, min: int, buf: string, i: nat)
    requires i <= |buf|
    ensures IsFirst(u, min, buf, i, NextBoundary(u, min, buf, i))
    decreases |buf| - i
  {
    if i < |buf| {
      match Judge(u, min, buf, i)
      case Skip(next) =>
        BoundaryIsFirst(u, min, buf, next);
        forall c: nat ensures BoundaryFrom(u, min, buf, i, c) <==> BoundaryFrom(u, min, buf, next, c) {
          SkipIsSound(u, min, buf, i, c);
        }
      case Wait =>
        forall c: nat ensures !BoundaryFrom(u, min, buf, i, c) {
          WaitIsSound(u, min, buf, i, c);
        }
      case Cut(_) => CutIsSound(u, min, buf, i);
    }
  }
}
