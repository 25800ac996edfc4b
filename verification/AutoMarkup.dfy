/** The markup floor's tokens and how they are rendered: which pieces a token writes, where the
    gaps between spoken words go, and that a clean stream is spoken as its word tokens. */
module AutoMarkup {
  import opened Basics
  import opened Text
  import opened Segmenter
  import opened Wrappers
  import opened Speech
  import opened Vocab

  // ----- tokens and their rendering ---------------------------------------------------

  datatype Token = M(mark: Mark) | W(word: string) | O(genre: string) | C

  function Gap(space: bool): seq<Piece> {
    if space then [Plain(" ")] else []
  }

  /** What one token writes, given whether a spoken word is waiting for its gap. */
  function TokenPieces(mint: Mint, t: Token, space: bool): seq<Piece> {
    match t
    case W(w) => Gap(space) + [Plain(w)]
    case O(g) => Gap(space) + [Tag(mint(UselOpen(g)))]
    case C => [Tag(mint(UselClose))]
    case M(m) => [Tag(mint(m))]
  }

  function SpaceAfter(t: Token, space: bool): bool {
    if t.W? || t.C? then true else if t.O? then false else space
  }

  function Pieces(mint: Mint, ts: seq<Token>, space: bool): seq<Piece> {
    if ts == [] then []
    else TokenPieces(mint, ts[0], space) + Pieces(mint, ts[1..], SpaceAfter(ts[0], space))
  }

  function Rendered(mint: Mint, ts: seq<Token>): string {
    Flatten(Pieces(mint, ts, false))
  }

  method Render(mint: Mint, tokens: seq<Token>) returns (out: string)
    ensures out == Rendered(mint, tokens)
  {
    out := "";
    var space := false;
    assert "" + Rendered(mint, tokens) == Rendered(mint, tokens);
    assert tokens[0..] == tokens;
    for i := 0 to |tokens|
      invariant out + Flatten(Pieces(mint, tokens[i..], space)) == Rendered(mint, tokens)
    {
      ghost var before, gap, rest := out, space, tokens[i..];
      assert rest[1..] == tokens[i + 1..];
      RenderStep(mint, rest, space, out);
      GapAssoc(mint, out, tokens[i], space);
      match tokens[i] {
        case W(w) =>
          if space {
            out := out + " ";
          }
          out := out + w;
          space := true;
        case O(g) =>
          if space {
            out := out + " ";
          }
          out := out + Write(Tag(mint(UselOpen(g))));
          space := false;
        case C =>
          out := out + Write(Tag(mint(UselClose)));
          space := true;
        case M(m) =>
          out := out + Write(Tag(mint(m)));
      }
      assert out == before + TokenText(mint, tokens[i], gap);
    }
    assert tokens[|tokens|..] == [];
    assert out + "" == out;
  }

  function TokenText(mint: Mint, t: Token, space: bool): string {
    match t
    case W(w) => (if space then " " else "") + w
    case O(g) => (if space then " " else "") + Write(Tag(mint(UselOpen(g))))
    case C => Write(Tag(mint(UselClose)))
    case M(m) => Write(Tag(mint(m)))
  }

  lemma GapAssoc(mint: Mint, out: string, t: Token, space: bool)
    ensures t.W? ==> out + TokenText(mint, t, space) == if space then out + " " + t.word else out + t.word
    ensures t.O? ==> var open := Write(Tag(mint(UselOpen(t.genre))));
                     out + TokenText(mint, t, space) == if space then out + " " + open else out + open
  {
    var x := if t.W? then t.word else if t.O? then Write(Tag(mint(UselOpen(t.genre)))) else "";
    Assoc(out, " ", x);
    assert "" + x == x;
  }

  lemma TokenTextIsPieces(mint: Mint, t: Token, space: bool)
    ensures Flatten(TokenPieces(mint, t, space)) == TokenText(mint, t, space)
    ensures Spoken(TokenPieces(mint, t, space))
         == (if space && (t.W? || t.O?) then " " else "") + (if t.W? then t.word else "")
  {
    var ps := TokenPieces(mint, t, space);
    var last := ps[|ps| - 1];
    assert Flatten([last]) == Write(last) + "";
    assert Spoken([last]) == (if last.Plain? then last.text else "") + "";
    FlattenConcat(Gap(space), [last]);
    SpokenConcat(Gap(space), [last]);
    assert Flatten(Gap(space)) == if space then " " else "";
    assert Spoken(Gap(space)) == if space then " " else "";
    if t.W? || t.O? {
      assert ps == Gap(space) + [last];
    } else {
      assert ps == [last];
    }
  }

  lemma TokenPlain(mint: Mint, t: Token, space: bool)
    requires t.W? ==> NoAngle(t.word)
    ensures PlainText(TokenPieces(mint, t, space))
  {
    var ps := TokenPieces(mint, t, space);
    var last := ps[|ps| - 1];
    assert [last][1..] == [];
    assert " "[1..] == "";
    assert [Plain(" ")][1..] == [];
    PlainTextConcat(Gap(space), [last]);
    if t.W? || t.O? {
      assert ps == Gap(space) + [last];
    } else {
      assert ps == [last];
    }
  }

  lemma RenderStep(mint: Mint, ts: seq<Token>, space: bool, out: string)
    requires ts != []
    ensures out + Flatten(Pieces(mint, ts, space))
         == out + TokenText(mint, ts[0], space) + Flatten(Pieces(mint, ts[1..], SpaceAfter(ts[0], space)))
  {
    TokenTextIsPieces(mint, ts[0], space);
    FlattenConcat(TokenPieces(mint, ts[0], space), Pieces(mint, ts[1..], SpaceAfter(ts[0], space)));
  }

  function TokenWords(ts: seq<Token>): seq<string> {
    if ts == [] then []
    else (if ts[0].W? then [ts[0].word] else []) + TokenWords(ts[1..])
  }

  /** Every word token is one whitespace-free, angle-free word. */
  predicate CleanTokens(ts: seq<Token>) {
    ts == [] || ((ts[0].W? ==> IsWord(ts[0].word) && NoAngle(ts[0].word)) && CleanTokens(ts[1..]))
  }

  lemma {:induction false} PiecesArePlain(mint: Mint, ts: seq<Token>, space: bool)
    requires CleanTokens(ts)
    ensures PlainText(Pieces(mint, ts, space))
  {
    if ts != [] {
      PiecesArePlain(mint, ts[1..], SpaceAfter(ts[0], space));
      TokenPlain(mint, ts[0], space);
      PlainTextConcat(TokenPieces(mint, ts[0], space), Pieces(mint, ts[1..], SpaceAfter(ts[0], space)));
    }
  }

  lemma SpokenStep(mint: Mint, ts: seq<Token>, space: bool, said: string)
    requires ts != []
    ensures said + Spoken(Pieces(mint, ts, space))
         == said + Spoken(TokenPieces(mint, ts[0], space)) + Spoken(Pieces(mint, ts[1..], SpaceAfter(ts[0], space)))
  {
    var first := TokenPieces(mint, ts[0], space);
    var rest := Pieces(mint, ts[1..], SpaceAfter(ts[0], space));
    SpokenConcat(first, rest);
    Assoc(said, Spoken(first), Spoken(rest));
  }

  /** Any token stream renders to a line that speaks exactly its word tokens. `said` is the
      text already spoken. */
  lemma {:induction false} PiecesSpeak(mint: Mint, ts: seq<Token>, space: bool, said: string)
    requires CleanTokens(ts)
    requires space || said == "" || IsSpace(said[|said| - 1])
    ensures Words(said + Spoken(Pieces(mint, ts, space))) == Words(said) + TokenWords(ts)
  {
    if ts == [] {
      assert said + "" == said;
    } else {
      var t := ts[0];
      SpokenStep(mint, ts, space, said);
      TokenTextIsPieces(mint, t, space);
      var now := said + Spoken(TokenPieces(mint, t, space));
      SaidAfter(said, t, space, now);
      PiecesSpeak(mint, ts[1..], SpaceAfter(t, space), now);
      Assoc(Words(said), if t.W? then [t.word] else [], TokenWords(ts[1..]));
    }
  }

  lemma SaidAfter(said: string, t: Token, space: bool, now: string)
    requires t.W? ==> IsWord(t.word)
    requires space || said == "" || IsSpace(said[|said| - 1])
    requires now == said + ((if space && (t.W? || t.O?) then " " else "") + (if t.W? then t.word else ""))
    ensures SpaceAfter(t, space) || now == "" || IsSpace(now[|now| - 1])
    ensures Words(now) == Words(said) + (if t.W? then [t.word] else [])
  {
    var gap := if space && (t.W? || t.O?) then " " else "";
    GapAddsNoWords(said, gap);
    if t.W? {
      assert now == said + gap + t.word;
      WordAfterGap(said + gap, t.word);
    } else {
      assert now == said + gap;
    }
  }

  lemma GapAddsNoWords(said: string, gap: string)
    requires gap == " " || gap == ""
    ensures Words(said + gap) == Words(said)
  {
    if gap == " " {
      WordsAtSpace(said, " ");
      BlankHasNoWords(" ");
    } else {
      assert said + gap == said;
    }
  }

  lemma WordAfterGap(before: string, word: string)
    requires IsWord(word) && (before == "" || IsSpace(before[|before| - 1]))
    ensures Words(before + word) == Words(before) + [word]
  {
    WordsAtSpace(before, word);
    SplitWord(word, "");
    assert "" + word == word;
  }

  /** Two halves of S2: any clean stream with the text's own words is spoken as the text. */
  lemma RenderingSpeaksTheText(u: Alphabet, mint: Mint, ts: seq<Token>, text: string)
    requires CleanTokens(ts) && NoAngle(text) && TokenWords(ts) == Words(text)
    ensures StripMarkup(u, Rendered(mint, ts)) == StripMarkup(u, text)
  {
    PiecesSpeak(mint, ts, false, "");
    PiecesArePlain(mint, ts, false);
    var ps := Pieces(mint, ts, false);
    assert "" + Spoken(ps) == Spoken(ps);
    assert [] + TokenWords(ts) == TokenWords(ts);
    StripFlatten(u, ps);
    StripPlain(u, text);
  }
}
