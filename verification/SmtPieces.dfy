/** Scripts made of comments, commands and empty lines, as the solver reads them. */
module SmtPieces {
  import opened SmtLexer
  import opened SmtReader
  import opened SmtSymbols
  import opened SmtLib
  import opened SexpTokens

  // ================================================================ texts made of lines

  /** What the translation writes: a command, a comment, or an empty line. */
  datatype Piece = Command(sexp: Sexp) | Note(comment: string) | Blank

  function PieceText(p: Piece): string {
    match p
    case Command(c) => Print(c) + "\n"
    case Note(c) => ";" + c + "\n"
    case Blank => "\n"
  }

  function PiecesText(ps: seq<Piece>): string {
    if ps == [] then "" else PiecesText(ps[..|ps| - 1]) + PieceText(ps[|ps| - 1])
  }

  function PieceTokens(p: Piece): seq<Token> {
    match p
    case Command(c) => TokensOf(c)
    case Note(c) => [Comment(c)]
    case Blank => []
  }

  function PiecesTokens(ps: seq<Piece>): seq<Token> {
    if ps == [] then [] else PiecesTokens(ps[..|ps| - 1]) + PieceTokens(ps[|ps| - 1])
  }

  /** The commands among the pieces. */
  function CommandsAmong(ps: seq<Piece>): seq<Sexp> {
    if ps == [] then []
    else CommandsAmong(ps[..|ps| - 1]) + (if ps[|ps| - 1].Command? then [ps[|ps| - 1].sexp] else [])
  }

  predicate Readable(letters: char -> bool, p: Piece) {
    match p
    case Command(c) => c.List? && AllSymbols(letters, c)
    case Note(c) => OneLine(c)
    case Blank => true
  }

  predicate AllReadable(letters: char -> bool, ps: seq<Piece>) {
    forall i :: 0 <= i < |ps| ==> Readable(letters, ps[i])
  }

  /** The solver's tokens, if it reads what was meant. */
  function PieceLexemes(p: Piece): seq<Lexeme> {
    match p
    case Command(c) => LexemesOf(c)
    case Note(c) => [Remark(c)]
    case Blank => []
  }

  function PiecesLexemes(ps: seq<Piece>): seq<Lexeme> {
    if ps == [] then [] else PiecesLexemes(ps[..|ps| - 1]) + PieceLexemes(ps[|ps| - 1])
  }

  function LexemeLists(cs: seq<Sexp>): (r: seq<seq<Lexeme>>)
    ensures |r| == |cs| && forall i :: 0 <= i < |cs| ==> r[i] == LexemesOf(cs[i])
  {
    seq(|cs|, i requires 0 <= i < |cs| => LexemesOf(cs[i]))
  }

  function RefinedAll(letters: char -> bool, groups: seq<seq<Token>>): (r: seq<seq<Lexeme>>)
    ensures |r| == |groups| && forall i :: 0 <= i < |groups| ==> r[i] == Refined(letters, groups[i])
  {
    seq(|groups|, i requires 0 <= i < |groups| => Refined(letters, groups[i]))
  }

  /** The commands of a text in the solver's tokens. */
  function SolverCommands(letters: char -> bool, text: string): seq<seq<Lexeme>> {
    RefinedAll(letters, Commands(text))
  }

  function TokenLists(cs: seq<Sexp>): (r: seq<seq<Token>>)
    ensures |r| == |cs| && forall i :: 0 <= i < |cs| ==> r[i] == TokensOf(cs[i])
  {
    seq(|cs|, i requires 0 <= i < |cs| => TokensOf(cs[i]))
  }

  lemma FeedPiece(letters: char -> bool, tokens: seq<Token>, p: Piece)
    requires Readable(letters, p)
    ensures Feed(Lexer(tokens, Between), PieceText(p)) == Lexer(tokens + PieceTokens(p), Between)
  {
    var start := Lexer(tokens, Between);
    match p
    case Command(c) =>
      SymbolsRefined(letters, c);
      FeedPrint(tokens, c);
      FeedAppend(start, Print(c), "\n");
      FeedChar(Feed(start, Print(c)), "\n");
    case Note(c) => FeedNote(tokens, c);
    case Blank =>
      FeedChar(start, "\n");
      assert tokens + [] == tokens;
  }

  lemma FeedNote(tokens: seq<Token>, c: string)
    requires OneLine(c)
    ensures Feed(Lexer(tokens, Between), ";" + c + "\n") == Lexer(tokens + [Comment(c)], Between)
  {
    var start := Lexer(tokens, Between);
    FeedChar(start, ";");
    FeedAppend(start, ";", c);
    FeedInComment(tokens, "", c);
    assert "" + c == c;
    FeedAppend(start, ";" + c, "\n");
    FeedChar(Feed(start, ";" + c), "\n");
  }

  lemma {:induction false} LexPieces(letters: char -> bool, ps: seq<Piece>)
    requires AllReadable(letters, ps)
    ensures Lex(PiecesText(ps)) == Lexer(PiecesTokens(ps), Between)
  {
    if ps != [] {
      var init, last := ps[..|ps| - 1], ps[|ps| - 1];
      LexPieces(letters, init);
      FeedPiece(letters, PiecesTokens(init), last);
      FeedAppend(EMPTY, PiecesText(init), PieceText(last));
    }
  }

  /** Only lists are commands. */
  predicate ListsOnly(ps: seq<Piece>) {
    forall i :: 0 <= i < |ps| && ps[i].Command? ==> ps[i].sexp.List?
  }

  lemma ReadPiece(cs: seq<Sexp>, ts: seq<Token>, p: Piece)
    requires p.Command? ==> p.sexp.List?
    requires Read(START, ts) == Reading(0, [], TokenLists(cs), false)
    ensures Read(START, ts + PieceTokens(p))
         == Reading(0, [], TokenLists(cs + (if p.Command? then [p.sexp] else [])), false)
  {
    ReadAppend(START, ts, PieceTokens(p));
    var r := Read(START, ts);
    match p
    case Command(c) =>
      ReadList(r, c.items);
      TokenListsMore(cs, c);
    case Note(c) =>
      SexpTokens.ReadFirst(r, Comment(c));
      assert cs + [] == cs;
    case Blank => assert cs + [] == cs;
  }

  lemma TokenListsMore(cs: seq<Sexp>, c: Sexp)
    ensures TokenLists(cs + [c]) == TokenLists(cs) + [TokensOf(c)]
  {
  }

  lemma {:induction false} ReadPieces(ps: seq<Piece>)
    requires ListsOnly(ps)
    ensures Read(START, PiecesTokens(ps)) == Reading(0, [], TokenLists(CommandsAmong(ps)), false)
  {
    if ps != [] {
      ReadPieces(ps[..|ps| - 1]);
      ReadPiece(CommandsAmong(ps[..|ps| - 1]), PiecesTokens(ps[..|ps| - 1]), ps[|ps| - 1]);
    }
  }

  lemma PieceRefined(letters: char -> bool, p: Piece)
    requires Readable(letters, p)
    ensures Refined(letters, PieceTokens(p)) == PieceLexemes(p)
  {
    match p
    case Command(c) => SymbolsRefined(letters, c);
    case Note(c) =>
      assert [Comment(c)][1..] == [];
      assert [Remark(c)] + [] == [Remark(c)];
    case Blank =>
  }

  lemma {:induction false} PiecesRefined(letters: char -> bool, ps: seq<Piece>)
    requires AllReadable(letters, ps)
    ensures Refined(letters, PiecesTokens(ps)) == PiecesLexemes(ps)
  {
    if ps != [] {
      var init, last := ps[..|ps| - 1], ps[|ps| - 1];
      PiecesRefined(letters, init);
      PieceRefined(letters, last);
      RefinedAppend(letters, PiecesTokens(init), PieceTokens(last));
    }
  }

  lemma ProperPiece(letters: char -> bool, p: Piece)
    requires AllProperLexemes(letters, PieceLexemes(p)) && (p.Command? ==> p.sexp.List?)
    ensures Readable(letters, p)
  {
    match p
    case Command(c) => ProperSymbols(letters, c);
    case Note(c) => assert ProperLexeme(letters, PieceLexemes(p)[0]);
    case Blank =>
  }

  lemma {:induction false} ProperPieces(letters: char -> bool, ps: seq<Piece>)
    requires AllProperLexemes(letters, PiecesLexemes(ps)) && ListsOnly(ps)
    ensures AllReadable(letters, ps)
  {
    if ps != [] {
      ProperLexemesAppend(letters, PiecesLexemes(ps[..|ps| - 1]), PieceLexemes(ps[|ps| - 1]));
      ProperPieces(letters, ps[..|ps| - 1]);
      ProperPiece(letters, ps[|ps| - 1]);
    }
  }

  lemma {:induction false} CommandsReadable(letters: char -> bool, ps: seq<Piece>, c: Sexp)
    requires AllReadable(letters, ps) && c in CommandsAmong(ps)
    ensures AllSymbols(letters, c)
  {
    if ps != [] && c in CommandsAmong(ps[..|ps| - 1]) {
      CommandsReadable(letters, ps[..|ps| - 1], c);
    }
  }

  lemma CommandsRefined(letters: char -> bool, ps: seq<Piece>)
    requires AllReadable(letters, ps)
    ensures RefinedAll(letters, TokenLists(CommandsAmong(ps))) == LexemeLists(CommandsAmong(ps))
  {
    var cs := CommandsAmong(ps);
    forall i | 0 <= i < |cs|
      ensures Refined(letters, TokensOf(cs[i])) == LexemesOf(cs[i])
    {
      CommandsReadable(letters, ps, cs[i]);
      SymbolsRefined(letters, cs[i]);
    }
  }

  lemma ReadPiecesText(letters: char -> bool, ps: seq<Piece>)
    requires AllReadable(letters, ps) && ListsOnly(ps)
    ensures Tokens(PiecesText(ps)) == PiecesTokens(ps)
    ensures WellRead(PiecesText(ps)) && Commands(PiecesText(ps)) == TokenLists(CommandsAmong(ps))
  {
    var ts := PiecesTokens(ps);
    assert ts + [] == ts;
    LexPieces(letters, ps);
    ReadPieces(ps);
  }

  /** The solver's tokens of the text are those of its pieces exactly when the pieces are readable, and then
      the solver reads the commands among them, one for one. */
  lemma PiecesReadBackIff(letters: char -> bool, ps: seq<Piece>)
    requires ListsOnly(ps)
    ensures Refined(letters, Tokens(PiecesText(ps))) == PiecesLexemes(ps) <==> AllReadable(letters, ps)
    ensures AllReadable(letters, ps) ==>
              WellRead(PiecesText(ps)) && SolverCommands(letters, PiecesText(ps)) == LexemeLists(CommandsAmong(ps))
  {
    if AllReadable(letters, ps) {
      ReadPiecesText(letters, ps);
      PiecesRefined(letters, ps);
      CommandsRefined(letters, ps);
    }
    if Refined(letters, Tokens(PiecesText(ps))) == PiecesLexemes(ps) {
      TokensProper(PiecesText(ps));
      RefinedProper(letters, Tokens(PiecesText(ps)));
      ProperPieces(letters, ps);
    }
  }

  lemma Regroup<T>(a: seq<T>, b: seq<T>, c: seq<T>)
    ensures a + (b + c) == (a + b) + c && a + [] == a
  {
  }

  lemma SnocInit<T>(a: seq<T>, b: seq<T>)
    requires b != []
    ensures (a + b)[..|a + b| - 1] == a + b[..|b| - 1] && (a + b)[|a + b| - 1] == b[|b| - 1]
  {
  }

  lemma {:induction false} PiecesAppend(a: seq<Piece>, b: seq<Piece>)
    ensures PiecesText(a + b) == PiecesText(a) + PiecesText(b)
  {
    if b == [] {
      Regroup(a, b, b);
      Regroup(PiecesText(a), "", "");
    } else {
      SnocInit(a, b);
      PiecesAppend(a, b[..|b| - 1]);
      Regroup(PiecesText(a), PiecesText(b[..|b| - 1]), PieceText(b[|b| - 1]));
    }
  }

  lemma {:induction false} CommandsAppend(a: seq<Piece>, b: seq<Piece>)
    ensures CommandsAmong(a + b) == CommandsAmong(a) + CommandsAmong(b)
  {
    if b == [] {
      Regroup(a, b, b);
      Regroup(CommandsAmong(a), [], []);
    } else {
      SnocInit(a, b);
      CommandsAppend(a, b[..|b| - 1]);
      var last := b[|b| - 1];
      Regroup(CommandsAmong(a), CommandsAmong(b[..|b| - 1]), if last.Command? then [last.sexp] else []);
    }
  }

  // ================================================================ their texts

  lemma PiecesMore(ps: seq<Piece>, p: Piece)
    ensures PiecesText(ps + [p]) == PiecesText(ps) + PieceText(p)
  {
    assert (ps + [p])[..|ps|] == ps;
  }

  lemma PiecesFew(a: Piece, b: Piece, c: Piece)
    ensures PiecesText([a]) == PieceText(a)
    ensures PiecesText([a, b]) == PieceText(a) + PieceText(b)
    ensures PiecesText([a, b, c]) == PieceText(a) + PieceText(b) + PieceText(c)
  {
    assert [a][..0] == [] && [a, b][..1] == [a] && [a, b, c][..2] == [a, b];
  }

  lemma PrintThree(a: Sexp, b: Sexp, c: Sexp)
    ensures Print(List([a, b, c])) == "(" + (Print(a) + " " + (Print(b) + " " + Print(c))) + ")"
  {
    assert [a, b, c][1..] == [b, c] && [b, c][1..] == [c];
    assert PrintAll([c]) == Print(c);
    assert PrintAll([b, c]) == Print(b) + " " + Print(c);
  }

  lemma PrintFour(a: Sexp, b: Sexp, c: Sexp, d: Sexp)
    ensures Print(List([a, b, c, d])) == "(" + (Print(a) + " " + (Print(b) + " " + (Print(c) + " " + Print(d)))) + ")"
  {
    assert [a, b, c, d][1..] == [b, c, d];
    PrintThree(b, c, d);
    assert PrintAll([b, c, d]) == Print(b) + " " + PrintAll([b, c, d][1..]);
    assert [b, c, d][1..] == [c, d] && [c, d][1..] == [d];
    assert PrintAll([d]) == Print(d);
  }

  lemma PrintPair(a: Sexp, b: Sexp)
    ensures Print(List([a, b])) == "(" + (Print(a) + " " + Print(b)) + ")"
  {
    assert [a, b][1..] == [b];
    assert PrintAll([b]) == Print(b);
  }

  /** Tokens determine the commands. */
  lemma LexemeListsDecide(a: seq<Sexp>, b: seq<Sexp>)
    requires LexemeLists(a) == LexemeLists(b)
    ensures a == b
  {
    assert |a| == |LexemeLists(a)| == |b|;
    forall i | 0 <= i < |a|
      ensures a[i] == b[i]
    {
      assert LexemeLists(a)[i] == LexemesOf(a[i]) && LexemeLists(b)[i] == LexemesOf(b[i]);
      assert LexemesOf(a[i]) + [] == LexemesOf(b[i]) + [];
      LexemesDecide(a[i], b[i], [], []);
    }
  }

  // ================================================================ readable pieces

  function NotePieces(cs: seq<string>): seq<Piece> {
    if cs == [] then [] else NotePieces(cs[..|cs| - 1]) + [Note(" " + cs[|cs| - 1])]
  }

  lemma ReadableAppend(letters: char -> bool, a: seq<Piece>, b: seq<Piece>)
    ensures AllReadable(letters, a + b) <==> AllReadable(letters, a) && AllReadable(letters, b)
  {
    assert forall i :: 0 <= i < |a| ==> (a + b)[i] == a[i];
    assert forall i :: 0 <= i < |b| ==> (a + b)[|a| + i] == b[i];
  }

  lemma ReadableOne(letters: char -> bool, p: Piece)
    ensures AllReadable(letters, [p]) <==> Readable(letters, p)
  {
    assert [p][0] == p;
  }

  lemma OneLineAppend(a: string, b: string)
    ensures OneLine(a + b) <==> OneLine(a) && OneLine(b)
  {
    assert forall i :: 0 <= i < |a| ==> (a + b)[i] == a[i];
    assert forall i :: 0 <= i < |b| ==> (a + b)[|a| + i] == b[i];
  }

  lemma {:induction false} NotesReadable(letters: char -> bool, cs: seq<string>)
    ensures AllReadable(letters, NotePieces(cs)) <==> forall c :: c in cs ==> OneLine(c)
  {
    if cs != [] {
      var init, last := cs[..|cs| - 1], cs[|cs| - 1];
      NotesReadable(letters, init);
      ReadableAppend(letters, NotePieces(init), [Note(" " + last)]);
      ReadableOne(letters, Note(" " + last));
      OneLineAppend(" ", last);
      assert cs == init + [last];
    }
  }

  // ================================================================ commands

  function CheckSat(): Sexp { List([Sym("check-sat")]) }

  function Assertion(a: Sexp): Sexp { List([Sym("assert"), a]) }

  /** What a command asserts. */
  predicate Asserts(c: Sexp) {
    c.List? && |c.items| == 2 && c.items[0] == Sym("assert")
  }

  function BlankPieces(b: bool): seq<Piece> { if b then [Blank] else [] }
}
