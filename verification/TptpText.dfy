/** The emitted script as the solver reads it (tptp.rs:1225-1356). */
module TptpText {
  import opened SmtLib
  import opened SexpTokens
  import opened SmtPieces
  import S = TptpSyntax
  import opened TptpProblem

  // ================================================================ the script's pieces

  /** The commands a script stands for. */
  function SetLogic(): Sexp { List([Sym("set-logic"), Sym("UF")]) }

  function DeclareSort(): Sexp { List([Sym("declare-sort"), Sym("U"), Num("0")]) }

  function Us(n: nat): (r: seq<Sexp>)
    ensures |r| == n && forall i :: 0 <= i < n ==> r[i] == Sym("U")
  {
    seq(n, i => Sym("U"))
  }

  function Declaration(u: S.Use, sort: string): Sexp {
    if u.1 == 0 then List([Sym("declare-const"), Sym(u.0), Sym(sort)])
    else List([Sym("declare-fun"), Sym(u.0), List(Us(u.1)), Sym(sort)])
  }

  function DeclarePieces(us: seq<S.Use>, sort: string): seq<Piece> {
    if us == [] then [] else DeclarePieces(us[..|us| - 1], sort) + [Command(Declaration(us[|us| - 1], sort))]
  }

  function SkolemPieces(xs: seq<string>): seq<Piece> {
    if xs == [] then [] else SkolemPieces(xs[..|xs| - 1]) + [Command(Declaration((xs[|xs| - 1], 0), "U"))]
  }

  function StatementNote(s: Statement): string { " " + s.name + " (" + RoleName(s.role) + ")" }

  function AssertPieces(ss: seq<Statement>, assertions: seq<Sexp>): seq<Piece>
    requires |ss| == |assertions|
  {
    if ss == [] then []
    else AssertPieces(ss[..|ss| - 1], assertions[..|ss| - 1])
         + [Note(StatementNote(ss[|ss| - 1])), Command(Assertion(assertions[|ss| - 1])), Blank]
  }

  function PreamblePieces(p: Problem): seq<Piece> {
    [Command(SetLogic()), Blank] + (NotePieces(p.comments) + BlankPieces(p.comments != []))
    + [Command(DeclareSort()), Blank]
  }

  function DeclarationPieces(s: Script): seq<Piece> {
    DeclarePieces(s.functions, "U") + SkolemPieces(s.skolems) + BlankPieces(s.functions != [] || s.skolems != [])
    + DeclarePieces(s.predicates, "Bool") + BlankPieces(s.predicates != [])
  }

  function EpiloguePieces(p: Problem): seq<Piece> {
    [Command(CheckSat())] + (if HasConjecture(p) then [Note(IF_UNSAT), Note(IF_SAT)] else [])
  }

  function Pieces(p: Problem, s: Script): seq<Piece>
    requires |s.assertions| == |p.statements|
  {
    PreamblePieces(p) + DeclarationPieces(s) + AssertPieces(p.statements, s.assertions) + EpiloguePieces(p)
  }

  // ---------------------------------------------------------------- their texts

  lemma {:induction false} UsText(n: nat)
    ensures PrintAll(Us(n)) == UList(n)
  {
    if n == 1 {
      assert Us(1) == [Sym("U")];
    } else if n > 1 {
      UsText(n - 1);
      assert Us(n)[1..] == Us(n - 1);
      assert Us(n)[0] == Sym("U");
    }
  }

  lemma ConstRegroup(name: string, sort: string)
    ensures "(" + ("declare-const" + " " + (name + " " + sort)) + ")" + "\n"
         == "(declare-const " + name + " " + sort + ")\n"
  {
  }

  lemma FunRegroup(name: string, us: string, sort: string)
    ensures "(" + ("declare-fun" + " " + (name + " " + (("(" + us + ")") + " " + sort))) + ")" + "\n"
         == "(declare-fun " + name + " (" + us + ") " + sort + ")\n"
  {
  }

  lemma DeclarationText(u: S.Use, sort: string)
    ensures PieceText(Command(Declaration(u, sort))) == DeclareText(u, sort)
  {
    if u.1 == 0 {
      PrintThree(Sym("declare-const"), Sym(u.0), Sym(sort));
      ConstRegroup(u.0, sort);
    } else {
      PrintFour(Sym("declare-fun"), Sym(u.0), List(Us(u.1)), Sym(sort));
      UsText(u.1);
      FunRegroup(u.0, UList(u.1), sort);
    }
  }

  lemma {:induction false} DeclarePiecesText(us: seq<S.Use>, sort: string)
    ensures PiecesText(DeclarePieces(us, sort)) == DeclareTexts(us, sort)
  {
    if us != [] {
      DeclarePiecesText(us[..|us| - 1], sort);
      PiecesMore(DeclarePieces(us[..|us| - 1], sort), Command(Declaration(us[|us| - 1], sort)));
      DeclarationText(us[|us| - 1], sort);
    }
  }

  lemma {:induction false} SkolemPiecesText(xs: seq<string>)
    ensures PiecesText(SkolemPieces(xs)) == SkolemTexts(xs)
  {
    if xs != [] {
      SkolemPiecesText(xs[..|xs| - 1]);
      PiecesMore(SkolemPieces(xs[..|xs| - 1]), Command(Declaration((xs[|xs| - 1], 0), "U")));
      DeclarationText((xs[|xs| - 1], 0), "U");
    }
  }

  lemma NoteRegroup(c: string)
    ensures ";" + (" " + c) + "\n" == "; " + c + "\n"
  {
  }

  lemma {:induction false} NotePiecesText(cs: seq<string>)
    ensures PiecesText(NotePieces(cs)) == CommentTexts(cs)
  {
    if cs != [] {
      NotePiecesText(cs[..|cs| - 1]);
      PiecesMore(NotePieces(cs[..|cs| - 1]), Note(" " + cs[|cs| - 1]));
      NoteRegroup(cs[|cs| - 1]);
    }
  }

  lemma StatementRegroup(name: string, role: string, assertion: string)
    ensures (";" + (" " + name + " (" + role + ")") + "\n") + ("(" + ("assert" + " " + assertion) + ")" + "\n") + "\n"
         == "; " + name + " (" + role + ")\n(assert " + assertion + ")\n\n"
  {
  }

  lemma StatementText(s: Statement, a: Sexp)
    ensures PiecesText([Note(StatementNote(s)), Command(Assertion(a)), Blank]) == AssertText(s, a)
  {
    PiecesFew(Note(StatementNote(s)), Command(Assertion(a)), Blank);
    PrintPair(Sym("assert"), a);
    StatementRegroup(s.name, RoleName(s.role), Print(a));
  }

  lemma {:induction false} AssertPiecesText(ss: seq<Statement>, assertions: seq<Sexp>)
    requires |ss| == |assertions|
    ensures PiecesText(AssertPieces(ss, assertions)) == AssertTexts(ss, assertions)
  {
    if ss != [] {
      var n := |ss| - 1;
      AssertPiecesText(ss[..n], assertions[..n]);
      PiecesAppend(AssertPieces(ss[..n], assertions[..n]),
                   [Note(StatementNote(ss[n])), Command(Assertion(assertions[n])), Blank]);
      StatementText(ss[n], assertions[n]);
    }
  }

  lemma BlankText(b: bool)
    ensures PiecesText(BlankPieces(b)) == BlankIf(b)
  {
    PiecesFew(Blank, Blank, Blank);
  }

  lemma PairLine(a: string, b: string)
    ensures PiecesText([Command(List([Sym(a), Sym(b)])), Blank]) == "(" + (a + " " + b) + ")" + "\n" + "\n"
  {
    PiecesFew(Command(List([Sym(a), Sym(b)])), Blank, Blank);
    PrintTwo(a, b);
  }

  lemma TripleLine(a: string, b: string, c: string)
    ensures PiecesText([Command(List([Sym(a), Sym(b), Num(c)])), Blank])
         == "(" + (a + " " + (b + " " + c)) + ")" + "\n" + "\n"
  {
    PiecesFew(Command(List([Sym(a), Sym(b), Num(c)])), Blank, Blank);
    PrintThree(Sym(a), Sym(b), Num(c));
  }

  lemma FixedLines()
    ensures "(" + ("set-logic" + " " + "UF") + ")" + "\n" + "\n" == "(set-logic UF)\n\n"
    ensures "(" + ("declare-sort" + " " + ("U" + " " + "0")) + ")" + "\n" + "\n" == "(declare-sort U 0)\n\n"
    ensures "(" + "check-sat" + ")" + "\n" == "(check-sat)\n"
  {
  }

  lemma PreamblePiecesText(p: Problem)
    ensures PiecesText(PreamblePieces(p)) == PreambleText(p)
  {
    var notes := NotePieces(p.comments) + BlankPieces(p.comments != []);
    PairLine("set-logic", "UF");
    TripleLine("declare-sort", "U", "0");
    FixedLines();
    NotePiecesText(p.comments);
    BlankText(p.comments != []);
    PiecesAppend(NotePieces(p.comments), BlankPieces(p.comments != []));
    PiecesAppend([Command(SetLogic()), Blank], notes);
    PiecesAppend([Command(SetLogic()), Blank] + notes, [Command(DeclareSort()), Blank]);
  }

  lemma DeclarationPiecesText(s: Script)
    ensures PiecesText(DeclarationPieces(s)) == DeclarationsText(s)
  {
    var a, b, c := DeclarePieces(s.functions, "U"), SkolemPieces(s.skolems),
                   BlankPieces(s.functions != [] || s.skolems != []);
    var d, e := DeclarePieces(s.predicates, "Bool"), BlankPieces(s.predicates != []);
    DeclarePiecesText(s.functions, "U");
    SkolemPiecesText(s.skolems);
    DeclarePiecesText(s.predicates, "Bool");
    BlankText(s.functions != [] || s.skolems != []);
    BlankText(s.predicates != []);
    PiecesAppend(a, b);
    PiecesAppend(a + b, c);
    PiecesAppend(a + b + c, d);
    PiecesAppend(a + b + c + d, e);
  }

  lemma ClosingText(name: string, noted: bool, a: string, b: string)
    ensures PiecesText([Command(List([Sym(name)]))] + (if noted then [Note(a), Note(b)] else []))
         == ("(" + name + ")" + "\n") + (if noted then (";" + a + "\n") + (";" + b + "\n") else "")
  {
    PiecesFew(Command(List([Sym(name)])), Blank, Blank);
    PiecesFew(Note(a), Note(b), Blank);
    PrintOne(name);
    PiecesAppend([Command(List([Sym(name)]))], if noted then [Note(a), Note(b)] else []);
  }

  lemma EpiloguePiecesText(p: Problem)
    ensures PiecesText(EpiloguePieces(p)) == EpilogueText(p)
  {
    ClosingText("check-sat", HasConjecture(p), IF_UNSAT, IF_SAT);
    FixedLines();
  }

  /** The emitted text is the text of the pieces. */
  lemma ScriptIsPieces(p: Problem, s: Script)
    requires |s.assertions| == |p.statements|
    ensures PiecesText(Pieces(p, s)) == ScriptText(p, s)
  {
    var a, b, c, d := PreamblePieces(p), DeclarationPieces(s), AssertPieces(p.statements, s.assertions),
                      EpiloguePieces(p);
    PreamblePiecesText(p);
    DeclarationPiecesText(s);
    AssertPiecesText(p.statements, s.assertions);
    EpiloguePiecesText(p);
    PiecesAppend(a, b);
    PiecesAppend(a + b, c);
    PiecesAppend(a + b + c, d);
  }
}
