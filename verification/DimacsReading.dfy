/** What the solver reads in the script of a CNF or QBF (dimacs.rs:173-215, 512-556). */
module DimacsReading {
  import opened RustText
  import L = SmtLexer
  import opened SmtReader
  import opened SmtSymbols
  import opened SmtLib
  import opened SexpTokens
  import opened SmtPieces
  import opened Dimacs
  import opened DimacsRoundTrip
  import opened DimacsSmt
  import opened DimacsMeaning

  // ================================================================ every name is a symbol

  lemma VarSymbol(letters: char -> bool, i: int)
    ensures IsSymbol(letters, VarName(i))
  {
    var name := VarName(i);
    assert name[0] == 'v';
    forall k | 0 <= k < |name|
      ensures IsSymbolChar(letters, name[k])
    {
      assert k > 0 ==> name[k] == FormatInt(i)[k - 1];
    }
  }

  lemma ListSymbols(letters: char -> bool, head: string, args: seq<Sexp>)
    requires IsSymbol(letters, head) && forall k :: 0 <= k < |args| ==> AllSymbols(letters, args[k])
    ensures AllSymbols(letters, App(head, args))
  {
    var items := [Sym(head)] + args;
    assert forall k :: 0 < k < |items| ==> items[k] == args[k - 1];
  }

  lemma Words(letters: char -> bool)
    ensures IsSymbol(letters, "not") && IsSymbol(letters, "or") && IsSymbol(letters, "and")
    ensures IsSymbol(letters, "true") && IsSymbol(letters, "false") && IsSymbol(letters, "Bool")
    ensures IsSymbol(letters, "forall") && IsSymbol(letters, "exists") && IsSymbol(letters, "assert")
  {
  }

  lemma LiteralSymbols(letters: char -> bool, literal: int)
    ensures AllSymbols(letters, LiteralSexp(literal))
  {
    Words(letters);
    VarSymbol(letters, literal);
    VarSymbol(letters, Negated32(literal));
    ListSymbols(letters, "not", [Sym(VarName(Negated32(literal)))]);
  }

  lemma ClauseSymbols(letters: char -> bool, clause: seq<int>)
    ensures AllSymbols(letters, ClauseSexp(clause))
  {
    Words(letters);
    forall k | 0 <= k < |clause|
      ensures AllSymbols(letters, LiteralSexps(clause)[k])
    {
      LiteralSymbols(letters, clause[k]);
    }
    ListSymbols(letters, "or", LiteralSexps(clause));
  }

  lemma MatrixSymbols(letters: char -> bool, clauses: seq<seq<int>>)
    ensures forall k :: 0 <= k < |clauses| ==> AllSymbols(letters, ClauseSexps(clauses)[k])
    ensures AllSymbols(letters, MatrixSexp(clauses))
  {
    Words(letters);
    forall k | 0 <= k < |clauses|
      ensures AllSymbols(letters, ClauseSexps(clauses)[k])
    {
      ClauseSymbols(letters, clauses[k]);
    }
    ListSymbols(letters, "and", ClauseSexps(clauses));
  }

  lemma BinderSymbols(letters: char -> bool, v: nat)
    ensures AllSymbols(letters, BinderSexp(v))
  {
    Words(letters);
    VarSymbol(letters, v);
  }

  lemma BlockSymbols(letters: char -> bool, block: Block, body: Sexp)
    requires AllSymbols(letters, body)
    ensures AllSymbols(letters, BlockSexp(block, body))
  {
    Words(letters);
    var binders := BinderSexps(block.variables);
    forall k | 0 <= k < |binders|
      ensures AllSymbols(letters, binders[k])
    {
      BinderSymbols(letters, block.variables[k]);
    }
    var items := [Sym(Quantifier(block.universal)), List(binders), body];
    assert items[1] == List(binders) && items[2] == body;
  }

  lemma {:induction false} FormulaSymbols(letters: char -> bool, blocks: seq<Block>, matrix: Sexp)
    requires AllSymbols(letters, matrix)
    ensures AllSymbols(letters, FormulaSexp(blocks, matrix))
  {
    if blocks != [] {
      FormulaSymbols(letters, blocks[1..], matrix);
      BlockSymbols(letters, blocks[0], FormulaSexp(blocks[1..], matrix));
    }
  }

  // ================================================================ the scripts in pieces

  function Logic(name: string): Sexp { List([Sym("set-logic"), Sym(name)]) }

  function DeclareVar(i: nat): Sexp { List([Sym("declare-const"), Sym(VarName(i)), Sym("Bool")]) }

  function DeclarePieces(n: nat): seq<Piece> {
    if n == 0 then [] else DeclarePieces(n - 1) + [Command(DeclareVar(n))]
  }

  function AssertPieces(ss: seq<Sexp>): seq<Piece> {
    if ss == [] then [] else AssertPieces(ss[..|ss| - 1]) + [Command(Assertion(ss[|ss| - 1]))]
  }

  function CnfPieces(x: Cnf): seq<Piece> {
    [Command(Logic("QF_UF"))] + DeclarePieces(x.numVars) + AssertPieces(ClauseSexps(x.clauses)) + [Command(CheckSat())]
  }

  function QCnfPieces(x: QCnf): seq<Piece> {
    [Command(Logic("UF")), Blank] + (NotePieces(x.comments) + BlankPieces(x.comments != []))
    + (DeclarePieces(x.numVars) + [Blank])
    + [Command(Assertion(FormulaSexp(x.blocks, MatrixSexp(x.clauses)))), Blank] + [Command(CheckSat())]
  }

  // ---------------------------------------------------------------- their texts

  lemma DeclareRegroup(name: string)
    ensures "(" + ("declare-const" + " " + (name + " " + "Bool")) + ")" + "\n" == "(declare-const " + name + " Bool)\n"
  {
  }

  lemma {:induction false} DeclarePiecesText(n: nat)
    ensures PiecesText(DeclarePieces(n)) == DeclareLines(n)
  {
    if n > 0 {
      DeclarePiecesText(n - 1);
      PiecesMore(DeclarePieces(n - 1), Command(DeclareVar(n)));
      PrintThree(Sym("declare-const"), Sym(VarName(n)), Sym("Bool"));
      DeclareRegroup(VarName(n));
    }
  }

  lemma AssertRegroup(s: string)
    ensures "(" + ("assert" + " " + s) + ")" + "\n" == "(assert " + s + ")\n"
  {
  }

  lemma AssertionText(s: Sexp)
    ensures PieceText(Command(Assertion(s))) == AssertLine(s)
  {
    PrintPair(Sym("assert"), s);
    AssertRegroup(Print(s));
  }

  lemma {:induction false} AssertPiecesText(ss: seq<Sexp>)
    ensures PiecesText(AssertPieces(ss)) == AssertLines(ss)
  {
    if ss != [] {
      var init, last := ss[..|ss| - 1], ss[|ss| - 1];
      AssertPiecesText(init);
      PiecesMore(AssertPieces(init), Command(Assertion(last)));
      AssertionText(last);
    }
  }

  lemma NoteRegroup(c: string)
    ensures ";" + (" " + c) + "\n" == "; " + c + "\n"
  {
  }

  lemma {:induction false} NotePiecesText(cs: seq<string>)
    ensures PiecesText(NotePieces(cs)) == CommentBlock(cs)
  {
    if cs != [] {
      var init, last := cs[..|cs| - 1], cs[|cs| - 1];
      NotePiecesText(init);
      PiecesMore(NotePieces(init), Note(" " + last));
      NoteRegroup(last);
    }
  }

  lemma LogicText(name: string)
    ensures PieceText(Command(Logic(name))) == "(set-logic " + name + ")\n"
  {
    PrintPair(Sym("set-logic"), Sym(name));
    assert "(" + ("set-logic" + " " + name) + ")" + "\n" == "(set-logic " + name + ")\n";
  }

  lemma CheckSatText()
    ensures PieceText(Command(CheckSat())) == "(check-sat)\n"
  {
    PrintOne("check-sat");
    assert "(" + "check-sat" + ")" + "\n" == "(check-sat)\n";
  }

  lemma LogicLine(name: string, line: string)
    requires line == "(set-logic " + name + ")\n"
    ensures PiecesText([Command(Logic(name))]) == line
    ensures PiecesText([Command(Logic(name)), Blank]) == line + "\n"
  {
    LogicText(name);
    PiecesFew(Command(Logic(name)), Blank, Blank);
  }

  lemma CnfPiecesText(x: Cnf)
    ensures PiecesText(CnfPieces(x)) == CnfScript(x)
  {
    var a, b, c, d := [Command(Logic("QF_UF"))], DeclarePieces(x.numVars), AssertPieces(ClauseSexps(x.clauses)),
                      [Command(CheckSat())];
    assert "(set-logic " + "QF_UF" + ")\n" == "(set-logic QF_UF)\n";
    LogicLine("QF_UF", "(set-logic QF_UF)\n");
    DeclarePiecesText(x.numVars);
    AssertPiecesText(ClauseSexps(x.clauses));
    CheckSatText();
    PiecesFew(Command(CheckSat()), Blank, Blank);
    PiecesAppend(a, b);
    PiecesAppend(a + b, c);
    PiecesAppend(a + b + c, d);
  }

  lemma WithBlank(ps: seq<Piece>, p: Piece)
    ensures PiecesText(ps + [Blank]) == PiecesText(ps) + "\n"
    ensures PiecesText([p, Blank]) == PieceText(p) + "\n"
  {
    PiecesMore(ps, Blank);
    PiecesFew(p, Blank, Blank);
  }

  lemma QCnfPiecesText(x: QCnf)
    ensures PiecesText(QCnfPieces(x)) == QCnfScript(x)
  {
    var f := FormulaSexp(x.blocks, MatrixSexp(x.clauses));
    var a, b := [Command(Logic("UF")), Blank], NotePieces(x.comments) + BlankPieces(x.comments != []);
    var c, d, e := DeclarePieces(x.numVars) + [Blank], [Command(Assertion(f)), Blank], [Command(CheckSat())];
    assert "(set-logic " + "UF" + ")\n" == "(set-logic UF)\n";
    LogicLine("UF", "(set-logic UF)\n");
    assert "(set-logic UF)\n" + "\n" == "(set-logic UF)\n\n";
    NotePiecesText(x.comments);
    PiecesAppend(NotePieces(x.comments), BlankPieces(x.comments != []));
    PiecesFew(Blank, Blank, Blank);
    DeclarePiecesText(x.numVars);
    WithBlank(DeclarePieces(x.numVars), Command(Assertion(f)));
    AssertionText(f);
    CheckSatText();
    PiecesFew(Command(CheckSat()), Blank, Blank);
    PiecesAppend(a, b);
    PiecesAppend(a + b, c);
    PiecesAppend(a + b + c, d);
    PiecesAppend(a + b + c + d, e);
  }

  // ---------------------------------------------------------------- readable

  lemma {:induction false} DeclaresReadable(letters: char -> bool, n: nat)
    ensures AllReadable(letters, DeclarePieces(n)) && ListsOnly(DeclarePieces(n))
  {
    if n > 0 {
      DeclaresReadable(letters, n - 1);
      VarSymbol(letters, n);
      assert IsSymbol(letters, "declare-const") && IsSymbol(letters, "Bool");
      assert Readable(letters, Command(DeclareVar(n)));
    }
  }

  lemma {:induction false} AssertsReadable(letters: char -> bool, ss: seq<Sexp>)
    requires forall k :: 0 <= k < |ss| ==> AllSymbols(letters, ss[k])
    ensures AllReadable(letters, AssertPieces(ss)) && ListsOnly(AssertPieces(ss))
  {
    if ss != [] {
      AssertsReadable(letters, ss[..|ss| - 1]);
      AssertReadable(letters, ss[|ss| - 1]);
    }
  }

  lemma AssertReadable(letters: char -> bool, s: Sexp)
    requires AllSymbols(letters, s)
    ensures Readable(letters, Command(Assertion(s)))
  {
    Words(letters);
    ListSymbols(letters, "assert", [s]);
    assert Assertion(s) == App("assert", [s]);
  }

  lemma EndsReadable(letters: char -> bool)
    ensures Readable(letters, Command(Logic("QF_UF"))) && Readable(letters, Command(Logic("UF")))
    ensures Readable(letters, Command(CheckSat())) && Readable(letters, Blank)
  {
    assert IsSymbol(letters, "set-logic") && IsSymbol(letters, "QF_UF") && IsSymbol(letters, "UF");
    assert IsSymbol(letters, "check-sat");
  }

  lemma CnfReadable(letters: char -> bool, x: Cnf)
    ensures AllReadable(letters, CnfPieces(x)) && ListsOnly(CnfPieces(x))
  {
    EndsReadable(letters);
    DeclaresReadable(letters, x.numVars);
    MatrixSymbols(letters, x.clauses);
    AssertsReadable(letters, ClauseSexps(x.clauses));
  }

  lemma {:induction false} NotesAreNotes(cs: seq<string>)
    ensures forall i :: 0 <= i < |NotePieces(cs)| ==> NotePieces(cs)[i].Note?
  {
    if cs != [] {
      NotesAreNotes(cs[..|cs| - 1]);
    }
  }

  lemma QCnfReadableIff(letters: char -> bool, x: QCnf)
    ensures ListsOnly(QCnfPieces(x))
    ensures AllReadable(letters, QCnfPieces(x)) <==> forall c :: c in x.comments ==> L.OneLine(c)
  {
    var f := FormulaSexp(x.blocks, MatrixSexp(x.clauses));
    var a, b := [Command(Logic("UF")), Blank], NotePieces(x.comments) + BlankPieces(x.comments != []);
    var c, d, e := DeclarePieces(x.numVars) + [Blank], [Command(Assertion(f)), Blank], [Command(CheckSat())];
    EndsReadable(letters);
    NotesReadable(letters, x.comments);
    NotesAreNotes(x.comments);
    DeclaresReadable(letters, x.numVars);
    MatrixSymbols(letters, x.clauses);
    FormulaSymbols(letters, x.blocks, MatrixSexp(x.clauses));
    AssertReadable(letters, f);
    ReadableAppend(letters, NotePieces(x.comments), BlankPieces(x.comments != []));
    PairReadable(letters, Command(Logic("UF")), Blank);
    PairReadable(letters, Command(Assertion(f)), Blank);
    PairReadable(letters, Command(CheckSat()), Blank);
    BetweenReadable(letters, a, b, c, d, e);
  }

  lemma PairReadable(letters: char -> bool, p: Piece, q: Piece)
    requires Readable(letters, p) && Readable(letters, q)
    ensures AllReadable(letters, [p]) && AllReadable(letters, [p, q]) && ListsOnly([p]) && ListsOnly([p, q])
  {
  }

  lemma BetweenReadable(letters: char -> bool, a: seq<Piece>, b: seq<Piece>, c: seq<Piece>, d: seq<Piece>,
                        e: seq<Piece>)
    requires AllReadable(letters, a) && AllReadable(letters, c) && AllReadable(letters, d) && AllReadable(letters, e)
    requires ListsOnly(a) && ListsOnly(b) && ListsOnly(c) && ListsOnly(d) && ListsOnly(e)
    ensures AllReadable(letters, a + b + c + d + e) <==> AllReadable(letters, b)
    ensures ListsOnly(a + b + c + d + e)
  {
    ReadableAppend(letters, a, b);
    ReadableAppend(letters, a + b, c);
    ReadableAppend(letters, a + b + c, d);
    ReadableAppend(letters, a + b + c + d, e);
  }

  // ================================================================ what is asserted

  /** The assertions among commands, in order. */
  function AssertedIn(cs: seq<Sexp>): seq<Sexp> {
    if cs == [] then []
    else AssertedIn(cs[..|cs| - 1]) + (if Asserts(cs[|cs| - 1]) then [cs[|cs| - 1].items[1]] else [])
  }

  lemma {:induction false} AssertedAppend(a: seq<Sexp>, b: seq<Sexp>)
    ensures AssertedIn(a + b) == AssertedIn(a) + AssertedIn(b)
  {
    if b == [] {
      assert a + b == a;
    } else {
      assert (a + b)[..|a + b| - 1] == a + b[..|b| - 1];
      AssertedAppend(a, b[..|b| - 1]);
    }
  }

  function AssertedAmong(ps: seq<Piece>): seq<Sexp> { AssertedIn(CommandsAmong(ps)) }

  lemma AssertedPieces(a: seq<Piece>, b: seq<Piece>)
    ensures AssertedAmong(a + b) == AssertedAmong(a) + AssertedAmong(b)
  {
    CommandsAppend(a, b);
    AssertedAppend(CommandsAmong(a), CommandsAmong(b));
  }

  lemma AssertedOne(p: Piece)
    ensures AssertedAmong([p]) == if p.Command? && Asserts(p.sexp) then [p.sexp.items[1]] else []
  {
    assert [p][..0] == [];
    if p.Command? {
      assert CommandsAmong([p]) == [] + [p.sexp] == [p.sexp];
      assert [p.sexp][..0] == [];
      assert AssertedIn([p.sexp]) == [] + (if Asserts(p.sexp) then [p.sexp.items[1]] else []);
    } else {
      assert CommandsAmong([p]) == [] + [];
    }
  }

  lemma NotAsserted(n: nat, name: string)
    ensures !Asserts(DeclareVar(n)) && !Asserts(Logic(name)) && !Asserts(CheckSat())
  {
    assert "set-logic"[0] == 's' && "assert"[0] == 'a';
  }

  lemma {:induction false} NothingDeclaredIsAsserted(n: nat)
    ensures AssertedAmong(DeclarePieces(n)) == []
  {
    if n > 0 {
      NothingDeclaredIsAsserted(n - 1);
      AssertedPieces(DeclarePieces(n - 1), [Command(DeclareVar(n))]);
      AssertedOne(Command(DeclareVar(n)));
      NotAsserted(n, "");
    }
  }

  lemma {:induction false} AllAsserted(ss: seq<Sexp>)
    ensures AssertedAmong(AssertPieces(ss)) == ss
  {
    if ss != [] {
      var init, last := ss[..|ss| - 1], ss[|ss| - 1];
      AllAsserted(init);
      AssertedPieces(AssertPieces(init), [Command(Assertion(last))]);
      AssertedOne(Command(Assertion(last)));
      assert ss == init + [last];
    }
  }

  lemma {:induction false} NotesAssertNothing(cs: seq<string>)
    ensures AssertedAmong(NotePieces(cs)) == []
  {
    if cs != [] {
      var init, last := cs[..|cs| - 1], cs[|cs| - 1];
      NotesAssertNothing(init);
      AssertedPieces(NotePieces(init), [Note(" " + last)]);
      AssertedOne(Note(" " + last));
    }
  }

  lemma CnfAsserted(x: Cnf)
    ensures AssertedAmong(CnfPieces(x)) == ClauseSexps(x.clauses)
  {
    var a, b, c, d := [Command(Logic("QF_UF"))], DeclarePieces(x.numVars), AssertPieces(ClauseSexps(x.clauses)),
                      [Command(CheckSat())];
    NotAsserted(0, "QF_UF");
    AssertedOne(Command(Logic("QF_UF")));
    AssertedOne(Command(CheckSat()));
    NothingDeclaredIsAsserted(x.numVars);
    AllAsserted(ClauseSexps(x.clauses));
    AssertedPieces(a, b);
    AssertedPieces(a + b, c);
    AssertedPieces(a + b + c, d);
  }

  lemma LogicAssertsNothing(name: string)
    ensures AssertedAmong([Command(Logic(name)), Blank]) == []
  {
    NotAsserted(0, name);
    TwoPieces(Command(Logic(name)));
    AssertedOne(Command(Logic(name)));
  }

  lemma CheckAssertsNothing()
    ensures AssertedAmong([Command(CheckSat())]) == []
  {
    NotAsserted(0, "");
    AssertedOne(Command(CheckSat()));
  }

  lemma DeclarationsAssertNothing(n: nat)
    ensures AssertedAmong(DeclarePieces(n) + [Blank]) == []
  {
    NothingDeclaredIsAsserted(n);
    AssertedOne(Blank);
    AssertedPieces(DeclarePieces(n), [Blank]);
  }

  lemma CommentsAssertNothing(cs: seq<string>, b: bool)
    ensures AssertedAmong(NotePieces(cs) + BlankPieces(b)) == []
  {
    NotesAssertNothing(cs);
    AssertedOne(Blank);
    AssertedPieces(NotePieces(cs), BlankPieces(b));
  }

  lemma FormulaAsserted(f: Sexp)
    ensures AssertedAmong([Command(Assertion(f)), Blank]) == [f]
  {
    TwoPieces(Command(Assertion(f)));
    AssertedOne(Command(Assertion(f)));
  }

  lemma QCnfAsserted(x: QCnf)
    ensures AssertedAmong(QCnfPieces(x)) == [FormulaSexp(x.blocks, MatrixSexp(x.clauses))]
  {
    var f := FormulaSexp(x.blocks, MatrixSexp(x.clauses));
    LogicAssertsNothing("UF");
    CommentsAssertNothing(x.comments, x.comments != []);
    DeclarationsAssertNothing(x.numVars);
    FormulaAsserted(f);
    CheckAssertsNothing();
    AssertedFive([Command(Logic("UF")), Blank], NotePieces(x.comments) + BlankPieces(x.comments != []),
                 DeclarePieces(x.numVars) + [Blank], [Command(Assertion(f)), Blank], [Command(CheckSat())]);
  }

  lemma AssertedFive(a: seq<Piece>, b: seq<Piece>, c: seq<Piece>, d: seq<Piece>, e: seq<Piece>)
    requires AssertedAmong(a) == AssertedAmong(b) == AssertedAmong(c) == AssertedAmong(e) == []
    ensures AssertedAmong(a + b + c + d + e) == AssertedAmong(d)
  {
    AssertedPieces(a, b);
    AssertedPieces(a + b, c);
    AssertedPieces(a + b + c, d);
    AssertedPieces(a + b + c + d, e);
  }

  lemma TwoPieces(p: Piece)
    ensures AssertedAmong([p, Blank]) == AssertedAmong([p])
  {
    assert [p, Blank] == [p] + [Blank];
    AssertedPieces([p], [Blank]);
    AssertedOne(Blank);
  }

  // ================================================================ the texts mean what was translated

  /** The solver reads the text, and what it reads as asserted is satisfiable. */
  ghost predicate TextSatisfiable(letters: char -> bool, text: string) {
    && WellRead(text)
    && exists cs :: SolverCommands(letters, text) == LexemeLists(cs) && ScriptSatisfiable(AssertedIn(cs))
  }

  lemma ReadDecides(letters: char -> bool, ps: seq<Piece>)
    requires AllReadable(letters, ps) && ListsOnly(ps)
    ensures TextSatisfiable(letters, PiecesText(ps)) <==> ScriptSatisfiable(AssertedAmong(ps))
  {
    PiecesReadBackIff(letters, ps);
    if TextSatisfiable(letters, PiecesText(ps)) {
      var cs :| SolverCommands(letters, PiecesText(ps)) == LexemeLists(cs) && ScriptSatisfiable(AssertedIn(cs));
      LexemeListsDecide(cs, CommandsAmong(ps));
    }
  }

  /** The text the program hands to the solver for a CNF reads back as the commands meant, and is satisfiable
      exactly when the CNF is. */
  lemma CnfTextSatisfiableIff(letters: char -> bool, x: Cnf)
    requires ClausesInRange(x.clauses)
    ensures SolverCommands(letters, CnfScript(x)) == LexemeLists(CommandsAmong(CnfPieces(x)))
    ensures TextSatisfiable(letters, CnfScript(x)) <==> CnfSatisfiable(x.clauses)
  {
    CnfPiecesText(x);
    CnfReadable(letters, x);
    PiecesReadBackIff(letters, CnfPieces(x));
    ReadDecides(letters, CnfPieces(x));
    CnfAsserted(x);
    ScriptSatisfiableIff(x.clauses);
  }

  /** The text for a QBF has the solver's tokens that were meant exactly when every comment is one line; then it
      is satisfiable exactly when the formula, its unlisted variables existential outermost, is true. */
  lemma QCnfTextSatisfiableIff(letters: char -> bool, x: QCnf, a: Assignment)
    requires AllDeclared(x.clauses, x.numVars) && ClausesInRange(x.clauses) && BlocksInRange(x.blocks)
    ensures Refined(letters, L.Tokens(QCnfScript(x))) == PiecesLexemes(QCnfPieces(x))
       <==> forall c :: c in x.comments ==> L.OneLine(c)
    ensures (forall c :: c in x.comments ==> L.OneLine(c)) ==>
              (TextSatisfiable(letters, QCnfScript(x))
               <==> Qbf(a, [Block(false, Unlisted(x.blocks, x.numVars))] + x.blocks, x.clauses))
  {
    QCnfPiecesText(x);
    QCnfReadableIff(letters, x);
    PiecesReadBackIff(letters, QCnfPieces(x));
    QCnfAsserted(x);
    QScriptSatisfiableIff(x, a);
    if forall c :: c in x.comments ==> L.OneLine(c) {
      ReadDecides(letters, QCnfPieces(x));
    }
  }

  /** What was parsed has single-line comments, so its script reads back. */
  lemma ParsedScriptReads(letters: char -> bool, text: string)
    requires Parsed(true, text).Ok?
    ensures var x := Parsed(true, text).value;
            Refined(letters, L.Tokens(QCnfScript(x))) == PiecesLexemes(QCnfPieces(x))
  {
    var x := Parsed(true, text).value;
    ParsedIsClean(true, text);
    QCnfPiecesText(x);
    QCnfReadableIff(letters, x);
    forall c | c in x.comments
      ensures L.OneLine(c)
    {
      var i :| 0 <= i < |x.comments| && x.comments[i] == c;
    }
    PiecesReadBackIff(letters, QCnfPieces(x));
  }
}
