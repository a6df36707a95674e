/** What the solver makes of the emitted text, and when it is what was meant (tptp.rs:1200-1356). */
module TptpReading {
  import opened SmtLexer
  import opened SmtReader
  import opened SmtSymbols
  import opened SmtLib
  import opened SexpTokens
  import opened SmtPieces
  import S = TptpSyntax
  import opened FirstOrder
  import opened SmtMeaning
  import opened TptpSmt
  import opened TptpProblem
  import opened TptpMeaning
  import opened TptpText

  // ================================================================ plain formulas

  ghost predicate PlainNames(letters: char -> bool, names: set<string>) {
    forall n :: n in names ==> IsSymbol(letters, n)
  }

  ghost predicate PlainUses(letters: char -> bool, uses: set<S.Use>) {
    forall u :: u in uses ==> IsSymbol(letters, u.0)
  }

  /** Every predicate, function and variable name of the formula is plain. */
  ghost predicate PlainSymbols(letters: char -> bool, f: S.Formula) {
    PlainUses(letters, S.PredicateUses(f)) && PlainUses(letters, S.FunctionUses(f)) && PlainNames(letters, S.AllVars(f))
  }

  ghost predicate PlainSymbolsOfAll(letters: char -> bool, fs: seq<S.Formula>) {
    PlainUses(letters, S.PredicateUsesOfAll(fs)) && PlainUses(letters, S.FunctionUsesOfAll(fs))
      && PlainNames(letters, S.AllVarsOfAll(fs))
  }

  predicate AllPlainItems(letters: char -> bool, items: seq<Sexp>) {
    forall i :: 0 <= i < |items| ==> AllSymbols(letters, items[i])
  }

  lemma PlainApp(letters: char -> bool, head: string, args: seq<Sexp>)
    ensures AllSymbols(letters, App(head, args)) <==> IsSymbol(letters, head) && AllPlainItems(letters, args)
  {
    var items := [Sym(head)] + args;
    assert items[0] == Sym(head);
    assert forall i :: 0 <= i < |args| ==> items[i + 1] == args[i];
  }

  lemma PlainPair(letters: char -> bool, a: Sexp, b: Sexp)
    ensures AllPlainItems(letters, [a]) <==> AllSymbols(letters, a)
    ensures AllPlainItems(letters, [a, b]) <==> AllSymbols(letters, a) && AllSymbols(letters, b)
  {
    assert [a][0] == a && [a, b][0] == a && [a, b][1] == b;
  }

  lemma PlainWords(letters: char -> bool)
    ensures IsSymbol(letters, "not") && IsSymbol(letters, "and") && IsSymbol(letters, "or") && IsSymbol(letters, "=>")
    ensures IsSymbol(letters, "=")
    ensures IsSymbol(letters, "forall") && IsSymbol(letters, "exists") && IsSymbol(letters, "true")
      && IsSymbol(letters, "false") && IsSymbol(letters, "U")
  {
  }

  lemma {:induction false} TermPlain(letters: char -> bool, t: S.Term)
    ensures AllSymbols(letters, TermSexp(t))
       <==> PlainUses(letters, S.TermUses(t)) && PlainNames(letters, S.TermVars(t))
  {
    match t
    case Variable(x) => assert PlainNames(letters, {x}) <==> IsSymbol(letters, x);
    case Constant(c) => UsePlain(letters, c, 0, {});
    case Function(f, args) =>
      TermsPlain(letters, args);
      UsePlain(letters, f, |args|, S.TermsUses(args));
      if args != [] { PlainApp(letters, f, TermSexps(args)); }
  }

  lemma UsePlain(letters: char -> bool, n: string, k: nat, more: set<S.Use>)
    ensures PlainUses(letters, {(n, k)}) <==> IsSymbol(letters, n)
    ensures PlainUses(letters, {(n, k)} + more) <==> IsSymbol(letters, n) && PlainUses(letters, more)
  {
    assert (n, k) in {(n, k)} && (n, k) in {(n, k)} + more && (n, k).0 == n;
    assert forall u :: u in more ==> u in {(n, k)} + more;
  }

  lemma UnionPlain(letters: char -> bool, a: set<S.Use>, b: set<S.Use>, x: set<string>, y: set<string>)
    ensures PlainUses(letters, a + b) <==> PlainUses(letters, a) && PlainUses(letters, b)
    ensures PlainNames(letters, x + y) <==> PlainNames(letters, x) && PlainNames(letters, y)
  {
    assert forall u :: u in a || u in b <==> u in a + b;
    assert forall n :: n in x || n in y <==> n in x + y;
  }

  lemma {:induction false} TermsPlain(letters: char -> bool, ts: seq<S.Term>)
    ensures AllPlainItems(letters, TermSexps(ts))
       <==> PlainUses(letters, S.TermsUses(ts)) && PlainNames(letters, S.TermsVars(ts))
  {
    if ts != [] {
      TermPlain(letters, ts[0]);
      TermsPlain(letters, ts[1..]);
      UnionPlain(letters, S.TermUses(ts[0]), S.TermsUses(ts[1..]), S.TermVars(ts[0]), S.TermsVars(ts[1..]));
      ConsPlain(letters, TermSexp(ts[0]), TermSexps(ts[1..]));
    }
  }

  lemma ConsPlain(letters: char -> bool, a: Sexp, rest: seq<Sexp>)
    ensures AllPlainItems(letters, [a] + rest) <==> AllSymbols(letters, a) && AllPlainItems(letters, rest)
  {
    var all := [a] + rest;
    assert all[0] == a && forall i :: 0 <= i < |rest| ==> all[i + 1] == rest[i];
  }

  lemma BinderPlain(letters: char -> bool, x: string)
    ensures AllSymbols(letters, Binder(x)) <==> IsSymbol(letters, x)
  {
    PlainWords(letters);
    PlainPair(letters, Sym(x), Sym("U"));
  }

  lemma QuantifiedPlain(letters: char -> bool, head: string, xs: seq<string>, body: Sexp)
    requires IsSymbol(letters, head)
    ensures AllSymbols(letters, Quantified(head, xs, body))
       <==> PlainNames(letters, S.Names(xs)) && AllSymbols(letters, body)
  {
    var items := [Sym(head), List(Binders(xs)), body];
    assert items[0] == Sym(head) && items[1] == List(Binders(xs)) && items[2] == body;
    assert AllSymbols(letters, List(Binders(xs))) <==> PlainNames(letters, S.Names(xs)) by {
      forall i | 0 <= i < |xs|
        ensures AllSymbols(letters, Binders(xs)[i]) <==> IsSymbol(letters, xs[i])
      {
        BinderPlain(letters, xs[i]);
      }
      assert forall i :: 0 <= i < |xs| ==> xs[i] in S.Names(xs);
    }
  }

  lemma EquationPlain(letters: char -> bool, a: S.Term, b: S.Term)
    ensures AllSymbols(letters, App("=", [TermSexp(a), TermSexp(b)]))
       <==> PlainUses(letters, S.TermUses(a) + S.TermUses(b)) && PlainNames(letters, S.TermVars(a) + S.TermVars(b))
  {
    PlainWords(letters);
    TermPlain(letters, a);
    TermPlain(letters, b);
    UnionPlain(letters, S.TermUses(a), S.TermUses(b), S.TermVars(a), S.TermVars(b));
    TwoPlain(letters, "=", TermSexp(a), TermSexp(b));
  }

  lemma NotPlain(letters: char -> bool, s: Sexp)
    ensures AllSymbols(letters, App("not", [s])) <==> AllSymbols(letters, s)
  {
    PlainWords(letters);
    PlainApp(letters, "not", [s]);
    PlainPair(letters, s, s);
  }

  lemma BinaryPlain(letters: char -> bool, head: string, g: S.Formula, h: S.Formula)
    requires IsSymbol(letters, head)
    requires AllSymbols(letters, FormulaSexp(g)) <==> PlainSymbols(letters, g)
    requires AllSymbols(letters, FormulaSexp(h)) <==> PlainSymbols(letters, h)
    ensures AllSymbols(letters, App(head, [FormulaSexp(g), FormulaSexp(h)])) <==> PlainSymbols(letters, S.Implies(g, h))
    ensures AllSymbols(letters, App(head, [FormulaSexp(g), FormulaSexp(h)])) <==> PlainSymbols(letters, S.Iff(g, h))
  {
    BothPlain(letters, g, h);
    TwoPlain(letters, head, FormulaSexp(g), FormulaSexp(h));
  }

  lemma BothPlain(letters: char -> bool, g: S.Formula, h: S.Formula)
    ensures PlainSymbols(letters, S.Implies(g, h)) <==> PlainSymbols(letters, g) && PlainSymbols(letters, h)
    ensures PlainSymbols(letters, S.Iff(g, h)) <==> PlainSymbols(letters, g) && PlainSymbols(letters, h)
  {
    UnionPlain(letters, S.PredicateUses(g), S.PredicateUses(h), S.AllVars(g), S.AllVars(h));
    UnionPlain(letters, S.FunctionUses(g), S.FunctionUses(h), {}, {});
  }

  lemma TwoPlain(letters: char -> bool, head: string, a: Sexp, b: Sexp)
    requires IsSymbol(letters, head)
    ensures AllSymbols(letters, App(head, [a, b])) <==> AllSymbols(letters, a) && AllSymbols(letters, b)
  {
    PlainApp(letters, head, [a, b]);
    PlainPair(letters, a, b);
  }

  lemma AtomPlain(letters: char -> bool, p: string, args: seq<S.Term>)
    ensures AllSymbols(letters, FormulaSexp(S.Atom(p, args))) <==> PlainSymbols(letters, S.Atom(p, args))
  {
    TermsPlain(letters, args);
    UsePlain(letters, p, |args|, {});
    if args != [] { PlainApp(letters, p, TermSexps(args)); }
  }

  lemma BindingPlain(letters: char -> bool, head: string, xs: seq<string>, g: S.Formula)
    requires head == "forall" || head == "exists"
    requires AllSymbols(letters, FormulaSexp(g)) <==> PlainSymbols(letters, g)
    ensures AllSymbols(letters, Quantified(head, xs, FormulaSexp(g))) <==> PlainSymbols(letters, S.Forall(xs, g))
    ensures AllSymbols(letters, Quantified(head, xs, FormulaSexp(g))) <==> PlainSymbols(letters, S.Exists(xs, g))
  {
    PlainWords(letters);
    QuantifiedPlain(letters, head, xs, FormulaSexp(g));
    UnionPlain(letters, {}, {}, S.AllVars(g), S.Names(xs));
  }

  /** The S-expression of a formula has plain names exactly when the formula has. */
  lemma {:induction false} FormulaPlain(letters: char -> bool, f: S.Formula)
    ensures AllSymbols(letters, FormulaSexp(f)) <==> PlainSymbols(letters, f)
    decreases f, 1
  {
    match f
    case Atom(p, args) => AtomPlain(letters, p, args);
    case Equality(a, b) => EquationPlain(letters, a, b);
    case Inequality(a, b) =>
      EquationPlain(letters, a, b);
      NotPlain(letters, App("=", [TermSexp(a), TermSexp(b)]));
    case Not(g) =>
      FormulaPlain(letters, g);
      NotPlain(letters, FormulaSexp(g));
    case And(fs) => ConnectivePlain(letters, "and", "true", fs);
    case Or(fs) => ConnectivePlain(letters, "or", "false", fs);
    case Implies(g, h) =>
      FormulaPlain(letters, g);
      FormulaPlain(letters, h);
      PlainWords(letters);
      BinaryPlain(letters, "=>", g, h);
    case Iff(g, h) =>
      FormulaPlain(letters, g);
      FormulaPlain(letters, h);
      PlainWords(letters);
      BinaryPlain(letters, "=", g, h);
    case Forall(xs, g) =>
      FormulaPlain(letters, g);
      BindingPlain(letters, "forall", xs, g);
    case Exists(xs, g) =>
      FormulaPlain(letters, g);
      BindingPlain(letters, "exists", xs, g);
    case True => PlainWords(letters);
    case False => PlainWords(letters);
  }

  lemma {:induction false} ConnectivePlain(letters: char -> bool, head: string, unit: string, fs: seq<S.Formula>)
    requires (head == "and" && unit == "true") || (head == "or" && unit == "false")
    ensures AllSymbols(letters, Connective(head, unit, FormulaSexps(fs))) <==> PlainSymbolsOfAll(letters, fs)
    decreases fs, 2
  {
    PlainWords(letters);
    FormulasPlain(letters, fs);
    PlainApp(letters, head, FormulaSexps(fs));
    if |fs| == 1 {
      assert FormulaSexps(fs) == [FormulaSexp(fs[0])];
      PlainPair(letters, FormulaSexp(fs[0]), Sym(unit));
    }
  }

  lemma {:induction false} FormulasPlain(letters: char -> bool, fs: seq<S.Formula>)
    ensures AllPlainItems(letters, FormulaSexps(fs)) <==> PlainSymbolsOfAll(letters, fs)
    decreases fs, 1
  {
    if fs != [] {
      FormulaPlain(letters, fs[0]);
      FormulasPlain(letters, fs[1..]);
      UnionPlain(letters, S.PredicateUses(fs[0]), S.PredicateUsesOfAll(fs[1..]), S.AllVars(fs[0]),
        S.AllVarsOfAll(fs[1..]));
      UnionPlain(letters, S.FunctionUses(fs[0]), S.FunctionUsesOfAll(fs[1..]), {}, {});
      ConsPlain(letters, FormulaSexp(fs[0]), FormulaSexps(fs[1..]));
    }
  }

  // ================================================================ plain problems

  /** Comments and statement names of one line, and every name a simple symbol of the solver's. */
  ghost predicate PlainProblem(letters: char -> bool, p: Problem) {
    && (forall c :: c in p.comments ==> OneLine(c))
    && (forall st :: st in p.statements ==> OneLine(st.name))
    && PlainSymbolsOfAll(letters, FormulasOf(p.statements))
  }

  lemma UsPlain(letters: char -> bool, n: nat)
    ensures AllSymbols(letters, List(Us(n)))
  {
    PlainWords(letters);
    assert forall i :: 0 <= i < n ==> Us(n)[i] == Sym("U");
  }

  lemma FourPlain(letters: char -> bool, a: string, b: string, c: Sexp, d: string)
    requires IsSymbol(letters, a) && IsSymbol(letters, d) && AllSymbols(letters, c)
    ensures AllSymbols(letters, List([Sym(a), Sym(b), c, Sym(d)])) <==> IsSymbol(letters, b)
    ensures AllSymbols(letters, List([Sym(a), Sym(b), Sym(d)])) <==> IsSymbol(letters, b)
  {
    var items, fewer := [Sym(a), Sym(b), c, Sym(d)], [Sym(a), Sym(b), Sym(d)];
    assert items[1] == Sym(b) && fewer[1] == Sym(b);
  }

  lemma DeclarationReadable(letters: char -> bool, u: S.Use, sort: string)
    requires sort == "U" || sort == "Bool"
    ensures Readable(letters, Command(Declaration(u, sort))) <==> IsSymbol(letters, u.0)
  {
    assert IsSymbol(letters, "declare-const") && IsSymbol(letters, "declare-fun") && IsSymbol(letters, sort);
    UsPlain(letters, u.1);
    FourPlain(letters, "declare-const", u.0, List(Us(u.1)), sort);
    FourPlain(letters, "declare-fun", u.0, List(Us(u.1)), sort);
  }

  lemma {:induction false} DeclarationsReadable(letters: char -> bool, us: seq<S.Use>, sort: string)
    requires sort == "U" || sort == "Bool"
    ensures AllReadable(letters, DeclarePieces(us, sort)) <==> forall u :: u in us ==> IsSymbol(letters, u.0)
  {
    if us != [] {
      var init, last := us[..|us| - 1], us[|us| - 1];
      DeclarationsReadable(letters, init, sort);
      ReadableAppend(letters, DeclarePieces(init, sort), [Command(Declaration(last, sort))]);
      ReadableOne(letters, Command(Declaration(last, sort)));
      DeclarationReadable(letters, last, sort);
      assert us == init + [last];
    }
  }

  lemma {:induction false} SkolemsReadable(letters: char -> bool, xs: seq<string>)
    ensures AllReadable(letters, SkolemPieces(xs)) <==> forall x :: x in xs ==> IsSymbol(letters, x)
  {
    if xs != [] {
      var init, last := xs[..|xs| - 1], xs[|xs| - 1];
      SkolemsReadable(letters, init);
      ReadableAppend(letters, SkolemPieces(init), [Command(Declaration((last, 0), "U"))]);
      ReadableOne(letters, Command(Declaration((last, 0), "U")));
      DeclarationReadable(letters, (last, 0), "U");
      assert xs == init + [last];
    }
  }

  lemma NoteReadable(st: Statement)
    ensures OneLine(StatementNote(st)) <==> OneLine(st.name)
  {
    var a, b, c := " ", " (", ")";
    var role := RoleName(st.role);
    assert OneLine(role) && OneLine(a) && OneLine(b) && OneLine(c);
    OneLineAppend(a, st.name);
    OneLineAppend(a + st.name, b);
    OneLineAppend(a + st.name + b, role);
    OneLineAppend(a + st.name + b + role, c);
  }

  lemma AssertionReadable(letters: char -> bool, a: Sexp)
    ensures Readable(letters, Command(Assertion(a))) <==> AllSymbols(letters, a)
  {
    assert IsSymbol(letters, "assert");
    PlainPair(letters, Sym("assert"), a);
  }

  lemma ReadableThree(letters: char -> bool, a: Piece, b: Piece, c: Piece)
    ensures AllReadable(letters, [a, b, c]) <==> Readable(letters, a) && Readable(letters, b) && Readable(letters, c)
  {
    assert [a, b, c][0] == a && [a, b, c][1] == b && [a, b, c][2] == c;
  }

  lemma StatementReadable(letters: char -> bool, st: Statement, a: Sexp)
    ensures AllReadable(letters, [Note(StatementNote(st)), Command(Assertion(a)), Blank])
       <==> OneLine(st.name) && AllSymbols(letters, a)
  {
    ReadableThree(letters, Note(StatementNote(st)), Command(Assertion(a)), Blank);
    NoteReadable(st);
    AssertionReadable(letters, a);
  }

  lemma StatementsMore(letters: char -> bool, ss: seq<Statement>, n: nat, as': seq<Sexp>)
    requires |ss| == |as'| == n + 1
    ensures (forall st :: st in ss ==> OneLine(st.name))
       <==> ((forall st :: st in ss[..n] ==> OneLine(st.name)) && OneLine(ss[n].name))
    ensures (forall a :: a in as' ==> AllSymbols(letters, a))
       <==> ((forall a :: a in as'[..n] ==> AllSymbols(letters, a)) && AllSymbols(letters, as'[n]))
  {
    assert ss == ss[..n] + [ss[n]] && as' == as'[..n] + [as'[n]];
  }

  lemma {:induction false} StatementsReadable(letters: char -> bool, ss: seq<Statement>, assertions: seq<Sexp>)
    requires |ss| == |assertions|
    ensures AllReadable(letters, AssertPieces(ss, assertions))
       <==> ((forall st :: st in ss ==> OneLine(st.name)) && (forall a :: a in assertions ==> AllSymbols(letters, a)))
  {
    if ss != [] {
      var n := |ss| - 1;
      StatementsReadable(letters, ss[..n], assertions[..n]);
      ReadableAppend(letters, AssertPieces(ss[..n], assertions[..n]),
                     [Note(StatementNote(ss[n])), Command(Assertion(assertions[n])), Blank]);
      StatementReadable(letters, ss[n], assertions[n]);
      StatementsMore(letters, ss, n, assertions);
    }
  }

  lemma WordsReadable(letters: char -> bool, a: string, b: string, c: string)
    requires IsSymbol(letters, a) && IsSymbol(letters, b)
    ensures Readable(letters, Command(List([Sym(a)]))) && Readable(letters, Command(List([Sym(a), Sym(b)])))
    ensures IsNumeral(c) ==> Readable(letters, Command(List([Sym(a), Sym(b), Num(c)])))
  {
  }

  lemma FixedWords(letters: char -> bool)
    ensures IsSymbol(letters, "set-logic") && IsSymbol(letters, "UF") && IsSymbol(letters, "declare-sort")
    ensures IsSymbol(letters, "U") && IsSymbol(letters, "check-sat") && IsNumeral("0")
  {
  }

  lemma FixedNotes()
    ensures OneLine(IF_UNSAT) && OneLine(IF_SAT)
  {
  }

  lemma FixedReadable(letters: char -> bool)
    ensures Readable(letters, Command(SetLogic())) && Readable(letters, Command(DeclareSort()))
    ensures Readable(letters, Command(CheckSat()))
    ensures Readable(letters, Blank) && Readable(letters, Note(IF_UNSAT)) && Readable(letters, Note(IF_SAT))
  {
    FixedWords(letters);
    FixedNotes();
    WordsReadable(letters, "set-logic", "UF", "0");
    WordsReadable(letters, "declare-sort", "U", "0");
    WordsReadable(letters, "check-sat", "U", "0");
  }

  /** The parts of the script that come from the problem. */
  ghost predicate PlainScript(letters: char -> bool, p: Problem, s: Script) {
    && (forall c :: c in p.comments ==> OneLine(c))
    && (forall st :: st in p.statements ==> OneLine(st.name))
    && (forall u :: u in s.functions ==> IsSymbol(letters, u.0))
    && (forall x :: x in s.skolems ==> IsSymbol(letters, x))
    && (forall u :: u in s.predicates ==> IsSymbol(letters, u.0))
    && (forall a :: a in s.assertions ==> AllSymbols(letters, a))
  }

  lemma BlankReadable(letters: char -> bool, b: bool)
    ensures AllReadable(letters, BlankPieces(b))
  {
    FixedReadable(letters);
  }

  lemma PreambleReadable(letters: char -> bool, p: Problem)
    ensures AllReadable(letters, PreamblePieces(p)) <==> forall c :: c in p.comments ==> OneLine(c)
  {
    FixedReadable(letters);
    var notes, blank := NotePieces(p.comments), BlankPieces(p.comments != []);
    ReadableAppend(letters, notes, blank);
    ReadableAppend(letters, [Command(SetLogic()), Blank], notes + blank);
    ReadableAppend(letters, [Command(SetLogic()), Blank] + (notes + blank), [Command(DeclareSort()), Blank]);
    NotesReadable(letters, p.comments);
    BlankReadable(letters, p.comments != []);
    assert AllReadable(letters, [Command(SetLogic()), Blank]) && AllReadable(letters, [Command(DeclareSort()), Blank]);
  }

  lemma DeclarationPiecesReadable(letters: char -> bool, s: Script)
    ensures AllReadable(letters, DeclarationPieces(s))
       <==> ((forall u :: u in s.functions ==> IsSymbol(letters, u.0))
           && (forall x :: x in s.skolems ==> IsSymbol(letters, x))
           && (forall u :: u in s.predicates ==> IsSymbol(letters, u.0)))
  {
    var a, b, c := DeclarePieces(s.functions, "U"), SkolemPieces(s.skolems),
                   BlankPieces(s.functions != [] || s.skolems != []);
    var d, e := DeclarePieces(s.predicates, "Bool"), BlankPieces(s.predicates != []);
    DeclarationsReadable(letters, s.functions, "U");
    SkolemsReadable(letters, s.skolems);
    DeclarationsReadable(letters, s.predicates, "Bool");
    BlankReadable(letters, s.functions != [] || s.skolems != []);
    BlankReadable(letters, s.predicates != []);
    ReadableAppend(letters, a, b);
    ReadableAppend(letters, a + b, c);
    ReadableAppend(letters, a + b + c, d);
    ReadableAppend(letters, a + b + c + d, e);
  }

  lemma EpilogueReadable(letters: char -> bool, p: Problem)
    ensures AllReadable(letters, EpiloguePieces(p))
  {
    FixedReadable(letters);
  }

  lemma PiecesReadable(letters: char -> bool, p: Problem, s: Script)
    requires |s.assertions| == |p.statements|
    ensures AllReadable(letters, Pieces(p, s)) <==> PlainScript(letters, p, s)
  {
    var a, b, c, d := PreamblePieces(p), DeclarationPieces(s), AssertPieces(p.statements, s.assertions),
                      EpiloguePieces(p);
    PreambleReadable(letters, p);
    DeclarationPiecesReadable(letters, s);
    StatementsReadable(letters, p.statements, s.assertions);
    EpilogueReadable(letters, p);
    ReadableAppend(letters, a, b);
    ReadableAppend(letters, a + b, c);
    ReadableAppend(letters, a + b + c, d);
  }

  lemma {:induction false} MembersPlain(letters: char -> bool, fs: seq<S.Formula>)
    ensures PlainSymbolsOfAll(letters, fs) <==> forall i :: 0 <= i < |fs| ==> PlainSymbols(letters, fs[i])
  {
    if fs != [] {
      MembersPlain(letters, fs[1..]);
      UnionPlain(letters, S.PredicateUses(fs[0]), S.PredicateUsesOfAll(fs[1..]), S.AllVars(fs[0]),
        S.AllVarsOfAll(fs[1..]));
      UnionPlain(letters, S.FunctionUses(fs[0]), S.FunctionUsesOfAll(fs[1..]), {}, {});
      assert forall i :: 1 <= i < |fs| ==> fs[i] == fs[1..][i - 1];
      assert forall i :: 0 <= i < |fs[1..]| ==> fs[1..][i] == fs[i + 1];
    }
  }

  lemma AssertionPlain(letters: char -> bool, st: Statement, a: Sexp)
    requires IsAssertionOf(st, a)
    ensures AllSymbols(letters, a) <==> PlainSymbols(letters, st.formula)
  {
    var f := st.formula;
    FormulaPlain(letters, f);
    match st.role
    case Conjecture => NotPlain(letters, FormulaSexp(f));
    case NegatedConjecture =>
    case _ =>
      var xs :| Lists(xs, S.FreeVars(f)) && Ordered(xs) && a == ClosureSexp(xs, f);
      if xs != [] {
        PlainWords(letters);
        QuantifiedPlain(letters, "forall", xs, FormulaSexp(f));
        FreeVarsAmongAll(f);
        assert forall x :: x in S.Names(xs) ==> x in S.AllVars(f);
      }
  }

  lemma {:induction false} SkolemsAmongVars(ss: seq<Statement>)
    ensures SkolemNames(ss) <= S.AllVarsOfAll(FormulasOf(ss))
  {
    if ss != [] {
      var init, last := ss[..|ss| - 1], ss[|ss| - 1];
      SkolemsAmongVars(init);
      FreeVarsAmongAll(last.formula);
      MemberUses(FormulasOf(ss), |ss| - 1);
      forall x | x in S.AllVarsOfAll(FormulasOf(init))
        ensures x in S.AllVarsOfAll(FormulasOf(ss))
      {
        assert FormulasOf(ss)[..|ss| - 1] == FormulasOf(init);
        VarsOfPrefix(FormulasOf(ss), |ss| - 1, x);
      }
    }
  }

  lemma {:induction false} VarsOfPrefix(fs: seq<S.Formula>, n: nat, x: string)
    requires n <= |fs| && x in S.AllVarsOfAll(fs[..n])
    ensures x in S.AllVarsOfAll(fs)
  {
    if n > 0 {
      assert fs[..n][0] == fs[0] && fs[..n][1..] == fs[1..][..n - 1];
      if x !in S.AllVars(fs[0]) { VarsOfPrefix(fs[1..], n - 1, x); }
    }
  }

  /** All of it is plain exactly when the problem is. */
  lemma PlainScriptIff(letters: char -> bool, p: Problem, s: Script)
    requires IsScriptOf(p, s)
    ensures PlainScript(letters, p, s) <==> PlainProblem(letters, p)
  {
    var fs := FormulasOf(p.statements);
    MembersPlain(letters, fs);
    SkolemsAmongVars(p.statements);
    forall i | 0 <= i < |p.statements|
      ensures AllSymbols(letters, s.assertions[i]) <==> PlainSymbols(letters, fs[i])
    {
      AssertionAt(p.statements, s.assertions, i);
      AssertionPlain(letters, p.statements[i], s.assertions[i]);
    }
    if PlainProblem(letters, p) {
      forall u | u in s.functions
        ensures IsSymbol(letters, u.0)
      {
        var i :| 0 <= i < |s.functions| && s.functions[i] == u;
      }
      forall u | u in s.predicates
        ensures IsSymbol(letters, u.0)
      {
        var i :| 0 <= i < |s.predicates| && s.predicates[i] == u;
      }
    }
  }

  // ================================================================ the commands meant

  lemma {:induction false} CommandIn(ps: seq<Piece>, c: Sexp)
    ensures c in CommandsAmong(ps) <==> Command(c) in ps
  {
    if ps != [] {
      CommandIn(ps[..|ps| - 1], c);
      assert ps == ps[..|ps| - 1] + [ps[|ps| - 1]];
    }
  }

  lemma {:induction false} CommandInDeclarations(us: seq<S.Use>, sort: string, c: Sexp)
    ensures Command(c) in DeclarePieces(us, sort) <==> exists u :: u in us && c == Declaration(u, sort)
  {
    if us != [] {
      CommandInDeclarations(us[..|us| - 1], sort, c);
      assert us == us[..|us| - 1] + [us[|us| - 1]];
    }
  }

  lemma {:induction false} CommandInSkolems(xs: seq<string>, c: Sexp)
    ensures Command(c) in SkolemPieces(xs) <==> exists x :: x in xs && c == Declaration((x, 0), "U")
  {
    if xs != [] {
      CommandInSkolems(xs[..|xs| - 1], c);
      assert xs == xs[..|xs| - 1] + [xs[|xs| - 1]];
    }
  }

  lemma {:induction false} NoCommandInNotes(cs: seq<string>, c: Sexp)
    ensures Command(c) !in NotePieces(cs)
  {
    if cs != [] {
      NoCommandInNotes(cs[..|cs| - 1], c);
    }
  }

  lemma {:induction false} CommandInAsserts(ss: seq<Statement>, assertions: seq<Sexp>, c: Sexp)
    requires |ss| == |assertions|
    ensures Command(c) in AssertPieces(ss, assertions) <==> exists a :: a in assertions && c == Assertion(a)
  {
    if ss != [] {
      var n := |ss| - 1;
      CommandInAsserts(ss[..n], assertions[..n], c);
      LastAssert(AssertPieces(ss[..n], assertions[..n]), StatementNote(ss[n]), assertions[n], c);
      assert assertions == assertions[..n] + [assertions[n]];
    }
  }

  lemma LastAssert(before: seq<Piece>, note: string, a: Sexp, c: Sexp)
    ensures Command(c) in before + [Note(note), Command(Assertion(a)), Blank]
       <==> Command(c) in before || c == Assertion(a)
  {
    var three := [Note(note), Command(Assertion(a)), Blank];
    InAppend(before, three, Command(c));
    assert three[1] == Command(Assertion(a));
  }

  lemma InAppend(a: seq<Piece>, b: seq<Piece>, p: Piece)
    ensures p in a + b <==> p in a || p in b
  {
  }

  lemma CommandInEnds(p: Problem, c: Sexp)
    ensures Command(c) in PreamblePieces(p) <==> c == SetLogic() || c == DeclareSort()
    ensures Command(c) in EpiloguePieces(p) <==> c == CheckSat()
  {
    var first, notes, blank, last := [Command(SetLogic()), Blank], NotePieces(p.comments),
                                     BlankPieces(p.comments != []), [Command(DeclareSort()), Blank];
    NoCommandInNotes(p.comments, c);
    InAppend(notes, blank, Command(c));
    InAppend(first, notes + blank, Command(c));
    InAppend(first + (notes + blank), last, Command(c));
  }

  lemma CommandInMiddle(s: Script, c: Sexp)
    ensures Command(c) in DeclarationPieces(s) <==>
      (Command(c) in DeclarePieces(s.functions, "U") || Command(c) in SkolemPieces(s.skolems)
       || Command(c) in DeclarePieces(s.predicates, "Bool"))
  {
    var a, b, d := DeclarePieces(s.functions, "U"), SkolemPieces(s.skolems), DeclarePieces(s.predicates, "Bool");
    var e, g := BlankPieces(s.functions != [] || s.skolems != []), BlankPieces(s.predicates != []);
    InAppend(a, b, Command(c));
    InAppend(a + b, e, Command(c));
    InAppend(a + b + e, d, Command(c));
    InAppend(a + b + e + d, g, Command(c));
  }

  /** Every command of the script, by what it is for. */
  lemma CommandInScript(p: Problem, s: Script, c: Sexp)
    requires |s.assertions| == |p.statements|
    ensures c in CommandsAmong(Pieces(p, s)) <==>
      (c == SetLogic() || c == DeclareSort() || c == CheckSat()
       || Command(c) in DeclarePieces(s.functions, "U") || Command(c) in SkolemPieces(s.skolems)
       || Command(c) in DeclarePieces(s.predicates, "Bool")
       || Command(c) in AssertPieces(p.statements, s.assertions))
  {
    CommandIn(Pieces(p, s), c);
    CommandInEnds(p, c);
    CommandInMiddle(s, c);
    var a, b, d, e := PreamblePieces(p), DeclarationPieces(s), AssertPieces(p.statements, s.assertions),
                      EpiloguePieces(p);
    InAppend(a, b, Command(c));
    InAppend(a + b, d, Command(c));
    InAppend(a + b + d, e, Command(c));
  }

  lemma PiecesAreLists(p: Problem, s: Script)
    requires |s.assertions| == |p.statements|
    ensures ListsOnly(Pieces(p, s))
  {
    forall i | 0 <= i < |Pieces(p, s)| && Pieces(p, s)[i].Command?
      ensures Pieces(p, s)[i].sexp.List?
    {
      var c := Pieces(p, s)[i].sexp;
      CommandIn(Pieces(p, s), c);
      CommandInScript(p, s, c);
      CommandInDeclarations(s.functions, "U", c);
      CommandInSkolems(s.skolems, c);
      CommandInDeclarations(s.predicates, "Bool", c);
      CommandInAsserts(p.statements, s.assertions, c);
    }
  }

  /** The emitted text has exactly the tokens that were meant if and only if the problem is plain; and
      then the solver reads exactly the commands that were meant. */
  lemma TextReadsBackIff(letters: char -> bool, p: Problem, s: Script)
    requires IsScriptOf(p, s)
    ensures Refined(letters, Tokens(ScriptText(p, s))) == PiecesLexemes(Pieces(p, s)) <==> PlainProblem(letters, p)
    ensures PlainProblem(letters, p) ==>
              && WellRead(ScriptText(p, s))
              && SolverCommands(letters, ScriptText(p, s)) == LexemeLists(CommandsAmong(Pieces(p, s)))
  {
    ScriptIsPieces(p, s);
    PiecesReadable(letters, p, s);
    PlainScriptIff(letters, p, s);
    PiecesAreLists(p, s);
    PiecesReadBackIff(letters, Pieces(p, s));
  }

  // ================================================================ the meaning of a text

  /** What a command declares: a name, a number of arguments and the sort of the result. */
  predicate IsDeclaration(c: Sexp, sort: string) {
    && c.List? && |c.items| >= 3 && c.items[1].Sym?
    && ((|c.items| == 3 && c.items[0] == Sym("declare-const") && c.items[2] == Sym(sort))
        || (|c.items| == 4 && c.items[0] == Sym("declare-fun") && c.items[2].List? && c.items[3] == Sym(sort)))
  }

  function DeclaredUse(c: Sexp, sort: string): S.Use
    requires IsDeclaration(c, sort)
  {
    (c.items[1].name, if |c.items| == 3 then 0 else |c.items[2].items|)
  }

  function DeclaredAs(cs: seq<Sexp>, sort: string): set<S.Use> {
    set c | c in cs && IsDeclaration(c, sort) :: DeclaredUse(c, sort)
  }

  ghost function PredicatesIn(cs: seq<Sexp>): set<string> { NamesOf(DeclaredAs(cs, "Bool")) }

  ghost predicate ModelOf<D(!new)>(m: Structure<D>, cs: seq<Sexp>) {
    forall c :: c in cs && Asserts(c) ==> EvalBool(PredicatesIn(cs), m, map[], c.items[1])
  }

  /** The solver reads the text, and some interpretation over D makes every assertion it reads true; the
      names it claims mean what its theories say. */
  ghost predicate TextSatisfiable<D(!new)>(letters: char -> bool, theories: Structure<D>, text: string) {
    && WellRead(text)
    && exists cs, m: Structure<D> :: SolverCommands(letters, text) == LexemeLists(cs) && ModelOf(Over(theories, m), cs)
  }

  lemma AssertedInScript(p: Problem, s: Script, c: Sexp)
    requires |s.assertions| == |p.statements|
    ensures c in CommandsAmong(Pieces(p, s)) && Asserts(c) <==> exists a :: a in s.assertions && c == Assertion(a)
  {
    CommandInScript(p, s, c);
    CommandInDeclarations(s.functions, "U", c);
    CommandInSkolems(s.skolems, c);
    CommandInDeclarations(s.predicates, "Bool", c);
    CommandInAsserts(p.statements, s.assertions, c);
  }

  lemma DeclarationShape(u: S.Use, sort: string, other: string)
    ensures IsDeclaration(Declaration(u, sort), other) <==> sort == other
    ensures sort == other ==> DeclaredUse(Declaration(u, sort), other) == u
  {
  }

  lemma OtherShapes(a: Sexp, sort: string)
    ensures !IsDeclaration(Assertion(a), sort) && !IsDeclaration(SetLogic(), sort)
    ensures !IsDeclaration(DeclareSort(), sort) && !IsDeclaration(CheckSat(), sort)
  {
    assert "declare-sort"[8] == 's' && "declare-const"[8] == 'c';
  }

  /** Every declaration of the script. */
  lemma DeclaredInScript(p: Problem, s: Script, c: Sexp, sort: string)
    requires |s.assertions| == |p.statements|
    ensures c in CommandsAmong(Pieces(p, s)) && IsDeclaration(c, sort)
       ==> || (sort == "U" && exists u :: u in s.functions && c == Declaration(u, "U"))
           || (sort == "U" && exists x :: x in s.skolems && c == Declaration((x, 0), "U"))
           || (sort == "Bool" && exists u :: u in s.predicates && c == Declaration(u, "Bool"))
  {
    CommandInScript(p, s, c);
    OtherShapes(c, sort);
    CommandInDeclarations(s.functions, "U", c);
    CommandInSkolems(s.skolems, c);
    CommandInDeclarations(s.predicates, "Bool", c);
    CommandInAsserts(p.statements, s.assertions, c);
    if u :| u in s.functions && c == Declaration(u, "U") {
      DeclarationShape(u, "U", sort);
    } else if x :| x in s.skolems && c == Declaration((x, 0), "U") {
      DeclarationShape((x, 0), "U", sort);
    } else if u :| u in s.predicates && c == Declaration(u, "Bool") {
      DeclarationShape(u, "Bool", sort);
    } else if a :| a in s.assertions && c == Assertion(a) {
      OtherShapes(a, sort);
    }
  }

  lemma UseInScript(p: Problem, s: Script, u: S.Use, sort: string)
    requires |s.assertions| == |p.statements|
    requires || (sort == "U" && (u in s.functions || (u.0 in s.skolems && u.1 == 0)))
             || (sort == "Bool" && u in s.predicates)
    ensures u in DeclaredAs(CommandsAmong(Pieces(p, s)), sort)
  {
    var c := Declaration(u, sort);
    CommandInDeclarations(s.functions, "U", c);
    CommandInSkolems(s.skolems, c);
    CommandInDeclarations(s.predicates, "Bool", c);
    assert u == (u.0, u.1);
    CommandInScript(p, s, c);
    DeclarationShape(u, sort, sort);
    assert c in CommandsAmong(Pieces(p, s)) && IsDeclaration(c, sort) && DeclaredUse(c, sort) == u;
  }

  /** What the script declares is what it was meant to declare. */
  lemma DeclarationsInScript(p: Problem, s: Script)
    requires |s.assertions| == |p.statements|
    ensures DeclaredAs(CommandsAmong(Pieces(p, s)), "Bool") == Declared(s.predicates)
    ensures DeclaredAs(CommandsAmong(Pieces(p, s)), "U") == DeclaredFunctions(s)
  {
    var bools, us := DeclaredAs(CommandsAmong(Pieces(p, s)), "Bool"), DeclaredAs(CommandsAmong(Pieces(p, s)), "U");
    forall u
      ensures u in bools <==> u in s.predicates
    {
      if u in s.predicates { UseInScript(p, s, u, "Bool"); }
      if u in bools { DeclaredPredicate(p, s, u); }
    }
    forall u
      ensures u in us <==> u in s.functions || (u.0 in s.skolems && u.1 == 0)
    {
      if u in s.functions || (u.0 in s.skolems && u.1 == 0) { UseInScript(p, s, u, "U"); }
      if u in us { DeclaredFunction(p, s, u); }
    }
    SkolemUses(us, s);
  }

  lemma SkolemUses(us: set<S.Use>, s: Script)
    requires forall u :: u in us <==> u in s.functions || (u.0 in s.skolems && u.1 == 0)
    ensures us == DeclaredFunctions(s)
  {
    forall u: S.Use
      ensures u in us <==> u in DeclaredFunctions(s)
    {
      assert u == (u.0, u.1);
    }
  }

  lemma DeclaredPredicate(p: Problem, s: Script, u: S.Use)
    requires |s.assertions| == |p.statements| && u in DeclaredAs(CommandsAmong(Pieces(p, s)), "Bool")
    ensures u in s.predicates
  {
    var c :| c in CommandsAmong(Pieces(p, s)) && IsDeclaration(c, "Bool") && DeclaredUse(c, "Bool") == u;
    DeclaredInScript(p, s, c, "Bool");
    assert "Bool" != "U";
    var v :| v in s.predicates && c == Declaration(v, "Bool");
    DeclarationShape(v, "Bool", "Bool");
  }

  lemma DeclaredFunction(p: Problem, s: Script, u: S.Use)
    requires |s.assertions| == |p.statements| && u in DeclaredAs(CommandsAmong(Pieces(p, s)), "U")
    ensures u in s.functions || (u.0 in s.skolems && u.1 == 0)
  {
    var c :| c in CommandsAmong(Pieces(p, s)) && IsDeclaration(c, "U") && DeclaredUse(c, "U") == u;
    DeclaredInScript(p, s, c, "U");
    assert "Bool" != "U";
    if v :| v in s.functions && c == Declaration(v, "U") {
      DeclarationShape(v, "U", "U");
    } else {
      var x :| x in s.skolems && c == Declaration((x, 0), "U");
      DeclarationShape((x, 0), "U", "U");
    }
  }

  lemma PredicatesInScript(p: Problem, s: Script)
    requires |s.assertions| == |p.statements|
    ensures PredicatesIn(CommandsAmong(Pieces(p, s))) == DeclaredPredicates(s)
  {
    DeclarationsInScript(p, s);
    var uses := Declared(s.predicates);
    forall n
      ensures n in NamesOf(uses) <==> n in DeclaredPredicates(s)
    {
      if n in DeclaredPredicates(s) {
        var i :| 0 <= i < |s.predicates| && s.predicates[i].0 == n;
        assert s.predicates[i] in uses;
      }
      if n in NamesOf(uses) {
        var u :| u in uses && u.0 == n;
        var i :| 0 <= i < |s.predicates| && s.predicates[i] == u;
      }
    }
  }

  lemma ModelOfScript<D(!new)>(p: Problem, s: Script, m: Structure<D>)
    requires |s.assertions| == |p.statements|
    ensures ModelOf(m, CommandsAmong(Pieces(p, s))) <==> ScriptTrue(m, s)
  {
    var cs := CommandsAmong(Pieces(p, s));
    PredicatesInScript(p, s);
    if ModelOf(m, cs) {
      forall i | 0 <= i < |s.assertions|
        ensures EvalBool(DeclaredPredicates(s), m, map[], s.assertions[i])
      {
        var c := Assertion(s.assertions[i]);
        AssertedInScript(p, s, c);
        assert c in cs && Asserts(c) && c.items[1] == s.assertions[i];
      }
    }
    if ScriptTrue(m, s) {
      forall c | c in cs && Asserts(c)
        ensures EvalBool(PredicatesIn(cs), m, map[], c.items[1])
      {
        AssertedInScript(p, s, c);
        var a :| a in s.assertions && c == Assertion(a);
        assert c.items[1] == a;
      }
    }
  }

  /** The text of a plain problem means what the script means. */
  lemma TextMeansScript<D(!new)>(letters: char -> bool, theories: Structure<D>, p: Problem, s: Script)
    requires IsScriptOf(p, s) && PlainProblem(letters, p)
    ensures TextSatisfiable(letters, theories, ScriptText(p, s)) <==> Satisfiable(theories, s)
  {
    var text, cs := ScriptText(p, s), CommandsAmong(Pieces(p, s));
    TextReadsBackIff(letters, p, s);
    if TextSatisfiable(letters, theories, text) {
      var cs', m: Structure<D> :| SolverCommands(letters, text) == LexemeLists(cs') && ModelOf(Over(theories, m), cs');
      LexemeListsDecide(cs, cs');
      ModelOfScript(p, s, Over(theories, m));
    }
    if Satisfiable(theories, s) {
      var m: Structure<D> :| ScriptTrue(Over(theories, m), s);
      ModelOfScript(p, s, Over(theories, m));
    }
  }

  /** The text the program hands to the solver is satisfiable exactly when the problem is refutable, whatever
      the solver's theories are. */
  lemma TextPreservesMeaning<D(!new)>(letters: char -> bool, theories: Structure<D>, p: Problem, text: string)
    requires IsTextFor(p, text) && PlainProblem(letters, p) && Proper(VocabularyOf(p)) && SingleGoal(p)
    ensures TextSatisfiable(letters, theories, text) <==> Refutable<D>(p)
  {
    var s :| IsScriptOf(p, s) && text == ScriptText(p, s);
    TextMeansScript(letters, theories, p, s);
    TranslationPreservesMeaning(p, s, theories);
  }

  // ================================================================ a comment of two lines

  lemma {:induction false} GroupsGrow(r: Reading, ts: seq<Token>)
    ensures r.groups <= Read(r, ts).groups
  {
    if ts != [] {
      GroupsGrow(r, ts[..|ts| - 1]);
    }
  }

  /** What is read at the beginning is read. */
  lemma BeginningRead(letters: char -> bool, ps: seq<Piece>, rest: string)
    requires AllReadable(letters, ps) && ListsOnly(ps)
    ensures LexemeLists(CommandsAmong(ps)) <= SolverCommands(letters, PiecesText(ps) + rest)
  {
    ReadPieces(ps);
    CommandsRefined(letters, ps);
    PiecesFirst(letters, ps, rest);
    ReadFirst(PiecesTokens(ps), Tokens(PiecesText(ps) + rest));
  }

  lemma PiecesFirst(letters: char -> bool, ps: seq<Piece>, rest: string)
    requires AllReadable(letters, ps)
    ensures PiecesTokens(ps) <= Tokens(PiecesText(ps) + rest)
  {
    var l := Lex(PiecesText(ps));
    LexPieces(letters, ps);
    FeedAppend(EMPTY, PiecesText(ps), rest);
    FeedGrows(l, rest);
  }

  lemma ReadFirst(ts: seq<Token>, all: seq<Token>)
    requires ts <= all
    ensures Read(START, ts).groups <= Read(START, all).groups
  {
    assert all == ts + all[|ts|..];
    ReadAppend(START, ts, all[|ts|..]);
    GroupsGrow(Read(START, ts), all[|ts|..]);
  }

  function AssertFalse(): Sexp { Assertion(Sym("false")) }

  /** A comment of two lines, the second of which asserts falsehood. */
  predicate Injects(comment: string, first: string) {
    OneLine(first) && comment == first + "\n" + "(assert false)"
  }

  lemma AssertFalseText()
    ensures Print(AssertFalse()) == "(assert false)"
  {
    PrintTwo("assert", "false");
    assert "(" + ("assert" + " " + "false") + ")" == "(assert false)";
  }

  function Injected(first: string): seq<Piece> {
    [Command(SetLogic()), Blank] + [Note(" " + first), Command(AssertFalse())]
  }

  lemma InjectedReadable(letters: char -> bool, first: string)
    requires OneLine(first)
    ensures AllReadable(letters, Injected(first)) && ListsOnly(Injected(first))
    ensures CommandsAmong(Injected(first)) == [SetLogic(), AssertFalse()]
  {
    FixedReadable(letters);
    PlainWords(letters);
    OneLineAppend(" ", first);
    AssertionReadable(letters, Sym("false"));
    var a, b, c, d := Command(SetLogic()), Blank, Note(" " + first), Command(AssertFalse());
    assert Injected(first) == [a, b, c, d];
    assert [a, b, c, d][..3] == [a, b, c] && [a, b, c][..2] == [a, b] && [a, b][..1] == [a] && [a][..0] == [];
    assert CommandsAmong([a]) == [SetLogic()];
    assert CommandsAmong([a, b, c]) == CommandsAmong([a, b]) == [SetLogic()];
    assert [SetLogic()] + [AssertFalse()] == [SetLogic(), AssertFalse()];
  }

  lemma InjectRegroup(first: string, second: string)
    ensures "; " + (first + "\n" + second) + "\n" == (";" + (" " + first) + "\n") + (second + "\n")
  {
  }

  lemma InjectedText(comment: string, first: string)
    requires Injects(comment, first)
    ensures PiecesText(Injected(first)) == "(set-logic UF)\n\n" + ("; " + comment + "\n")
  {
    AssertFalseText();
    InjectRegroup(first, Print(AssertFalse()));
    PiecesFew(Note(" " + first), Command(AssertFalse()), Blank);
    PairLine("set-logic", "UF");
    FixedLines();
    PiecesAppend([Command(SetLogic()), Blank], [Note(" " + first), Command(AssertFalse())]);
  }

  /** However the rest of the problem is, the solver reads (assert false). */
  lemma CommentInjects<D(!new)>(letters: char -> bool, theories: Structure<D>, p: Problem, s: Script, first: string)
    requires |s.assertions| == |p.statements| && p.comments != [] && Injects(p.comments[0], first)
    ensures [LexemesOf(SetLogic()), LexemesOf(AssertFalse())] <= SolverCommands(letters, ScriptText(p, s))
    ensures !TextSatisfiable(letters, theories, ScriptText(p, s))
  {
    InjectedRead(letters, p, s, first);
    var text := ScriptText(p, s);
    if TextSatisfiable(letters, theories, text) {
      var cs, m: Structure<D> :| SolverCommands(letters, text) == LexemeLists(cs) && ModelOf(Over(theories, m), cs);
      FalseAsserted(cs, Over(theories, m));
    }
  }

  lemma InjectedRead(letters: char -> bool, p: Problem, s: Script, first: string)
    requires |s.assertions| == |p.statements| && p.comments != [] && Injects(p.comments[0], first)
    ensures [LexemesOf(SetLogic()), LexemesOf(AssertFalse())] <= SolverCommands(letters, ScriptText(p, s))
  {
    var rest := InjectedBegins(p, s, first);
    InjectedReadable(letters, first);
    BeginningTwo(letters, Injected(first), rest, SetLogic(), AssertFalse());
  }

  lemma InjectedBegins(p: Problem, s: Script, first: string) returns (rest: string)
    requires |s.assertions| == |p.statements| && p.comments != [] && Injects(p.comments[0], first)
    ensures ScriptText(p, s) == PiecesText(Injected(first)) + rest
  {
    InjectedText(p.comments[0], first);
    rest := FirstCommentText(p, s);
  }

  lemma BeginningTwo(letters: char -> bool, pieces: seq<Piece>, rest: string, a: Sexp, b: Sexp)
    requires AllReadable(letters, pieces) && ListsOnly(pieces) && CommandsAmong(pieces) == [a, b]
    ensures [LexemesOf(a), LexemesOf(b)] <= SolverCommands(letters, PiecesText(pieces) + rest)
  {
    BeginningRead(letters, pieces, rest);
    assert LexemeLists([a, b]) == [LexemesOf(a), LexemesOf(b)];
  }

  lemma FalseAsserted<D(!new)>(cs: seq<Sexp>, m: Structure<D>)
    requires [LexemesOf(SetLogic()), LexemesOf(AssertFalse())] <= LexemeLists(cs)
    ensures !ModelOf(m, cs)
  {
    assert LexemeLists(cs)[1] == LexemesOf(AssertFalse());
    assert LexemesOf(cs[1]) + [] == LexemesOf(AssertFalse()) + [];
    LexemesDecide(cs[1], AssertFalse(), [], []);
    assert cs[1] in cs && Asserts(cs[1]);
  }

  /** Logic line and first comment come first in the text. */
  lemma FirstCommentText(p: Problem, s: Script) returns (rest: string)
    requires |s.assertions| == |p.statements| && p.comments != []
    ensures ScriptText(p, s) == "(set-logic UF)\n\n" + ("; " + p.comments[0] + "\n") + rest
  {
    var more := FirstComment(p.comments);
    var logic, first := "(set-logic UF)\n\n", "; " + p.comments[0] + "\n";
    var c, d, e := DeclarationsText(s), AssertTexts(p.statements, s.assertions), EpilogueText(p);
    rest := more + "\n" + "(declare-sort U 0)\n\n" + c + d + e;
    TextRegroup(logic, first, more, "\n", "(declare-sort U 0)\n\n", c, d, e);
  }

  lemma TextRegroup(logic: string, first: string, more: string, blank: string, decl: string,
                    c: string, d: string, e: string)
    ensures (logic + ((first + more) + blank) + decl) + c + d + e == logic + first + (more + blank + decl + c + d + e)
  {
  }

  lemma {:induction false} FirstComment(cs: seq<string>) returns (more: string)
    requires cs != []
    ensures CommentTexts(cs) == ("; " + cs[0] + "\n") + more
  {
    if |cs| == 1 {
      more := "";
      assert cs[..0] == [];
    } else {
      var init := FirstComment(cs[..|cs| - 1]);
      more := init + ("; " + cs[|cs| - 1] + "\n");
    }
  }
}
