/** Names the solver claims: three problems it reads otherwise (tptp.rs:1219-1342). */
module TptpClaimed {
  import opened SmtLexer
  import opened SmtSymbols
  import opened SmtLib
  import opened SexpTokens
  import opened TptpSyntax
  import opened FirstOrder
  import opened SmtMeaning
  import opened TptpSmt
  import opened TptpProblem
  import opened TptpMeaning
  import opened SmtPieces
  import opened TptpText
  import opened TptpReading
  import opened TptpSorts
  import opened TptpStatus

  // ================================================================ one conjecture

  predicate IsGoalOnly(p: Problem, f: Formula) {
    && p.comments == [] && |p.statements| == 1 && OneLine(p.statements[0].name)
    && p.statements[0].role == Conjecture && p.statements[0].formula == f
  }

  lemma GoalOnly(p: Problem, f: Formula)
    requires IsGoalOnly(p, f)
    ensures FormulasOf(p.statements) == [f] && SingleGoal(p) && HasConjecture(p)
    ensures VocabularyOf(p)
         == Vocabulary(NamesOf(PredicateUses(f)), NamesOf(FunctionUses(f)), AllVars(f), Occurrences(f))
  {
    GoalFound(p.statements, 0);
    AllOfOne(FormulasOf(p.statements));
  }

  lemma GoalOnlyPlain(letters: char -> bool, p: Problem, f: Formula)
    requires IsGoalOnly(p, f) && AllSymbols(letters, FormulaSexp(f))
    ensures PlainProblem(letters, p)
  {
    GoalOnly(p, f);
    FormulaPlain(letters, f);
    assert [f][1..] == [];
    MembersPlain(letters, [f]);
  }

  /** Whatever the declared symbols are, the theories make the formula true. */
  ghost predicate AlwaysTrue<D(!new)>(theories: Structure<D>, preds: set<string>, f: Formula) {
    forall m: Structure<D> :: EvalBool(preds, Over(theories, m), map[], FormulaSexp(f))
  }

  /** The negated conjecture is all the solver reads as asserted. */
  lemma GoalOnlyFalse<D(!new)>(letters: char -> bool, theories: Structure<D>, p: Problem, f: Formula, text: string)
    requires IsGoalOnly(p, f) && IsTextFor(p, text) && PlainProblem(letters, p)
    requires AlwaysTrue(theories, NamesOf(PredicateUses(f)), f)
    ensures !TextSatisfiable(letters, theories, text)
  {
    var s :| IsScriptOf(p, s) && text == ScriptText(p, s);
    TextMeansScript(letters, theories, p, s);
    DeclaredAreUsed(p, s);
    GoalOnly(p, f);
    AssertionAt(p.statements, s.assertions, 0);
    NeverTrue(theories, s, f);
  }

  lemma NeverTrue<D(!new)>(theories: Structure<D>, s: Script, f: Formula)
    requires |s.assertions| == 1 && s.assertions[0] == App("not", [FormulaSexp(f)])
    requires AlwaysTrue(theories, DeclaredPredicates(s), f)
    ensures !Satisfiable(theories, s)
  {
    forall m: Structure<D>
      ensures !ScriptTrue(Over(theories, m), s)
    {
      NotMeaning(DeclaredPredicates(s), Over(theories, m), FormulaSexp(f));
    }
  }

  /** A conjecture that only the theories make true: a solver that has them is right to answer unsat, and
      "Theorem" is reported. */
  lemma TheoriesMakeTheorem<D(!new)>(letters: char -> bool, theories: Structure<D>, p: Problem, f: Formula,
                                     text: string)
    requires IsGoalOnly(p, f) && IsTextFor(p, text) && AllSymbols(letters, FormulaSexp(f))
    requires PredicateUses(f) == {} && NamesOf(FunctionUses(f)) !! AllVars(f) && AlwaysTrue(theories, {}, f)
    ensures PlainProblem(letters, p) && Separate(VocabularyOf(p)) && SingleGoal(p)
    ensures !TextSatisfiable(letters, theories, text) && RightAnswer(letters, theories, text, "unsat")
    ensures StatusOf("unsat", HasConjecture(p)) == Theorem
  {
    GoalOnlyPlain(letters, p, f);
    GoalOnly(p, f);
    assert NamesOf({}) == {};
    GoalOnlyFalse(letters, theories, p, f, text);
    UnsatIsUnsat();
  }

  lemma {:induction false} ClaimedAt(words: seq<string>, i: nat)
    requires i < |words|
    ensures Among(words, words[i])
  {
    AmongIff(words, words[i], |words|);
  }

  // ================================================================ arrays

  /** select(store(a,i,v),i) = v */
  function ReadOverWrite(): Formula {
    Equality(Function("select", [Function("store", [Constant("a"), Constant("i"), Constant("v")]), Constant("i")]),
             Constant("v"))
  }

  function Stored(): Sexp { App("store", [Sym("a"), Sym("i"), Sym("v")]) }

  lemma ReadOverWriteText()
    ensures FormulaSexp(ReadOverWrite()) == App("=", [App("select", [Stored(), Sym("i")]), Sym("v")])
  {
    var a, i, v := Constant("a"), Constant("i"), Constant("v");
    assert [a, i, v][1..] == [i, v] && [i, v][1..] == [v] && [v][1..] == [];
    assert TermSexps([v]) == [Sym("v")] + [] == [Sym("v")];
    assert TermSexps([i, v]) == [Sym("i")] + [Sym("v")] == [Sym("i"), Sym("v")];
    assert TermSexps([a, i, v]) == [Sym("a")] + [Sym("i"), Sym("v")] == [Sym("a"), Sym("i"), Sym("v")];
    var stored := Function("store", [a, i, v]);
    assert [stored, i][1..] == [i] && [i][1..] == [];
    assert TermSexps([i]) == [Sym("i")] + [] == [Sym("i")];
    assert TermSexps([stored, i]) == [Stored()] + [Sym("i")] == [Stored(), Sym("i")];
  }

  /** What the theory of arrays says of select and store. */
  ghost predicate Arrays<D(!new)>(theories: Structure<D>) {
    forall a: D, i: D, v: D :: theories.func("select", [theories.func("store", [a, i, v]), i]) == v
  }

  lemma ArraysClaimed()
    ensures Claimed("select", 2) && Claimed("store", 3)
  {
    assert ARRAY_HEADS[0] == "select" && ARRAY_HEADS[1] == "store";
    ClaimedAt(ARRAY_HEADS, 0);
    ClaimedAt(ARRAY_HEADS, 1);
  }

  lemma EvalTwo<D(!new)>(m: Structure<D>, env: map<string, D>, head: string, a: Sexp, b: Sexp)
    ensures EvalTerm(m, env, App(head, [a, b])) == m.func(head, [EvalTerm(m, env, a), EvalTerm(m, env, b)])
  {
    AppShape(head, [a, b]);
    assert [a, b][1..] == [b] && [b][1..] == [];
    var x, y := EvalTerm(m, env, a), EvalTerm(m, env, b);
    assert EvalTerms(m, env, [b]) == [y] + [] == [y];
    assert EvalTerms(m, env, [a, b]) == [x] + [y] == [x, y];
  }

  lemma EvalThree<D(!new)>(m: Structure<D>, env: map<string, D>, head: string, a: Sexp, b: Sexp, c: Sexp)
    ensures EvalTerm(m, env, App(head, [a, b, c]))
         == m.func(head, [EvalTerm(m, env, a), EvalTerm(m, env, b), EvalTerm(m, env, c)])
  {
    AppShape(head, [a, b, c]);
    assert [a, b, c][1..] == [b, c] && [b, c][1..] == [c] && [c][1..] == [];
    var x, y, z := EvalTerm(m, env, a), EvalTerm(m, env, b), EvalTerm(m, env, c);
    assert EvalTerms(m, env, [c]) == [z] + [] == [z];
    assert EvalTerms(m, env, [b, c]) == [y] + [z] == [y, z];
    assert EvalTerms(m, env, [a, b, c]) == [x] + [y, z] == [x, y, z];
  }

  lemma ReadOverWriteHolds<D(!new)>(theories: Structure<D>, m: Structure<D>)
    requires Arrays(theories)
    ensures EvalTerm(Over(theories, m), map[], App("select", [Stored(), Sym("i")]))
         == EvalTerm(Over(theories, m), map[], Sym("v"))
  {
    var over := Over(theories, m);
    ArraysClaimed();
    EvalTwo(over, map[], "select", Stored(), Sym("i"));
    EvalThree(over, map[], "store", Sym("a"), Sym("i"), Sym("v"));
  }

  lemma SelectIsTerm()
    ensures !IsBool({}, {}, App("select", [Stored(), Sym("i")]))
  {
    AppShape("select", [Stored(), Sym("i")]);
  }

  lemma ReadOverWriteTrue<D(!new)>(theories: Structure<D>)
    requires Arrays(theories)
    ensures AlwaysTrue(theories, {}, ReadOverWrite())
  {
    ReadOverWriteText();
    SelectIsTerm();
    var none: map<string, D> := map[];
    assert none.Keys == {};
    forall m: Structure<D>
      ensures EvalBool({}, Over(theories, m), map[], FormulaSexp(ReadOverWrite()))
    {
      ReadOverWriteHolds(theories, m);
      AppEval({}, Over(theories, m), map[], "=", [App("select", [Stored(), Sym("i")]), Sym("v")]);
    }
  }

  lemma ThreePlain(letters: char -> bool, head: string, a: string, b: string, c: string)
    requires IsSymbol(letters, head) && IsSymbol(letters, a) && IsSymbol(letters, b) && IsSymbol(letters, c)
    ensures AllSymbols(letters, App(head, [Sym(a), Sym(b), Sym(c)]))
  {
    PlainApp(letters, head, [Sym(a), Sym(b), Sym(c)]);
  }

  lemma ArrayWords(letters: char -> bool)
    ensures IsSymbol(letters, "=") && IsSymbol(letters, "select") && IsSymbol(letters, "store")
    ensures IsSymbol(letters, "a") && IsSymbol(letters, "i") && IsSymbol(letters, "v")
  {
  }

  lemma ReadOverWriteSymbols(letters: char -> bool)
    ensures AllSymbols(letters, FormulaSexp(ReadOverWrite()))
  {
    ReadOverWriteText();
    ArrayWords(letters);
    ThreePlain(letters, "store", "a", "i", "v");
    TwoPlain(letters, "select", Stored(), Sym("i"));
    TwoPlain(letters, "=", App("select", [Stored(), Sym("i")]), Sym("v"));
  }

  /** v may differ from everything the functions give. */
  lemma ReadOverWriteFails<D(!new)>(d: D, e: D, p: Problem)
    requires d != e && IsGoalOnly(p, ReadOverWrite())
    ensures !Entailed<D>(p, 0)
  {
    var m := Structure((f: string, args: seq<D>) => if f == "v" then d else e, (f: string, args: seq<D>) => true);
    var env: map<string, D> := map[];
    assert "select" != "v";
    assert TermVal(m, env, Constant("v")) == d && TermVal(m, env, ReadOverWrite().lhs) == e;
    assert !FormulaVal(m, env, ReadOverWrite());
    assert FreeVars(ReadOverWrite()) == {};
    assert !ClosureTrue(m, p.statements[0].formula);
  }

  /** The conjecture select(store(a,i,v),i) = v has plain names in one role each and is not entailed by
      nothing; but every solver with a theory of arrays is right to answer unsat, and "Theorem" is reported. */
  lemma ArraysMakeTheorem<D(!new)>(d: D, e: D, letters: char -> bool, theories: Structure<D>, p: Problem, text: string)
    requires d != e && IsGoalOnly(p, ReadOverWrite()) && IsTextFor(p, text) && Arrays(theories)
    ensures PlainProblem(letters, p) && Separate(VocabularyOf(p)) && SingleGoal(p) && !Entailed<D>(p, 0)
    ensures !TextSatisfiable(letters, theories, text) && RightAnswer(letters, theories, text, "unsat")
    ensures StatusOf("unsat", HasConjecture(p)) == Theorem
  {
    ReadOverWriteSymbols(letters);
    ReadOverWriteUses();
    ReadOverWriteTrue(theories);
    ReadOverWriteFails(d, e, p);
    TheoriesMakeTheorem(letters, theories, p, ReadOverWrite(), text);
  }

  lemma ReadOverWriteUses()
    ensures PredicateUses(ReadOverWrite()) == {} && AllVars(ReadOverWrite()) == {}
  {
  }

  // ================================================================ rounding modes

  /** Two different symbols that the solver takes for constants of its own. */
  predicate TwoConstants(letters: char -> bool, x: string, y: string) {
    && x != y && IsSymbol(letters, x) && IsSymbol(letters, y)
    && Among(THEORY_CONSTANTS, x) && Among(THEORY_CONSTANTS, y) && x != "true" && x != "false"
  }

  lemma RoundingModes(letters: char -> bool)
    ensures TwoConstants(letters, "RNE", "RNA")
  {
    assert THEORY_CONSTANTS[3] == "RNE" && THEORY_CONSTANTS[5] == "RNA";
    ClaimedAt(THEORY_CONSTANTS, 3);
    ClaimedAt(THEORY_CONSTANTS, 5);
    assert "RNE"[2] != "RNA"[2] && "RNE"[0] == 'R' && "true"[0] == 't' && "false"[0] == 'f';
  }

  /** ![x,y]: x != y */
  function Differ(x: string, y: string): Formula { Forall([x, y], Inequality(Variable(x), Variable(y))) }

  function Apart(x: string, y: string): Sexp { App("not", [App("=", [Sym(x), Sym(y)])]) }

  lemma DifferText(x: string, y: string)
    ensures FormulaSexp(Differ(x, y)) == Quantified("forall", [x, y], Apart(x, y))
  {
  }

  lemma DifferSymbols(letters: char -> bool, x: string, y: string)
    requires IsSymbol(letters, x) && IsSymbol(letters, y)
    ensures AllSymbols(letters, FormulaSexp(Differ(x, y)))
  {
    PlainWords(letters);
    DifferText(x, y);
    TwoPlain(letters, "=", Sym(x), Sym(y));
    NotPlain(letters, App("=", [Sym(x), Sym(y)]));
    QuantifiedPlain(letters, "forall", [x, y], Apart(x, y));
  }

  lemma ConstantsApart<D(!new)>(letters: char -> bool, over: Structure<D>, env: map<string, D>, x: string, y: string)
    requires TwoConstants(letters, x, y) && over.func(x, []) != over.func(y, [])
    ensures EvalBool({}, over, env, Apart(x, y))
  {
    AppEval({}, over, env, "=", [Sym(x), Sym(y)]);
    NotEval({}, over, env, App("=", [Sym(x), Sym(y)]));
  }

  lemma TrueForAll<D(!new)>(m: Structure<D>, vars: seq<string>, body: Sexp)
    requires forall env: map<string, D> :: EvalBool({}, m, env, body)
    ensures EvalBool({}, m, map[], Quantified("forall", vars, body))
  {
    QuantifiedMeaning(Vocabulary({}, {}, {}, {}), m, map[], vars, body);
  }

  /** However the two variables are bound, the solver takes their names for its constants. */
  lemma DifferTrue<D(!new)>(letters: char -> bool, theories: Structure<D>, x: string, y: string)
    requires TwoConstants(letters, x, y) && theories.func(x, []) != theories.func(y, [])
    ensures AlwaysTrue(theories, {}, Differ(x, y))
  {
    DifferText(x, y);
    forall m: Structure<D>
      ensures EvalBool({}, Over(theories, m), map[], FormulaSexp(Differ(x, y)))
    {
      forall env: map<string, D>
        ensures EvalBool({}, Over(theories, m), env, Apart(x, y))
      {
        ConstantsApart(letters, Over(theories, m), env, x, y);
      }
      TrueForAll(Over(theories, m), [x, y], Apart(x, y));
    }
  }

  lemma VariablesMayAgree<D(!new)>(m: Structure<D>, d: D, x: string, y: string)
    requires x != y
    ensures !FormulaVal(m, map[], Differ(x, y))
  {
    var env: map<string, D> := map[];
    var ds := [d, d];
    assert ds[1..] == [d] && [x, y][1..] == [y] && [y][1..] == [] && [d][1..] == [];
    assert Bind(env[x := d], [y], [d]) == env[x := d][y := d];
    assert Bind(env, [x, y], ds) == env[x := d][y := d];
    assert !FormulaVal(m, Bind(env, [x, y], ds), Inequality(Variable(x), Variable(y)));
    assert !ForallVal(m, env, [x, y], Inequality(Variable(x), Variable(y)));
  }

  lemma DifferNotEntailed<D(!new)>(d: D, p: Problem, x: string, y: string)
    requires IsGoalOnly(p, Differ(x, y)) && x != y
    ensures !Entailed<D>(p, 0)
  {
    var m := Structure((f: string, args: seq<D>) => d, (f: string, args: seq<D>) => true);
    var env: map<string, D> := map[];
    VariablesMayAgree(m, d, x, y);
    assert FreeVars(Differ(x, y)) <= env.Keys;
    assert !ClosureTrue(m, p.statements[0].formula);
  }

  /** Binding such names is no protection: ![RNE,RNA]: RNE != RNA is false, and "Theorem" is reported. */
  lemma ConstantsMakeTheorem<D(!new)>(d: D, letters: char -> bool, theories: Structure<D>, x: string, y: string,
                                      p: Problem, text: string)
    requires TwoConstants(letters, x, y) && theories.func(x, []) != theories.func(y, [])
    requires IsGoalOnly(p, Differ(x, y)) && IsTextFor(p, text)
    ensures PlainProblem(letters, p) && Separate(VocabularyOf(p)) && SingleGoal(p) && !Entailed<D>(p, 0)
    ensures !TextSatisfiable(letters, theories, text) && RightAnswer(letters, theories, text, "unsat")
    ensures StatusOf("unsat", HasConjecture(p)) == Theorem
  {
    DifferSymbols(letters, x, y);
    DifferUses(x, y);
    DifferTrue(letters, theories, x, y);
    DifferNotEntailed(d, p, x, y);
    TheoriesMakeTheorem(letters, theories, p, Differ(x, y), text);
  }

  lemma DifferUses(x: string, y: string)
    ensures PredicateUses(Differ(x, y)) == {} && NamesOf(FunctionUses(Differ(x, y))) == {}
  {
    assert FunctionUses(Differ(x, y)) == {} && NamesOf({}) == {};
  }

  // ================================================================ numbers

  /** q(n) */
  function Applied(q: string, n: string): Formula { Formula.Atom(q, [Constant(n)]) }

  /** With a numeral in the place of the name. */
  function NumberDeclared(n: string): Sexp { List([Sym("declare-const"), Num(n), Sym("U")]) }

  lemma NumberDeclaredText(n: string)
    ensures Print(Declaration((n, 0), "U")) == Print(NumberDeclared(n))
    ensures LexemesOf(NumberDeclared(n)) == [LeftParen, Symbol("declare-const"), Numeral(n), Symbol("U"), RightParen]
  {
    var a, b, c, d := Sym("declare-const"), Sym(n), Num(n), Sym("U");
    PrintThree(a, b, d);
    PrintThree(a, c, d);
    assert [a, c, d][1..] == [c, d] && [c, d][1..] == [d] && [d][1..] == [];
    assert LexemesOfAll([d]) == [Symbol("U")] + [] == [Symbol("U")];
    assert LexemesOfAll([c, d]) == [Numeral(n)] + [Symbol("U")] == [Numeral(n), Symbol("U")];
    assert LexemesOfAll([a, c, d]) == [Symbol("declare-const")] + [Numeral(n), Symbol("U")];
    assert [LeftParen] + ([Symbol("declare-const")] + [Numeral(n), Symbol("U")]) + [RightParen]
        == [LeftParen, Symbol("declare-const"), Numeral(n), Symbol("U"), RightParen];
    assert Declaration((n, 0), "U") == List([a, b, d]);
  }

  lemma NumberDeclaredSymbols(letters: char -> bool, n: string)
    requires IsNumeral(n)
    ensures AllSymbols(letters, NumberDeclared(n))
  {
    assert IsSymbol(letters, "declare-const") && IsSymbol(letters, "U");
  }

  /** A constant that is a number, as in p(1), is no symbol: what is meant as its declaration has a numeral
      where the solver's parser asks for a symbol, and the text does not read back as what was meant. */
  lemma NumberNotDeclared(letters: char -> bool, q: string, n: string, p: Problem, s: Script)
    requires IsNumeral(n) && q != n && IsGoalOnly(p, Applied(q, n)) && IsScriptOf(p, s)
    ensures Refined(letters, Tokens(Print(Declaration((n, 0), "U"))))
         == [LeftParen, Symbol("declare-const"), Numeral(n), Symbol("U"), RightParen]
    ensures Separate(VocabularyOf(p)) && SingleGoal(p) && !PlainProblem(letters, p)
    ensures Refined(letters, Tokens(ScriptText(p, s))) != PiecesLexemes(Pieces(p, s))
  {
    NumberDeclaredText(n);
    NumberDeclaredSymbols(letters, n);
    ReadsBackIffSymbols(letters, NumberDeclared(n));
    NumberNotPlain(letters, q, n, p);
    TextReadsBackIff(letters, p, s);
  }

  lemma NamesOfOne(n: string, k: nat)
    ensures NamesOf({(n, k)}) == {n}
  {
    var uses := {(n, k)};
    assert (n, k) in uses && (n, k).0 == n;
  }

  lemma NumberNotPlain(letters: char -> bool, q: string, n: string, p: Problem)
    requires IsNumeral(n) && q != n && IsGoalOnly(p, Applied(q, n))
    ensures Separate(VocabularyOf(p)) && SingleGoal(p) && !PlainProblem(letters, p)
  {
    var f := Applied(q, n);
    GoalOnly(p, f);
    assert [Constant(n)][1..] == [];
    assert TermsUses([Constant(n)]) == {(n, 0)} + {} && TermsVars([Constant(n)]) == {};
    NamesOfOne(n, 0);
    NamesOfOne(q, 1);
    assert FunctionUsesOfAll([f]) == FunctionUses(f) + FunctionUsesOfAll([f][1..]);
    assert (n, 0) in FunctionUsesOfAll([f]) && IsDigit(n[0]) && !IsSymbol(letters, (n, 0).0);
  }
}
