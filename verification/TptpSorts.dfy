/** Which emitted scripts are well sorted (tptp.rs:1254-1330). */
module TptpSorts {
  import opened TptpSyntax
  import opened SmtLib
  import opened TptpSmt
  import opened FirstOrder
  import opened SmtMeaning
  import opened TptpWalks
  import opened TptpProblem
  import opened TptpMeaning
  import opened SmtReader
  import opened SmtPieces
  import opened TptpText
  import opened TptpReading

  // ================================================================ declared or bound

  predicate SortedTerm(funcs: set<Use>, bound: set<string>, s: Sexp)
    decreases s
  {
    match s
    case Sym(x) => x in bound || (x, 0) in funcs
    case Num(_) => false
    case List(items) =>
      |items| >= 2 && items[0].Sym? && (items[0].name, |items| - 1) in funcs && SortedTerms(funcs, bound, items[1..])
  }

  predicate SortedTerms(funcs: set<Use>, bound: set<string>, ss: seq<Sexp>)
    decreases ss
  {
    ss == [] || (SortedTerm(funcs, bound, ss[0]) && SortedTerms(funcs, bound, ss[1..]))
  }

  /** s is a formula over the declared symbols: every symbol in it is bound, declared with that
      many arguments, or a connective applied to operands of the right sorts. */
  predicate SortedBool(preds: set<Use>, funcs: set<Use>, bound: set<string>, s: Sexp)
    decreases s, 0
  {
    match s
    case Sym(x) => x == "true" || x == "false" || (x !in bound && (x, 0) in preds)
    case Num(_) => false
    case List(items) => |items| >= 2 && items[0].Sym? && SortedApp(preds, funcs, bound, items[0].name, items[1..])
  }

  predicate SortedApp(preds: set<Use>, funcs: set<Use>, bound: set<string>, head: string, args: seq<Sexp>)
    decreases args, 1
  {
    if head == "not" then |args| == 1 && SortedBool(preds, funcs, bound, args[0])
    else if head == "and" || head == "or" then SortedBools(preds, funcs, bound, args)
    else if head == "=>" then
      |args| == 2 && SortedBool(preds, funcs, bound, args[0]) && SortedBool(preds, funcs, bound, args[1])
    else if head == "=" then
      && |args| == 2
      && ((SortedBool(preds, funcs, bound, args[0]) && SortedBool(preds, funcs, bound, args[1]))
          || (SortedTerm(funcs, bound, args[0]) && SortedTerm(funcs, bound, args[1])))
    else if head == "forall" || head == "exists" then
      && |args| == 2 && args[0].List?
      && args[0].items == Binders(BinderNames(args[0].items))
      && SortedBool(preds, funcs, bound + Names(BinderNames(args[0].items)), args[1])
    else (head, |args|) in preds && SortedTerms(funcs, bound, args)
  }

  predicate SortedBools(preds: set<Use>, funcs: set<Use>, bound: set<string>, ss: seq<Sexp>)
    decreases ss, 0
  {
    ss == [] || (SortedBool(preds, funcs, bound, ss[0]) && SortedBools(preds, funcs, bound, ss[1..]))
  }

  ghost predicate CoversVars(vars: set<string>, bound: set<string>, funcs: set<Use>) {
    forall x :: x in vars ==> x in bound || (x, 0) in funcs
  }

  /** Which names may be declared: predicates of the vocabulary as predicates, its functions and variables
      as functions, and its variables may be bound. */
  ghost predicate Fits(v: Vocabulary, preds: set<Use>, funcs: set<Use>, bound: set<string>) {
    && NamesOf(preds) <= v.preds && bound <= v.vars && Unclaimed(funcs)
    && forall u :: u in funcs ==> u.0 in v.funcs || u.0 in v.vars
  }

  lemma {:induction false} TermSortedIff(v: Vocabulary, preds: set<Use>, funcs: set<Use>, bound: set<string>, t: Term)
    requires Proper(v) && Fits(v, preds, funcs, bound) && TermWithin(v, t)
    ensures SortedTerm(funcs, bound, TermSexp(t)) <==> TermUses(t) <= funcs && CoversVars(TermVars(t), bound, funcs)
  {
    match t
    case Variable(x) =>
    case Constant(c) => NameUsed(TermUses(t), c, 0);
    case Function(f, args) =>
      NameUsed(TermUses(t), f, |args|);
      NamesOfUnion({(f, |args|)}, TermsUses(args));
      TermsSortedIff(v, preds, funcs, bound, args);
      if args != [] { AppShape(f, TermSexps(args)); }
  }

  lemma {:induction false} TermsSortedIff(v: Vocabulary, preds: set<Use>, funcs: set<Use>, bound: set<string>,
                                          ts: seq<Term>)
    requires Proper(v) && Fits(v, preds, funcs, bound) && TermsWithin(v, ts)
    ensures SortedTerms(funcs, bound, TermSexps(ts))
       <==> TermsUses(ts) <= funcs && CoversVars(TermsVars(ts), bound, funcs)
  {
    if ts != [] {
      NamesOfUnion(TermUses(ts[0]), TermsUses(ts[1..]));
      TermSortedIff(v, preds, funcs, bound, ts[0]);
      TermsSortedIff(v, preds, funcs, bound, ts[1..]);
      assert TermSexps(ts)[1..] == TermSexps(ts[1..]);
    }
  }

  /** A term is no formula. */
  lemma TermNotBool(v: Vocabulary, preds: set<Use>, funcs: set<Use>, bound: set<string>, t: Term)
    requires Proper(v) && Fits(v, preds, funcs, bound) && TermWithin(v, t)
    ensures !SortedBool(preds, funcs, bound, TermSexp(t))
  {
    match t
    case Variable(x) =>
      assert (x, 0) in TermOccurrences(t);
      NotDeclared(v, preds, x, 0);
    case Constant(c) =>
      assert (c, 0) in TermOccurrences(t);
      NameUsed(TermUses(t), c, 0);
      NotDeclared(v, preds, c, 0);
    case Function(f, args) =>
      assert (f, |args|) in TermOccurrences(t);
      NameUsed(TermUses(t), f, |args|);
      NotDeclared(v, preds, f, |args|);
      if args != [] { AppShape(f, TermSexps(args)); }
  }

  lemma NotDeclared(v: Vocabulary, preds: set<Use>, n: string, k: nat)
    requires NamesOf(preds) <= v.preds && n !in v.preds
    ensures (n, k) !in preds
  {
    if (n, k) in preds {
      NameUsed(preds, n, k);
    }
  }

  /** All uses declared, all variables declared or bound. */
  ghost predicate Covered(preds: set<Use>, funcs: set<Use>, bound: set<string>, f: Formula) {
    PredicateUses(f) <= preds && FunctionUses(f) <= funcs && CoversVars(FreeVars(f), bound, funcs)
  }

  ghost predicate AllCovered(preds: set<Use>, funcs: set<Use>, bound: set<string>, fs: seq<Formula>) {
    PredicateUsesOfAll(fs) <= preds && FunctionUsesOfAll(fs) <= funcs && CoversVars(FreeVarsOfAll(fs), bound, funcs)
  }

  lemma UnionCovered(x: set<string>, y: set<string>, bound: set<string>, funcs: set<Use>)
    ensures CoversVars(x + y, bound, funcs) <==> CoversVars(x, bound, funcs) && CoversVars(y, bound, funcs)
    ensures CoversVars(x - y, bound, funcs) <==> CoversVars(x, bound + y, funcs)
  {
  }

  lemma AppSorted(preds: set<Use>, funcs: set<Use>, bound: set<string>, head: string, args: seq<Sexp>)
    ensures SortedBool(preds, funcs, bound, App(head, args))
       <==> args != [] && SortedApp(preds, funcs, bound, head, args)
  {
    AppShape(head, args);
  }

  /** A formula's S-expression is well sorted exactly when it is covered. */
  lemma {:induction false} FormulaSortedIff(v: Vocabulary, preds: set<Use>, funcs: set<Use>, bound: set<string>,
                                            f: Formula)
    requires Proper(v) && Fits(v, preds, funcs, bound) && Within(v, f)
    ensures SortedBool(preds, funcs, bound, FormulaSexp(f)) <==> Covered(preds, funcs, bound, f)
    decreases f, 2
  {
    match f
    case Atom(p, args) => AtomSortedIff(v, preds, funcs, bound, p, args);
    case Equality(a, b) => EqualitySortedIff(v, preds, funcs, bound, a, b);
    case Inequality(a, b) =>
      EqualitySortedIff(v, preds, funcs, bound, a, b);
      AppSorted(preds, funcs, bound, "not", [App("=", [TermSexp(a), TermSexp(b)])]);
    case Not(g) =>
      FormulaSortedIff(v, preds, funcs, bound, g);
      AppSorted(preds, funcs, bound, "not", [FormulaSexp(g)]);
    case And(fs) => ConnectiveSortedIff(v, preds, funcs, bound, "and", "true", fs);
    case Or(fs) => ConnectiveSortedIff(v, preds, funcs, bound, "or", "false", fs);
    case Implies(g, h) => BinarySortedIff(v, preds, funcs, bound, f, g, h);
    case Iff(g, h) => BinarySortedIff(v, preds, funcs, bound, f, g, h);
    case Forall(xs, g) => BindingSortedIff(v, preds, funcs, bound, "forall", xs, g);
    case Exists(xs, g) => BindingSortedIff(v, preds, funcs, bound, "exists", xs, g);
    case True =>
    case False =>
  }

  lemma AtomSortedIff(v: Vocabulary, preds: set<Use>, funcs: set<Use>, bound: set<string>, p: string, args: seq<Term>)
    requires Proper(v) && Fits(v, preds, funcs, bound) && Within(v, Atom(p, args))
    ensures SortedBool(preds, funcs, bound, FormulaSexp(Atom(p, args))) <==> Covered(preds, funcs, bound, Atom(p, args))
  {
    assert (p, |args|) in Occurrences(Atom(p, args));
    NameUsed(PredicateUses(Atom(p, args)), p, |args|);
    TermsSortedIff(v, preds, funcs, bound, args);
    AppSorted(preds, funcs, bound, p, TermSexps(args));
  }

  lemma EqualitySortedIff(v: Vocabulary, preds: set<Use>, funcs: set<Use>, bound: set<string>, a: Term, b: Term)
    requires Proper(v) && Fits(v, preds, funcs, bound) && Within(v, Equality(a, b))
    ensures SortedBool(preds, funcs, bound, App("=", [TermSexp(a), TermSexp(b)]))
       <==> Covered(preds, funcs, bound, Equality(a, b))
  {
    NamesOfUnion(TermUses(a), TermUses(b));
    TermSortedIff(v, preds, funcs, bound, a);
    TermSortedIff(v, preds, funcs, bound, b);
    TermNotBool(v, preds, funcs, bound, a);
    UnionCovered(TermVars(a), TermVars(b), bound, funcs);
    AppSorted(preds, funcs, bound, "=", [TermSexp(a), TermSexp(b)]);
  }

  /** Only true and false, under bound variables of these names, could be taken for terms. */
  lemma {:induction false} TakenForTerm(v: Vocabulary, preds: set<Use>, funcs: set<Use>, bound: set<string>, f: Formula)
    requires Proper(v) && Fits(v, preds, funcs, bound) && Within(v, f) && SortedTerm(funcs, bound, FormulaSexp(f))
    ensures Covered(preds, funcs, bound, f)
    decreases f
  {
    match f
    case Atom(p, args) => AtomNotTerm(v, preds, funcs, bound, p, args);
    case Equality(a, b) => HeadNotTerm(funcs, bound, "=", [TermSexp(a), TermSexp(b)]);
    case Inequality(a, b) => HeadNotTerm(funcs, bound, "not", [App("=", [TermSexp(a), TermSexp(b)])]);
    case Not(g) => HeadNotTerm(funcs, bound, "not", [FormulaSexp(g)]);
    case And(fs) => ConnectiveTaken(v, preds, funcs, bound, "and", "true", fs);
    case Or(fs) => ConnectiveTaken(v, preds, funcs, bound, "or", "false", fs);
    case Implies(g, h) => HeadNotTerm(funcs, bound, "=>", [FormulaSexp(g), FormulaSexp(h)]);
    case Iff(g, h) => HeadNotTerm(funcs, bound, "=", [FormulaSexp(g), FormulaSexp(h)]);
    case Forall(xs, g) => HeadNotTerm(funcs, bound, "forall", [List(Binders(xs)), FormulaSexp(g)]);
    case Exists(xs, g) => HeadNotTerm(funcs, bound, "exists", [List(Binders(xs)), FormulaSexp(g)]);
    case True =>
    case False =>
  }

  lemma HeadNotTerm(funcs: set<Use>, bound: set<string>, head: string, args: seq<Sexp>)
    requires Unclaimed(funcs) && head in CONNECTIVES && args != []
    ensures !SortedTerm(funcs, bound, App(head, args))
  {
    AppShape(head, args);
    var u := (head, |args|);
    assert Claimed(u.0, u.1);
  }

  lemma AtomNotTerm(v: Vocabulary, preds: set<Use>, funcs: set<Use>, bound: set<string>, p: string, args: seq<Term>)
    requires Proper(v) && Fits(v, preds, funcs, bound) && Within(v, Atom(p, args))
    ensures !SortedTerm(funcs, bound, FormulaSexp(Atom(p, args)))
  {
    NameUsed(PredicateUses(Atom(p, args)), p, |args|);
    AppShape(p, TermSexps(args));
    var u := (p, |args|);
    assert u.0 == p;
  }

  lemma {:induction false} ConnectiveTaken(v: Vocabulary, preds: set<Use>, funcs: set<Use>, bound: set<string>,
                                           head: string, unit: string, fs: seq<Formula>)
    requires Proper(v) && Fits(v, preds, funcs, bound) && AllWithin(v, fs) && head in CONNECTIVES
    requires SortedTerm(funcs, bound, Connective(head, unit, FormulaSexps(fs)))
    ensures AllCovered(preds, funcs, bound, fs)
    decreases fs
  {
    if |fs| == 1 {
      AllOfOne(fs);
      TakenForTerm(v, preds, funcs, bound, fs[0]);
    } else if |fs| > 1 {
      HeadNotTerm(funcs, bound, head, FormulaSexps(fs));
    }
  }

  lemma AllOfOne(fs: seq<Formula>)
    requires |fs| == 1
    ensures PredicateUsesOfAll(fs) == PredicateUses(fs[0]) && FunctionUsesOfAll(fs) == FunctionUses(fs[0])
    ensures FreeVarsOfAll(fs) == FreeVars(fs[0]) && AllVarsOfAll(fs) == AllVars(fs[0])
    ensures OccurrencesOfAll(fs) == Occurrences(fs[0]) && FormulaSexps(fs) == [FormulaSexp(fs[0])]
  {
  }

  lemma BothCovered(preds: set<Use>, funcs: set<Use>, bound: set<string>, g: Formula, h: Formula)
    ensures Covered(preds, funcs, bound, Implies(g, h))
       <==> Covered(preds, funcs, bound, g) && Covered(preds, funcs, bound, h)
    ensures Covered(preds, funcs, bound, Iff(g, h))
       <==> Covered(preds, funcs, bound, g) && Covered(preds, funcs, bound, h)
  {
    UnionCovered(FreeVars(g), FreeVars(h), bound, funcs);
  }

  lemma {:induction false} BinarySortedIff(v: Vocabulary, preds: set<Use>, funcs: set<Use>, bound: set<string>,
                                           f: Formula, g: Formula, h: Formula)
    requires Proper(v) && Fits(v, preds, funcs, bound) && Within(v, f) && (f == Implies(g, h) || f == Iff(g, h))
    ensures SortedBool(preds, funcs, bound, FormulaSexp(f)) <==> Covered(preds, funcs, bound, f)
    decreases f, 1
  {
    WithinBoth(v, g, h);
    FormulaSortedIff(v, preds, funcs, bound, g);
    FormulaSortedIff(v, preds, funcs, bound, h);
    BothCovered(preds, funcs, bound, g, h);
    if f.Implies? {
      AppSorted(preds, funcs, bound, "=>", [FormulaSexp(g), FormulaSexp(h)]);
    } else {
      if SortedTerm(funcs, bound, FormulaSexp(g)) && SortedTerm(funcs, bound, FormulaSexp(h)) {
        TakenForTerm(v, preds, funcs, bound, g);
        TakenForTerm(v, preds, funcs, bound, h);
      }
      EquationSorted(preds, funcs, bound, FormulaSexp(g), FormulaSexp(h));
    }
  }

  lemma EquationSorted(preds: set<Use>, funcs: set<Use>, bound: set<string>, a: Sexp, b: Sexp)
    requires SortedTerm(funcs, bound, a) && SortedTerm(funcs, bound, b) ==>
               SortedBool(preds, funcs, bound, a) && SortedBool(preds, funcs, bound, b)
    ensures SortedBool(preds, funcs, bound, App("=", [a, b]))
       <==> SortedBool(preds, funcs, bound, a) && SortedBool(preds, funcs, bound, b)
  {
    AppSorted(preds, funcs, bound, "=", [a, b]);
  }

  lemma {:induction false} BindingSortedIff(v: Vocabulary, preds: set<Use>, funcs: set<Use>, bound: set<string>,
                                            head: string, xs: seq<string>, g: Formula)
    requires Proper(v) && Fits(v, preds, funcs, bound) && Within(v, Forall(xs, g))
      && (head == "forall" || head == "exists")
    ensures SortedBool(preds, funcs, bound, Quantified(head, xs, FormulaSexp(g)))
       <==> Covered(preds, funcs, bound, Forall(xs, g))
    decreases g, 3
  {
    FormulaSortedIff(v, preds, funcs, bound + Names(xs), g);
    UnionCovered(FreeVars(g), Names(xs), bound, funcs);
    QuantifiedSortedIff(head, preds, funcs, bound, xs, FormulaSexp(g));
  }

  lemma QuantifiedSortedIff(head: string, preds: set<Use>, funcs: set<Use>, bound: set<string>, xs: seq<string>,
                            body: Sexp)
    requires head == "forall" || head == "exists"
    ensures SortedBool(preds, funcs, bound, Quantified(head, xs, body))
       <==> SortedBool(preds, funcs, bound + Names(xs), body)
  {
    BinderNamesOf(xs);
    assert Quantified(head, xs, body) == App(head, [List(Binders(xs)), body]);
    AppSorted(preds, funcs, bound, head, [List(Binders(xs)), body]);
  }

  lemma {:induction false} ConnectiveSortedIff(v: Vocabulary, preds: set<Use>, funcs: set<Use>, bound: set<string>,
                                               head: string, unit: string, fs: seq<Formula>)
    requires Proper(v) && Fits(v, preds, funcs, bound) && AllWithin(v, fs)
    requires (head == "and" && unit == "true") || (head == "or" && unit == "false")
    ensures SortedBool(preds, funcs, bound, Connective(head, unit, FormulaSexps(fs)))
       <==> AllCovered(preds, funcs, bound, fs)
    decreases fs, 4
  {
    if |fs| == 1 {
      AllOfOne(fs);
      FormulaSortedIff(v, preds, funcs, bound, fs[0]);
    } else if |fs| > 1 {
      OperandsSortedIff(v, preds, funcs, bound, fs);
      AppSorted(preds, funcs, bound, head, FormulaSexps(fs));
    }
  }

  lemma {:induction false} OperandsSortedIff(v: Vocabulary, preds: set<Use>, funcs: set<Use>, bound: set<string>,
                                             fs: seq<Formula>)
    requires Proper(v) && Fits(v, preds, funcs, bound) && AllWithin(v, fs)
    ensures SortedBools(preds, funcs, bound, FormulaSexps(fs)) <==> AllCovered(preds, funcs, bound, fs)
    decreases fs, 3
  {
    if fs != [] {
      NamesOfUnion(PredicateUses(fs[0]), PredicateUsesOfAll(fs[1..]));
      NamesOfUnion(FunctionUses(fs[0]), FunctionUsesOfAll(fs[1..]));
      FormulaSortedIff(v, preds, funcs, bound, fs[0]);
      OperandsSortedIff(v, preds, funcs, bound, fs[1..]);
      UnionCovered(FreeVars(fs[0]), FreeVarsOfAll(fs[1..]), bound, funcs);
      assert FormulaSexps(fs)[1..] == FormulaSexps(fs[1..]);
    }
  }


  // ---------------------------------------------------------------- the script as a whole

  /** A symbol table has room for one arity per name: every use of every symbol is declared
      exactly when no name is used at two arities. */
  lemma AllUsesDeclaredIffConsistent(us: seq<Use>, uses: set<Use>)
    requires DeclaresUses(us, uses)
    ensures uses <= Declared(us) <==> Consistent(uses)
  {
    if Consistent(uses) {
      forall u | u in uses
        ensures u in us
      {
        assert Declares(us, u.0);
        var i :| 0 <= i < |us| && us[i].0 == u.0;
        assert us[i] in uses;
      }
    }
    if uses <= Declared(us) {
      forall u, u' | u in uses && u' in uses && u.0 == u'.0
        ensures u.1 == u'.1
      {
        var i :| 0 <= i < |us| && us[i] == u;
        var j :| 0 <= j < |us| && us[j] == u';
        assert i == j;
      }
    }
  }

  lemma {:induction false} SkolemsInclude(ss: seq<Statement>, i: nat)
    requires i < |ss| && IsGoal(ss[i].role)
    ensures FreeVars(ss[i].formula) <= SkolemNames(ss)
  {
    if i < |ss| - 1 {
      SkolemsInclude(ss[..|ss| - 1], i);
    }
  }

  ghost function FunctionUsesOf(p: Problem): set<Use> { FunctionUsesOfAll(FormulasOf(p.statements)) }

  ghost function PredicateUsesOf(p: Problem): set<Use> { PredicateUsesOfAll(FormulasOf(p.statements)) }

  ghost predicate WellSorted(s: Script) {
    forall i :: 0 <= i < |s.assertions| ==>
      SortedBool(Declared(s.predicates), DeclaredFunctions(s), {}, s.assertions[i])
  }

  lemma DeclaredFit(p: Problem, s: Script)
    requires IsScriptOf(p, s) && Proper(VocabularyOf(p))
    ensures Fits(VocabularyOf(p), Declared(s.predicates), DeclaredFunctions(s), {})
  {
    var fs := FormulasOf(p.statements);
    NamesOfAllOccur(fs);
    SkolemsOccur(p.statements);
    forall n | n in NamesOf(Declared(s.predicates))
      ensures n in NamesOf(PredicateUsesOf(p))
    {
      var u :| u in Declared(s.predicates) && u.0 == n;
      assert u in PredicateUsesOf(p);
    }
    forall u | u in DeclaredFunctions(s)
      ensures !Claimed(u.0, u.1) && (u.0 in VocabularyOf(p).funcs || u.0 in VocabularyOf(p).vars)
    {
      if u in Declared(s.functions) {
        assert u in FunctionUsesOf(p);
      } else {
        assert u.0 in s.skolems && u == (u.0, 0);
        assert u.0 in SkolemNames(p.statements);
      }
    }
  }

  lemma {:induction false} SkolemsOccur(ss: seq<Statement>)
    ensures forall x :: x in SkolemNames(ss) ==>
              (x, 0) in OccurrencesOfAll(FormulasOf(ss)) && x in AllVarsOfAll(FormulasOf(ss))
  {
    if ss != [] {
      var init, last := ss[..|ss| - 1], ss[|ss| - 1];
      SkolemsOccur(init);
      NamesOccur(last.formula);
      FreeVarsAmongAll(last.formula);
      assert FormulasOf(ss) == FormulasOf(init) + [last.formula];
      OfAllAppend(FormulasOf(init), last.formula);
    }
  }

  lemma {:induction false} OfAllAppend(fs: seq<Formula>, f: Formula)
    ensures OccurrencesOfAll(fs + [f]) == OccurrencesOfAll(fs) + Occurrences(f)
    ensures AllVarsOfAll(fs + [f]) == AllVarsOfAll(fs) + AllVars(f)
  {
    if fs == [] {
      assert fs + [f] == [f];
    } else {
      assert (fs + [f])[1..] == fs[1..] + [f];
      OfAllAppend(fs[1..], f);
    }
  }

  /** A statement's assertion is well sorted exactly when the uses of its formula are declared. */
  lemma AssertionSortedIff(p: Problem, s: Script, i: nat)
    requires IsScriptOf(p, s) && Proper(VocabularyOf(p)) && i < |p.statements| && |s.assertions| == |p.statements|
    ensures var f := p.statements[i].formula;
            SortedBool(Declared(s.predicates), DeclaredFunctions(s), {}, s.assertions[i])
            <==> PredicateUses(f) <= Declared(s.predicates) && FunctionUses(f) <= DeclaredFunctions(s)
  {
    var v, f := VocabularyOf(p), p.statements[i].formula;
    var preds, funcs := Declared(s.predicates), DeclaredFunctions(s);
    DeclaredFit(p, s);
    StatementWithin(p, i);
    AssertionAt(p.statements, s.assertions, i);
    if IsGoal(p.statements[i].role) {
      SkolemsInclude(p.statements, i);
      assert CoversVars(FreeVars(f), {}, funcs);
      FormulaSortedIff(v, preds, funcs, {}, f);
      AppSorted(preds, funcs, {}, "not", [FormulaSexp(f)]);
    } else {
      var xs :| Lists(xs, FreeVars(f)) && Ordered(xs) && s.assertions[i] == ClosureSexp(xs, f);
      FreeVarsAmongAll(f);
      ClosureSortedIff(v, preds, funcs, xs, f);
    }
  }

  lemma ClosureSortedIff(v: Vocabulary, preds: set<Use>, funcs: set<Use>, xs: seq<string>, f: Formula)
    requires Proper(v) && Fits(v, preds, funcs, {}) && Within(v, f) && Names(xs) == FreeVars(f)
    ensures SortedBool(preds, funcs, {}, ClosureSexp(xs, f)) <==> PredicateUses(f) <= preds && FunctionUses(f) <= funcs
  {
    FreeVarsAmongAll(f);
    assert {} + Names(xs) == FreeVars(f);
    FormulaSortedIff(v, preds, funcs, {} + Names(xs), f);
    if xs == [] {
      assert Names(xs) == {};
    } else {
      QuantifiedSortedIff("forall", preds, funcs, {}, xs, FormulaSexp(f));
    }
  }

  /** The script is well sorted, every symbol declared with its arity and every variable declared or bound,
      if and only if the problem uses no function and no predicate at two arities. */
  lemma WellSortedIff(p: Problem, s: Script)
    requires IsScriptOf(p, s) && Proper(VocabularyOf(p))
    ensures WellSorted(s) <==> Consistent(FunctionUsesOf(p)) && Consistent(PredicateUsesOf(p))
  {
    var fs := FormulasOf(p.statements);
    AllUsesDeclaredIffConsistent(s.functions, FunctionUsesOf(p));
    AllUsesDeclaredIffConsistent(s.predicates, PredicateUsesOf(p));
    SkolemsNoFunctions(p, s);
    AllUsesIff(fs, Declared(s.predicates), DeclaredFunctions(s));
    forall i | 0 <= i < |p.statements|
      ensures SortedBool(Declared(s.predicates), DeclaredFunctions(s), {}, s.assertions[i])
         <==> PredicateUses(fs[i]) <= Declared(s.predicates) && FunctionUses(fs[i]) <= DeclaredFunctions(s)
    {
      AssertionSortedIff(p, s, i);
    }
  }

  lemma {:induction false} AllUsesIff(fs: seq<Formula>, preds: set<Use>, funcs: set<Use>)
    ensures PredicateUsesOfAll(fs) <= preds && FunctionUsesOfAll(fs) <= funcs
       <==> forall i :: 0 <= i < |fs| ==> PredicateUses(fs[i]) <= preds && FunctionUses(fs[i]) <= funcs
  {
    if fs != [] {
      AllUsesIff(fs[1..], preds, funcs);
      assert forall i :: 1 <= i < |fs| ==> fs[i] == fs[1..][i - 1];
      assert forall i :: 0 <= i < |fs[1..]| ==> fs[1..][i] == fs[i + 1];
    }
  }

  lemma SkolemsNoFunctions(p: Problem, s: Script)
    requires IsScriptOf(p, s) && Proper(VocabularyOf(p))
    ensures FunctionUsesOf(p) <= DeclaredFunctions(s) <==> FunctionUsesOf(p) <= Declared(s.functions)
  {
    SkolemsOccur(p.statements);
    forall u | u in DeclaredFunctions(s) && u !in Declared(s.functions)
      ensures u.0 in VocabularyOf(p).vars
    {
      assert u.0 in s.skolems && u.0 in SkolemNames(p.statements);
    }
    forall u | u in FunctionUsesOf(p)
      ensures u.0 in VocabularyOf(p).funcs
    {
      NameUsed(FunctionUsesOf(p), u.0, u.1);
    }
  }

  // ---------------------------------------------------------------- the text as the solver reads it

  /** The solver reads the text, and every assertion it reads is well sorted by the declarations it reads. */
  ghost predicate WellSortedText(letters: char -> bool, text: string) {
    && WellRead(text)
    && exists cs :: SolverCommands(letters, text) == LexemeLists(cs) && SortedCommands(cs)
  }

  ghost predicate SortedCommands(cs: seq<Sexp>) {
    AllSorted(DeclaredAs(cs, "Bool"), DeclaredAs(cs, "U"), set c | c in cs && Asserts(c) :: c.items[1])
  }

  ghost predicate AllSorted(preds: set<Use>, funcs: set<Use>, assertions: set<Sexp>) {
    forall a :: a in assertions ==> SortedBool(preds, funcs, {}, a)
  }

  lemma SortedScript(p: Problem, s: Script)
    requires |s.assertions| == |p.statements|
    ensures SortedCommands(CommandsAmong(Pieces(p, s))) <==> WellSorted(s)
  {
    var cs := CommandsAmong(Pieces(p, s));
    DeclarationsInScript(p, s);
    forall c
      ensures c in cs && Asserts(c) <==> exists a :: a in s.assertions && c == Assertion(a)
    {
      AssertedInScript(p, s, c);
    }
    SortedAlike(cs, s);
  }

  lemma SortedAlike(cs: seq<Sexp>, s: Script)
    requires DeclaredAs(cs, "Bool") == Declared(s.predicates) && DeclaredAs(cs, "U") == DeclaredFunctions(s)
    requires forall c :: c in cs && Asserts(c) <==> exists a :: a in s.assertions && c == Assertion(a)
    ensures SortedCommands(cs) <==> WellSorted(s)
  {
    AssertedSet(cs, s.assertions);
    SortedSet(s, set a | a in s.assertions);
  }

  lemma AssertedSet(cs: seq<Sexp>, assertions: seq<Sexp>)
    requires forall c :: c in cs && Asserts(c) <==> exists a :: a in assertions && c == Assertion(a)
    ensures (set c | c in cs && Asserts(c) :: c.items[1]) == set a | a in assertions
  {
    var asserted := set c | c in cs && Asserts(c) :: c.items[1];
    forall a
      ensures a in asserted <==> a in assertions
    {
      var c := Assertion(a);
      assert Asserts(c) && c.items[1] == a;
      if a in asserted {
        var d :| d in cs && Asserts(d) && d.items[1] == a;
        var b :| b in assertions && d == Assertion(b);
        assert b == a;
      }
    }
  }

  lemma SortedSet(s: Script, assertions: set<Sexp>)
    requires assertions == set a | a in s.assertions
    ensures AllSorted(Declared(s.predicates), DeclaredFunctions(s), assertions) <==> WellSorted(s)
  {
    assert forall i :: 0 <= i < |s.assertions| ==> s.assertions[i] in assertions;
  }

  /** The text of a plain problem is well sorted for the solver if and only if no function and no predicate
      is used at two arities. */
  lemma WellSortedTextIff(letters: char -> bool, p: Problem, text: string)
    requires IsTextFor(p, text) && PlainProblem(letters, p) && Proper(VocabularyOf(p))
    ensures WellSortedText(letters, text) <==> Consistent(FunctionUsesOf(p)) && Consistent(PredicateUsesOf(p))
  {
    var s :| IsScriptOf(p, s) && text == ScriptText(p, s);
    var meant := CommandsAmong(Pieces(p, s));
    TextReadsBackIff(letters, p, s);
    SortedScript(p, s);
    WellSortedIff(p, s);
    if WellSortedText(letters, text) {
      var cs :| SolverCommands(letters, text) == LexemeLists(cs) && SortedCommands(cs);
      LexemeListsDecide(cs, meant);
    }
  }

  /** p, and p applied to a. */
  function TwoArities(): Formula {
    And([Atom("p", []), Atom("p", [Constant("a")])])
  }

  lemma TwoAritiesUses()
    ensures PredicateUses(TwoArities()) == {("p", 0), ("p", 1)} && FreeVars(TwoArities()) == {}
    ensures FormulaSexp(TwoArities()) == List([Sym("and"), Sym("p"), List([Sym("p"), Sym("a")])])
  {
    var f, g := Atom("p", []), Atom("p", [Constant("a")]);
    var fs := [f, g];
    assert fs[1..] == [g] && [g][1..] == [] && [Constant("a")][1..] == [];
    assert PredicateUsesOfAll([g]) == {("p", 1)} + {} && FreeVarsOfAll([g]) == TermsVars([Constant("a")]) + {};
    assert TermSexps([Constant("a")]) == [Sym("a")] + [] == [Sym("a")];
    assert FormulaSexps([g]) == [App("p", [Sym("a")])] + [] == [App("p", [Sym("a")])];
    assert FormulaSexps(fs) == [Sym("p")] + [App("p", [Sym("a")])] == [Sym("p"), App("p", [Sym("a")])];
    assert [Sym("and")] + [Sym("p"), App("p", [Sym("a")])] == [Sym("and"), Sym("p"), App("p", [Sym("a")])];
    assert [Sym("p")] + [Sym("a")] == [Sym("p"), Sym("a")];
  }

  /** Whatever the order of declaration, an axiom that uses p at two arities is not well sorted. */
  lemma TwoAritiesNotSorted(p: Problem, s: Script)
    requires |p.statements| == 1 && p.statements[0].role == Axiom && p.statements[0].formula == TwoArities()
    requires IsScriptOf(p, s)
    ensures !SortedBool(Declared(s.predicates), DeclaredFunctions(s), {}, s.assertions[0])
  {
    TwoAritiesUses();
    AssertionAt(p.statements, s.assertions, 0);
    var xs :| Lists(xs, {}) && Ordered(xs) && s.assertions[0] == ClosureSexp(xs, TwoArities());
    EmptyNames({}, xs);
    NotBoth(s.predicates, PredicateUsesOfAll(FormulasOf(p.statements)));
    var items := s.assertions[0].items;
    assert items[1..] == [Sym("p"), List([Sym("p"), Sym("a")])] && items[1..][1..] == [List([Sym("p"), Sym("a")])];
  }

  lemma NotBoth(us: seq<Use>, uses: set<Use>)
    requires DeclaresUses(us, uses)
    ensures !(("p", 0) in Declared(us) && ("p", 1) in Declared(us))
  {
    forall i, j | 0 <= i < |us| && 0 <= j < |us| && us[i] == ("p", 0)
      ensures us[j] != ("p", 1)
    {
      assert i < j || j < i || i == j;
    }
  }
}
