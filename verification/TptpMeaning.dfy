/** The emitted script is satisfiable exactly when the TPTP problem is refutable. */
module TptpMeaning {
  import opened TptpSyntax
  import opened SmtLib
  import opened TptpSmt
  import opened FirstOrder
  import opened SmtMeaning
  import opened TptpProblem

  ghost function VocabularyOf(p: Problem): Vocabulary {
    var fs := FormulasOf(p.statements);
    Vocabulary(NamesOf(PredicateUsesOfAll(fs)), NamesOf(FunctionUsesOfAll(fs)), AllVarsOfAll(fs), OccurrencesOfAll(fs))
  }

  ghost function DeclaredPredicates(s: Script): set<string> {
    set i | 0 <= i < |s.predicates| :: s.predicates[i].0
  }

  ghost function Declared(us: seq<Use>): set<Use> { set u | u in us }

  ghost function DeclaredFunctions(s: Script): set<Use> {
    Declared(s.functions) + set x | x in s.skolems :: (x, 0)
  }

  /** Some interpretation with domain D of the declared symbols makes every assertion true; the names that
      the solver claims mean what its theories say. */
  ghost predicate Satisfiable<D(!new)>(theories: Structure<D>, s: Script) {
    exists m: Structure<D> :: ScriptTrue(Over(theories, m), s)
  }

  ghost predicate ScriptTrue<D(!new)>(m: Structure<D>, s: Script) {
    forall i :: 0 <= i < |s.assertions| ==> EvalBool(DeclaredPredicates(s), m, map[], s.assertions[i])
  }

  // ---------------------------------------------------------------- the problem's own meaning

  /** Free variables are universal; a conjecture is to be false, everything else true. */
  ghost predicate StatementMet<D(!new)>(m: Structure<D>, st: Statement) {
    if st.role == Conjecture then !ClosureTrue(m, st.formula) else ClosureTrue(m, st.formula)
  }

  ghost predicate IsCounterModel<D(!new)>(m: Structure<D>, p: Problem) {
    forall i :: 0 <= i < |p.statements| ==> StatementMet(m, p.statements[i])
  }

  /** A structure with domain D satisfies the axioms and falsifies the conjecture. */
  ghost predicate Refutable<D(!new)>(p: Problem) {
    exists m: Structure<D> :: IsCounterModel(m, p)
  }

  /** At most one conjecture, and no free variable in a negated conjecture. */
  ghost predicate SingleGoal(p: Problem) {
    && (forall i, j :: 0 <= i < j < |p.statements| ==>
          p.statements[i].role != Conjecture || p.statements[j].role != Conjecture)
    && (forall i :: 0 <= i < |p.statements| && p.statements[i].role == NegatedConjecture ==>
          FreeVars(p.statements[i].formula) == {})
  }

  // ---------------------------------------------------------------- vocabularies

  lemma {:induction false} MemberUses(fs: seq<Formula>, i: nat)
    requires i < |fs|
    ensures PredicateUses(fs[i]) <= PredicateUsesOfAll(fs) && FunctionUses(fs[i]) <= FunctionUsesOfAll(fs)
    ensures AllVars(fs[i]) <= AllVarsOfAll(fs) && Occurrences(fs[i]) <= OccurrencesOfAll(fs)
  {
    if i > 0 {
      MemberUses(fs[1..], i - 1);
    }
  }

  lemma StatementWithin(p: Problem, i: nat)
    requires i < |p.statements|
    ensures Within(VocabularyOf(p), p.statements[i].formula)
  {
    MemberUses(FormulasOf(p.statements), i);
  }

  lemma {:induction false} FreeVarsAmongAll(f: Formula)
    ensures FreeVars(f) <= AllVars(f)
    decreases f, 1
  {
    match f
    case Not(g) => FreeVarsAmongAll(g);
    case And(fs) => FreeVarsOfAllAmongAll(fs);
    case Or(fs) => FreeVarsOfAllAmongAll(fs);
    case Implies(g, h) => FreeVarsAmongAll(g); FreeVarsAmongAll(h);
    case Iff(g, h) => FreeVarsAmongAll(g); FreeVarsAmongAll(h);
    case Forall(_, g) => FreeVarsAmongAll(g);
    case Exists(_, g) => FreeVarsAmongAll(g);
    case _ =>
  }

  lemma {:induction false} FreeVarsOfAllAmongAll(fs: seq<Formula>)
    ensures FreeVarsOfAll(fs) <= AllVarsOfAll(fs)
    decreases fs, 1
  {
    if fs != [] {
      FreeVarsAmongAll(fs[0]);
      FreeVarsOfAllAmongAll(fs[1..]);
    }
  }

  lemma {:induction false} TermNamesOccur(t: Term)
    ensures TermUses(t) <= TermOccurrences(t) && forall x :: x in TermVars(t) ==> (x, 0) in TermOccurrences(t)
  {
    match t
    case Variable(_) =>
    case Constant(_) =>
    case Function(_, args) => TermsNamesOccur(args);
  }

  lemma {:induction false} TermsNamesOccur(ts: seq<Term>)
    ensures TermsUses(ts) <= TermsOccurrences(ts) && forall x :: x in TermsVars(ts) ==> (x, 0) in TermsOccurrences(ts)
  {
    if ts != [] {
      TermNamesOccur(ts[0]);
      TermsNamesOccur(ts[1..]);
    }
  }

  lemma {:induction false} NamesOccur(f: Formula)
    ensures PredicateUses(f) <= Occurrences(f) && FunctionUses(f) <= Occurrences(f)
    ensures forall x :: x in FreeVars(f) ==> (x, 0) in Occurrences(f)
    decreases f, 1
  {
    match f
    case Atom(_, args) => TermsNamesOccur(args);
    case Equality(a, b) => TermNamesOccur(a); TermNamesOccur(b);
    case Inequality(a, b) => TermNamesOccur(a); TermNamesOccur(b);
    case Not(g) => NamesOccur(g);
    case And(fs) => NamesOfAllOccur(fs);
    case Or(fs) => NamesOfAllOccur(fs);
    case Implies(g, h) => NamesOccur(g); NamesOccur(h);
    case Iff(g, h) => NamesOccur(g); NamesOccur(h);
    case Forall(_, g) => NamesOccur(g);
    case Exists(_, g) => NamesOccur(g);
    case True =>
    case False =>
  }

  lemma {:induction false} NamesOfAllOccur(fs: seq<Formula>)
    ensures PredicateUsesOfAll(fs) <= OccurrencesOfAll(fs) && FunctionUsesOfAll(fs) <= OccurrencesOfAll(fs)
    ensures forall x :: x in FreeVarsOfAll(fs) ==> (x, 0) in OccurrencesOfAll(fs)
    decreases fs, 0
  {
    if fs != [] {
      NamesOccur(fs[0]);
      NamesOfAllOccur(fs[1..]);
    }
  }

  // ---------------------------------------------------------------- names the solver claims

  /** The theories leave every use of these names alone. */
  ghost predicate Untouched<D(!new)>(theories: Structure<D>, m: Structure<D>, uses: set<Use>) {
    AgreeOnFuncs(Over(theories, m), m, uses) && AgreeOnPreds(Over(theories, m), m, uses)
  }

  /** Every use of a name means what its declaration leaves open, whatever the theories are, if and only
      if the solver claims none of them. */
  lemma FreelyInterpretedIff<D(!new)>(uses: set<Use>, d: D, e: D)
    requires d != e
    ensures (forall theories: Structure<D>, m: Structure<D> :: Untouched(theories, m, uses)) <==> Unclaimed(uses)
  {
    if u :| u in uses && Claimed(u.0, u.1) {
      var theories := Structure((f: string, args: seq<D>) => d, (f: string, args: seq<D>) => true);
      var m := Structure((f: string, args: seq<D>) => e, (f: string, args: seq<D>) => true);
      Overridden(theories, m, uses, u, seq(u.1, i => d));
    } else {
      forall theories: Structure<D>, m: Structure<D>
        ensures Untouched(theories, m, uses)
      {
        UnclaimedUntouched(theories, m, uses);
      }
    }
  }

  lemma Overridden<D(!new)>(theories: Structure<D>, m: Structure<D>, uses: set<Use>, u: Use, args: seq<D>)
    requires u in uses && Claimed(u.0, u.1) && |args| == u.1 && theories.func(u.0, args) != m.func(u.0, args)
    ensures !Untouched(theories, m, uses)
  {
    assert Over(theories, m).func(u.0, args) != m.func(u.0, args);
    assert !FuncAgrees(Over(theories, m), m, u);
  }

  lemma UnclaimedUntouched<D(!new)>(theories: Structure<D>, m: Structure<D>, uses: set<Use>)
    requires Unclaimed(uses)
    ensures Untouched(theories, m, uses)
  {
    forall u | u in uses
      ensures FuncAgrees(Over(theories, m), m, u) && PredAgrees(Over(theories, m), m, u)
    {
      NotOverridden(theories, m, u);
    }
  }

  lemma NotOverridden<D(!new)>(theories: Structure<D>, m: Structure<D>, u: Use)
    requires !Claimed(u.0, u.1)
    ensures FuncAgrees(Over(theories, m), m, u) && PredAgrees(Over(theories, m), m, u)
  {
    forall args: seq<D> | |args| == u.1
      ensures Over(theories, m).func(u.0, args) == m.func(u.0, args)
      ensures Over(theories, m).pred(u.0, args) == m.pred(u.0, args)
    {
    }
  }

  /** A formula without claimed names has the value the declarations give it. */
  lemma TheoriesIrrelevant<D(!new)>(theories: Structure<D>, m: Structure<D>, env: map<string, D>, f: Formula)
    requires Unclaimed(Occurrences(f))
    ensures FormulaVal(Over(theories, m), env, f) <==> FormulaVal(m, env, f)
  {
    NamesOccur(f);
    UnclaimedUntouched(theories, m, Occurrences(f));
    UntouchedVars(Over(theories, m), m, env, FreeVars(f), Occurrences(f));
    FormulaCoincidence(Over(theories, m), env, m, env, f);
  }

  lemma UntouchedVars<D(!new)>(m: Structure<D>, m': Structure<D>, env: map<string, D>, vars: set<string>,
                               uses: set<Use>)
    requires AgreeOnFuncs(m, m', uses) && forall x :: x in vars ==> (x, 0) in uses
    ensures AgreeOnVars(m, env, m', env, vars)
  {
    forall x | x in vars
      ensures Lookup(m, env, x) == Lookup(m', env, x)
    {
      assert FuncAgrees(m, m', (x, 0));
    }
  }

  lemma DeclaredAreUsed(p: Problem, s: Script)
    requires IsScriptOf(p, s)
    ensures DeclaredPredicates(s) == VocabularyOf(p).preds
  {
    var uses := PredicateUsesOfAll(FormulasOf(p.statements));
    forall n
      ensures n in DeclaredPredicates(s) <==> n in NamesOf(uses)
    {
      if n in NamesOf(uses) {
        var u :| u in uses && u.0 == n;
        assert Declares(s.predicates, u.0);
      }
    }
  }

  // ---------------------------------------------------------------- closures

  lemma {:induction false} BindValue<D(!new)>(env: map<string, D>, xs: seq<string>, ds: seq<D>, i: nat)
    requires |xs| == |ds| && i < |xs| && forall j, k :: 0 <= j < k < |xs| ==> xs[j] != xs[k]
    ensures xs[i] in Bind(env, xs, ds) && Bind(env, xs, ds)[xs[i]] == ds[i]
    decreases |xs|
  {
    if i == 0 {
      BindOther(env[xs[0] := ds[0]], xs[1..], ds[1..], xs[0]);
    } else {
      BindValue(env[xs[0] := ds[0]], xs[1..], ds[1..], i - 1);
    }
  }

  lemma {:induction false} BindOther<D(!new)>(env: map<string, D>, xs: seq<string>, ds: seq<D>, x: string)
    requires |xs| == |ds| && x !in xs && x in env
    ensures x in Bind(env, xs, ds) && Bind(env, xs, ds)[x] == env[x]
    decreases |xs|
  {
    if xs != [] {
      BindOther(env[xs[0] := ds[0]], xs[1..], ds[1..], x);
    }
  }

  /** Binding a formula's free variables in all ways is the same as evaluating it everywhere. */
  lemma ClosureByBinding<D(!new)>(m: Structure<D>, f: Formula, xs: seq<string>)
    requires Lists(xs, FreeVars(f))
    ensures ClosureTrue(m, f) <==> ForallVal(m, map[], xs, f)
  {
    if ClosureTrue(m, f) {
      forall ds: seq<D> | |ds| == |xs|
        ensures FormulaVal(m, Bind(map[], xs, ds), f)
      {
        BindKeys(map[], xs, ds);
      }
    }
    if ForallVal(m, map[], xs, f) {
      forall env: map<string, D> | FreeVars(f) <= env.Keys
        ensures FormulaVal(m, env, f)
      {
        BindingOf(m, f, xs, env);
      }
    }
  }

  lemma BindingOf<D(!new)>(m: Structure<D>, f: Formula, xs: seq<string>, env: map<string, D>)
    requires Lists(xs, FreeVars(f)) && FreeVars(f) <= env.Keys
    ensures exists ds: seq<D> :: |ds| == |xs| && (FormulaVal(m, env, f) <==> FormulaVal(m, Bind(map[], xs, ds), f))
  {
    assert forall i :: 0 <= i < |xs| ==> xs[i] in env;
    var ds := seq(|xs|, i requires 0 <= i < |xs| => env[xs[i]]);
    var env' := Bind(map[], xs, ds);
    forall x | x in FreeVars(f)
      ensures Lookup(m, env, x) == Lookup(m, env', x)
    {
      var i :| 0 <= i < |xs| && xs[i] == x;
      BindValue(map[], xs, ds, i);
    }
    FormulaCoincidence(m, env, m, env', f);
  }

  lemma ClosureMeaning<D(!new)>(v: Vocabulary, m: Structure<D>, f: Formula, s: Sexp)
    requires Proper(v) && Within(v, f) && IsClosure(f, s)
    ensures EvalBool(v.preds, m, map[], s) <==> ClosureTrue(m, f)
  {
    var xs :| Lists(xs, FreeVars(f)) && Ordered(xs) && s == ClosureSexp(xs, f);
    var none: map<string, D> := map[];
    FreeVarsAmongAll(f);
    ClosureByBinding(m, f, xs);
    if xs == [] {
      FormulaMeaning(v, m, none, f);
      NothingBound(m, f);
    } else {
      BoundMeaning(v, m, xs, f);
    }
  }

  lemma BoundMeaning<D(!new)>(v: Vocabulary, m: Structure<D>, xs: seq<string>, f: Formula)
    requires Proper(v) && Within(v, f) && Names(xs) <= v.vars
    ensures EvalBool(v.preds, m, map[], Quantified("forall", xs, FormulaSexp(f)))
       <==> ForallVal(m, map[], xs, f)
  {
    var none: map<string, D> := map[];
    BodyMeaning(v, m, none, xs, f);
    QuantifiedMeaning(v, m, none, xs, FormulaSexp(f));
    ForallAlike(v.preds, m, none, xs, f);
  }

  lemma NothingBound<D(!new)>(m: Structure<D>, f: Formula)
    ensures ForallVal(m, map[], [], f) <==> FormulaVal(m, map[], f)
  {
    var none: map<string, D> := map[];
    assert forall ds: seq<D> :: |ds| == 0 ==> Bind(none, [], ds) == none;
    var ds: seq<D> := [];
    assert |ds| == 0;
  }

  // ---------------------------------------------------------------- goals

  /** A goal's free variables, evaluated with nothing bound, take the constants' values. */
  lemma SkolemReading<D(!new)>(m: Structure<D>, f: Formula)
    ensures FormulaVal(m, map[], f) <==> FormulaVal(m, (map x | x in FreeVars(f) :: m.func(x, [])), f)
  {
    FormulaCoincidence(m, map[], m, map x | x in FreeVars(f) :: m.func(x, []), f);
  }

  lemma NotMeaning<D(!new)>(preds: set<string>, m: Structure<D>, s: Sexp)
    ensures EvalBool(preds, m, map[], App("not", [s])) <==> !EvalBool(preds, m, map[], s)
  {
    AppShape("not", [s]);
  }

  lemma AssertionMeaning<D(!new)>(v: Vocabulary, m: Structure<D>, st: Statement, s: Sexp)
    requires Proper(v) && Within(v, st.formula) && IsAssertionOf(st, s)
    ensures st.role == Conjecture ==> (EvalBool(v.preds, m, map[], s) <==> !FormulaVal(m, map[], st.formula))
    ensures st.role == NegatedConjecture ==> (EvalBool(v.preds, m, map[], s) <==> FormulaVal(m, map[], st.formula))
    ensures !IsGoal(st.role) ==> (EvalBool(v.preds, m, map[], s) <==> ClosureTrue(m, st.formula))
  {
    var none: map<string, D> := map[];
    match st.role
    case Conjecture => FormulaMeaning(v, m, none, st.formula); NotMeaning(v.preds, m, FormulaSexp(st.formula));
    case NegatedConjecture => FormulaMeaning(v, m, none, st.formula);
    case _ => ClosureMeaning(v, m, st.formula, s);
  }

  lemma SentenceReading<D(!new)>(m: Structure<D>, f: Formula)
    requires FreeVars(f) == {}
    ensures FormulaVal(m, map[], f) <==> ClosureTrue(m, f)
  {
    forall env: map<string, D>
      ensures FormulaVal(m, env, f) == FormulaVal(m, map[], f)
    {
      FormulaCoincidence(m, env, m, map[], f);
    }
  }

  /** Forward: an interpretation of the script is itself a counter-model. */
  lemma ScriptModelIsCounterModel<D(!new)>(p: Problem, s: Script, m: Structure<D>)
    requires IsScriptOf(p, s) && Proper(VocabularyOf(p)) && SingleGoal(p) && ScriptTrue(m, s)
    ensures IsCounterModel(m, p)
  {
    DeclaredAreUsed(p, s);
    forall i | 0 <= i < |p.statements|
      ensures StatementMet(m, p.statements[i])
    {
      var st := p.statements[i];
      StatementWithin(p, i);
      AssertionAt(p.statements, s.assertions, i);
      AssertionMeaning(VocabularyOf(p), m, st, s.assertions[i]);
      assert EvalBool(DeclaredPredicates(s), m, map[], s.assertions[i]);
      if st.role == Conjecture {
        SkolemReading(m, st.formula);
      } else if st.role == NegatedConjecture {
        SentenceReading(m, st.formula);
      }
    }
  }

  /** m with the constants named in env set to env's values. */
  ghost function WithConstants<D(!new)>(m: Structure<D>, env: map<string, D>): Structure<D> {
    Structure((f, args) => if args == [] && f in env then env[f] else m.func(f, args), m.pred)
  }

  /** Setting constants that no formula of the vocabulary uses changes no closure. */
  lemma ConstantsIrrelevant<D(!new)>(v: Vocabulary, m: Structure<D>, w: map<string, D>, f: Formula)
    requires Proper(v) && Within(v, f) && w.Keys <= v.vars
    ensures ClosureTrue(WithConstants(m, w), f) <==> ClosureTrue(m, f)
  {
    var m' := WithConstants(m, w);
    UnusedConstants(v, m, w, f);
    forall env: map<string, D> | FreeVars(f) <= env.Keys
      ensures FormulaVal(m', env, f) <==> FormulaVal(m, env, f)
    {
      FormulaCoincidence(m', env, m, env, f);
    }
  }

  lemma UnusedConstants<D(!new)>(v: Vocabulary, m: Structure<D>, w: map<string, D>, f: Formula)
    requires Proper(v) && Within(v, f) && w.Keys <= v.vars
    ensures AgreeOnFuncs(WithConstants(m, w), m, FunctionUses(f))
  {
    forall u | u in FunctionUses(f)
      ensures FuncAgrees(WithConstants(m, w), m, u)
    {
      assert u.0 in NamesOf(FunctionUses(f));
    }
  }

  /** A falsifying assignment of the goal, made into constants, falsifies the goal as written. */
  lemma WitnessReading<D(!new)>(v: Vocabulary, m: Structure<D>, env: map<string, D>, f: Formula)
    requires Proper(v) && Within(v, f) && FreeVars(f) <= env.Keys
    ensures var w := map x | x in FreeVars(f) :: env[x];
            FormulaVal(WithConstants(m, w), map[], f) <==> FormulaVal(m, env, f)
  {
    var w := map x | x in FreeVars(f) :: env[x];
    FreeVarsAmongAll(f);
    UnusedConstants(v, m, w, f);
    FormulaCoincidence(WithConstants(m, w), map[], m, env, f);
  }

  /** Values for the goal's free variables: those of a falsifying assignment, if there is a goal. */
  lemma GoalWitness<D(!new)>(p: Problem, m: Structure<D>) returns (w: map<string, D>)
    requires Proper(VocabularyOf(p)) && SingleGoal(p) && IsCounterModel(m, p)
    ensures w.Keys <= VocabularyOf(p).vars
    ensures forall i :: 0 <= i < |p.statements| && p.statements[i].role == Conjecture ==>
              !FormulaVal(WithConstants(m, w), map[], p.statements[i].formula)
  {
    if i :| 0 <= i < |p.statements| && p.statements[i].role == Conjecture {
      var f := p.statements[i].formula;
      assert StatementMet(m, p.statements[i]);
      var env: map<string, D> :| FreeVars(f) <= env.Keys && !FormulaVal(m, env, f);
      w := map x | x in FreeVars(f) :: env[x];
      StatementWithin(p, i);
      FreeVarsAmongAll(f);
      WitnessReading(VocabularyOf(p), m, env, f);
    } else {
      w := map[];
    }
  }

  /** Backward: a counter-model becomes an interpretation by naming the witnesses. */
  lemma CounterModelIsScriptModel<D(!new)>(p: Problem, s: Script, m: Structure<D>) returns (m': Structure<D>)
    requires IsScriptOf(p, s) && Proper(VocabularyOf(p)) && SingleGoal(p) && IsCounterModel(m, p)
    ensures ScriptTrue(m', s)
  {
    DeclaredAreUsed(p, s);
    var w := GoalWitness(p, m);
    m' := WithConstants(m, w);
    forall i | 0 <= i < |s.assertions|
      ensures EvalBool(DeclaredPredicates(s), m', map[], s.assertions[i])
    {
      var st := p.statements[i];
      assert StatementMet(m, st);
      StatementWithin(p, i);
      AssertionAt(p.statements, s.assertions, i);
      AssertionMeaning(VocabularyOf(p), m', st, s.assertions[i]);
      ConstantsIrrelevant(VocabularyOf(p), m, w, st.formula);
      if st.role == NegatedConjecture {
        SentenceReading(m', st.formula);
      }
    }
  }

  lemma ClosureUntouched<D(!new)>(theories: Structure<D>, m: Structure<D>, f: Formula)
    requires Unclaimed(Occurrences(f))
    ensures ClosureTrue(Over(theories, m), f) <==> ClosureTrue(m, f)
  {
    forall env: map<string, D>
      ensures FormulaVal(Over(theories, m), env, f) <==> FormulaVal(m, env, f)
    {
      TheoriesIrrelevant(theories, m, env, f);
    }
  }

  /** The theories have no say in a script without claimed names. */
  lemma ScriptUntouched<D(!new)>(p: Problem, s: Script, theories: Structure<D>, m: Structure<D>)
    requires IsScriptOf(p, s) && Proper(VocabularyOf(p))
    ensures ScriptTrue(Over(theories, m), s) <==> ScriptTrue(m, s)
  {
    DeclaredAreUsed(p, s);
    forall i | 0 <= i < |s.assertions|
      ensures EvalBool(DeclaredPredicates(s), Over(theories, m), map[], s.assertions[i])
         <==> EvalBool(DeclaredPredicates(s), m, map[], s.assertions[i])
    {
      var st := p.statements[i];
      StatementWithin(p, i);
      AssertionAt(p.statements, s.assertions, i);
      AssertionMeaning(VocabularyOf(p), m, st, s.assertions[i]);
      AssertionMeaning(VocabularyOf(p), Over(theories, m), st, s.assertions[i]);
      TheoriesIrrelevant(theories, m, map[], st.formula);
      ClosureUntouched(theories, m, st.formula);
    }
  }

  /** The translation preserves meaning, over every domain and whatever the solver's theories are. */
  lemma TranslationPreservesMeaning<D(!new)>(p: Problem, s: Script, theories: Structure<D>)
    requires IsScriptOf(p, s) && Proper(VocabularyOf(p)) && SingleGoal(p)
    ensures Satisfiable(theories, s) <==> Refutable<D>(p)
  {
    if Satisfiable(theories, s) {
      var m: Structure<D> :| ScriptTrue(Over(theories, m), s);
      ScriptModelIsCounterModel(p, s, Over(theories, m));
    }
    if Refutable<D>(p) {
      var m: Structure<D> :| IsCounterModel(m, p);
      var m' := CounterModelIsScriptModel(p, s, m);
      ScriptUntouched(p, s, theories, m');
    }
  }
}
