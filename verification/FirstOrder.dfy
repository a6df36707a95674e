/** First-order semantics of TPTP formulas over an arbitrary domain: terms, formulas, universal
    closures, and the coincidence lemma, by which truth depends on nothing but the free variables and
    the function symbols a formula uses. */
module FirstOrder {
  import opened TptpSyntax

  datatype Structure<!D(!new)> = Structure(func: (string, seq<D>) -> D, pred: (string, seq<D>) -> bool)

  /** An unassigned name denotes the constant of that name; a closed formula never asks. */
  ghost function Lookup<D(!new)>(m: Structure<D>, env: map<string, D>, x: string): D {
    if x in env then env[x] else m.func(x, [])
  }

  ghost function TermVal<D(!new)>(m: Structure<D>, env: map<string, D>, t: Term): D {
    match t
    case Variable(x) => Lookup(m, env, x)
    case Constant(c) => m.func(c, [])
    case Function(f, args) => m.func(f, TermVals(m, env, args))
  }

  ghost function TermVals<D(!new)>(m: Structure<D>, env: map<string, D>, ts: seq<Term>): (ds: seq<D>)
    ensures |ds| == |ts|
  {
    if ts == [] then [] else [TermVal(m, env, ts[0])] + TermVals(m, env, ts[1..])
  }

  ghost function Bind<D(!new)>(env: map<string, D>, vars: seq<string>, ds: seq<D>): map<string, D>
    requires |vars| == |ds|
    decreases |vars|
  {
    if vars == [] then env else Bind(env[vars[0] := ds[0]], vars[1..], ds[1..])
  }

  ghost predicate ForallVal<D(!new)>(m: Structure<D>, env: map<string, D>, vars: seq<string>, g: Formula)
    decreases g, 1
  {
    forall ds: seq<D> :: |ds| == |vars| ==> FormulaVal(m, Bind(env, vars, ds), g)
  }

  ghost predicate ExistsVal<D(!new)>(m: Structure<D>, env: map<string, D>, vars: seq<string>, g: Formula)
    decreases g, 1
  {
    exists ds: seq<D> :: |ds| == |vars| && FormulaVal(m, Bind(env, vars, ds), g)
  }

  ghost predicate FormulaVal<D(!new)>(m: Structure<D>, env: map<string, D>, f: Formula)
    decreases f, 0
  {
    match f
    case Atom(p, args) => m.pred(p, TermVals(m, env, args))
    case Equality(a, b) => TermVal(m, env, a) == TermVal(m, env, b)
    case Inequality(a, b) => TermVal(m, env, a) != TermVal(m, env, b)
    case Not(g) => !FormulaVal(m, env, g)
    case And(fs) => AllTrue(m, env, fs)
    case Or(fs) => SomeTrue(m, env, fs)
    case Implies(g, h) => FormulaVal(m, env, g) ==> FormulaVal(m, env, h)
    case Iff(g, h) => FormulaVal(m, env, g) <==> FormulaVal(m, env, h)
    case Forall(vars, g) => ForallVal(m, env, vars, g)
    case Exists(vars, g) => ExistsVal(m, env, vars, g)
    case True => true
    case False => false
  }

  ghost predicate AllTrue<D(!new)>(m: Structure<D>, env: map<string, D>, fs: seq<Formula>)
    decreases fs, 0
  {
    fs == [] || (FormulaVal(m, env, fs[0]) && AllTrue(m, env, fs[1..]))
  }

  ghost predicate SomeTrue<D(!new)>(m: Structure<D>, env: map<string, D>, fs: seq<Formula>)
    decreases fs, 0
  {
    fs != [] && (FormulaVal(m, env, fs[0]) || SomeTrue(m, env, fs[1..]))
  }

  /** Truth of the universal closure. */
  ghost predicate ClosureTrue<D(!new)>(m: Structure<D>, f: Formula) {
    forall env: map<string, D> :: FreeVars(f) <= env.Keys ==> FormulaVal(m, env, f)
  }

  // ================================================================ coincidence

  ghost function NamesOf(uses: set<Use>): set<string> {
    set u | u in uses :: u.0
  }

  ghost predicate AgreeOnVars<D(!new)>(m: Structure<D>, e: map<string, D>, m': Structure<D>, e': map<string, D>,
                                       vars: set<string>) {
    forall x :: x in vars ==> Lookup(m, e, x) == Lookup(m', e', x)
  }

  ghost predicate FuncAgrees<D(!new)>(m: Structure<D>, m': Structure<D>, u: Use) {
    forall args :: |args| == u.1 ==> m.func(u.0, args) == m'.func(u.0, args)
  }

  ghost predicate PredAgrees<D(!new)>(m: Structure<D>, m': Structure<D>, u: Use) {
    forall args :: |args| == u.1 ==> m.pred(u.0, args) == m'.pred(u.0, args)
  }

  ghost predicate AgreeOnFuncs<D(!new)>(m: Structure<D>, m': Structure<D>, uses: set<Use>) {
    forall u :: u in uses ==> FuncAgrees(m, m', u)
  }

  ghost predicate AgreeOnPreds<D(!new)>(m: Structure<D>, m': Structure<D>, uses: set<Use>) {
    forall u :: u in uses ==> PredAgrees(m, m', u)
  }

  lemma {:induction false} BindLookup<D(!new)>(m: Structure<D>, e: map<string, D>, m': Structure<D>, e': map<string, D>,
                                               vars: seq<string>, ds: seq<D>, x: string)
    requires |vars| == |ds|
    requires x !in vars ==> Lookup(m, e, x) == Lookup(m', e', x)
    ensures Lookup(m, Bind(e, vars, ds), x) == Lookup(m', Bind(e', vars, ds), x)
    decreases |vars|
  {
    if vars != [] {
      if x == vars[0] && x !in vars[1..] {
        BindLookup(m, e[x := ds[0]], m', e'[x := ds[0]], vars[1..], ds[1..], x);
      } else {
        BindLookup(m, e[vars[0] := ds[0]], m', e'[vars[0] := ds[0]], vars[1..], ds[1..], x);
      }
    }
  }

  lemma BindAgrees<D(!new)>(m: Structure<D>, e: map<string, D>, m': Structure<D>, e': map<string, D>,
                            vars: seq<string>, ds: seq<D>, names: set<string>)
    requires |vars| == |ds| && AgreeOnVars(m, e, m', e', names - Names(vars))
    ensures AgreeOnVars(m, Bind(e, vars, ds), m', Bind(e', vars, ds), names)
  {
    forall x | x in names
      ensures Lookup(m, Bind(e, vars, ds), x) == Lookup(m', Bind(e', vars, ds), x)
    {
      BindLookup(m, e, m', e', vars, ds, x);
    }
  }

  lemma {:induction false} TermCoincidence<D(!new)>(m: Structure<D>, e: map<string, D>, m': Structure<D>,
                                                    e': map<string, D>, t: Term)
    requires AgreeOnVars(m, e, m', e', TermVars(t)) && AgreeOnFuncs(m, m', TermUses(t))
    ensures TermVal(m, e, t) == TermVal(m', e', t)
  {
    match t
    case Variable(x) => assert x in TermVars(t);
    case Constant(c) => assert FuncAgrees(m, m', (c, 0));
    case Function(f, args) =>
      assert FuncAgrees(m, m', (f, |args|));
      TermsCoincidence(m, e, m', e', args);
  }

  lemma {:induction false} TermsCoincidence<D(!new)>(m: Structure<D>, e: map<string, D>, m': Structure<D>,
                                                     e': map<string, D>, ts: seq<Term>)
    requires AgreeOnVars(m, e, m', e', TermsVars(ts)) && AgreeOnFuncs(m, m', TermsUses(ts))
    ensures TermVals(m, e, ts) == TermVals(m', e', ts)
  {
    if ts != [] {
      TermCoincidence(m, e, m', e', ts[0]);
      TermsCoincidence(m, e, m', e', ts[1..]);
    }
  }

  /** A formula's value depends only on its free variables and the symbols it uses. */
  lemma {:induction false} FormulaCoincidence<D(!new)>(m: Structure<D>, e: map<string, D>, m': Structure<D>,
                                                       e': map<string, D>, f: Formula)
    requires AgreeOnPreds(m, m', PredicateUses(f))
    requires AgreeOnVars(m, e, m', e', FreeVars(f)) && AgreeOnFuncs(m, m', FunctionUses(f))
    ensures FormulaVal(m, e, f) == FormulaVal(m', e', f)
    decreases f, 1
  {
    match f
    case Atom(p, args) => TermsCoincidence(m, e, m', e', args); assert PredAgrees(m, m', (p, |args|));
    case Equality(a, b) => TermCoincidence(m, e, m', e', a); TermCoincidence(m, e, m', e', b);
    case Inequality(a, b) => TermCoincidence(m, e, m', e', a); TermCoincidence(m, e, m', e', b);
    case Not(g) => FormulaCoincidence(m, e, m', e', g);
    case And(fs) => FormulasCoincidence(m, e, m', e', fs);
    case Or(fs) => FormulasCoincidence(m, e, m', e', fs);
    case Implies(g, h) => FormulaCoincidence(m, e, m', e', g); FormulaCoincidence(m, e, m', e', h);
    case Iff(g, h) => FormulaCoincidence(m, e, m', e', g); FormulaCoincidence(m, e, m', e', h);
    case Forall(vars, g) => BodyCoincidence(m, e, m', e', vars, g);
    case Exists(vars, g) => BodyCoincidence(m, e, m', e', vars, g);
    case True =>
    case False =>
  }

  lemma {:induction false} BodyCoincidence<D(!new)>(m: Structure<D>, e: map<string, D>, m': Structure<D>,
                                                    e': map<string, D>, vars: seq<string>, g: Formula)
    requires AgreeOnPreds(m, m', PredicateUses(g))
    requires AgreeOnVars(m, e, m', e', FreeVars(g) - Names(vars)) && AgreeOnFuncs(m, m', FunctionUses(g))
    ensures ForallVal(m, e, vars, g) == ForallVal(m', e', vars, g)
    ensures ExistsVal(m, e, vars, g) == ExistsVal(m', e', vars, g)
    decreases g, 2
  {
    forall ds: seq<D> | |ds| == |vars|
      ensures FormulaVal(m, Bind(e, vars, ds), g) == FormulaVal(m', Bind(e', vars, ds), g)
    {
      BindAgrees(m, e, m', e', vars, ds, FreeVars(g));
      FormulaCoincidence(m, Bind(e, vars, ds), m', Bind(e', vars, ds), g);
    }
  }

  lemma {:induction false} FormulasCoincidence<D(!new)>(m: Structure<D>, e: map<string, D>, m': Structure<D>,
                                                        e': map<string, D>, fs: seq<Formula>)
    requires AgreeOnPreds(m, m', PredicateUsesOfAll(fs))
    requires AgreeOnVars(m, e, m', e', FreeVarsOfAll(fs)) && AgreeOnFuncs(m, m', FunctionUsesOfAll(fs))
    ensures AllTrue(m, e, fs) == AllTrue(m', e', fs) && SomeTrue(m, e, fs) == SomeTrue(m', e', fs)
    decreases fs, 1
  {
    if fs != [] {
      FormulaCoincidence(m, e, m', e', fs[0]);
      FormulasCoincidence(m, e, m', e', fs[1..]);
    }
  }
}
