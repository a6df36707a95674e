/** What the S-expression of a formula means in any structure. */
module SmtMeaning {
  import opened TptpSyntax
  import opened SmtLib
  import opened TptpSmt
  import opened FirstOrder

  // ================================================================ names with a meaning of their own

  const CONNECTIVES: set<string> := {"not", "and", "or", "=>", "=", "forall", "exists"}

  /** Heads that the solver's parser takes for its own before it looks at any declaration
      (nixie-core/src/smtlib/parser/build.rs:35-97, terms.rs:913, 1155-1183), by what they belong to. */
  const FORM_HEADS: seq<string> := ["_", "!", "let"]

  const CORE_HEADS: seq<string> := ["ite", "xor", "distinct"]

  const ARRAY_HEADS: seq<string> := ["select", "store"]

  const NUMBER_HEADS: seq<string> :=
    ["abs", "to_real", "to_int", "is_int", "mod", "div", "+", "-", "*", "/", "<", "<=", ">", ">="]

  const BIT_VECTOR_HEADS: seq<string> :=
    ["bvnot", "bvneg", "bvult", "bvslt", "bvule", "bvsle", "bvugt", "bvsgt", "bvuge", "bvsge", "bvcomp", "bvand",
     "bvor", "bvnand", "bvnor", "bvxor", "bvxnor", "bvadd", "bvsub", "bvmul", "bvudiv", "bvurem", "bvsdiv", "bvsrem",
     "bvsmod", "bvshl", "bvlshr", "bvashr", "concat"]

  const FLOAT_HEADS: seq<string> :=
    ["fp", "fp.add", "fp.sub", "fp.mul", "fp.div", "fp.sqrt", "fp.roundToIntegral", "fp.fma", "fp.isNormal",
     "fp.isSubnormal", "fp.isZero", "fp.isInfinite", "fp.isNaN", "fp.isNegative", "fp.isPositive", "fp.abs", "fp.neg",
     "fp.to_real", "fp.rem", "fp.eq", "fp.lt", "fp.gt", "fp.leq", "fp.geq", "fp.min", "fp.max"]

  const STRING_HEADS: seq<string> :=
    ["str.len", "str.is_digit", "str.to_code", "str.from_code", "str.to_int", "str.to.int", "int.to_str", "int.to.str",
     "str.from_int", "str.to_re", "str.to.re", "str.at", "str.contains", "str.prefixof", "str.suffixof", "str.in_re",
     "str.in.re", "str.substr", "str.indexof", "str.replace", "str.replace_all", "str.replace_re",
     "str.replace_re_all", "str.++", "str.<", "str.<=", "re.*", "re.+", "re.opt", "re.comp", "re.diff", "re.range",
     "re.++", "re.union", "re.inter"]

  /** Symbols without arguments that it takes for its own, bound or not (terms.rs:1293-1323). */
  const THEORY_CONSTANTS: seq<string> := [
    "re.none", "re.all", "re.allchar", "RNE", "roundNearestTiesToEven", "RNA", "roundNearestTiesToAway",
    "RTP", "roundTowardPositive", "RTN", "roundTowardNegative", "RTZ", "roundTowardZero"]

  /** One of the first k words. */
  predicate AmongFirst(words: seq<string>, n: string, k: nat)
    requires k <= |words|
  {
    k > 0 && (words[k - 1] == n || AmongFirst(words, n, k - 1))
  }

  predicate Among(words: seq<string>, n: string) { AmongFirst(words, n, |words|) }

  lemma {:induction false} AmongIff(words: seq<string>, n: string, k: nat)
    requires k <= |words|
    ensures AmongFirst(words, n, k) <==> exists i :: 0 <= i < k && words[i] == n
  {
    if k > 0 {
      AmongIff(words, n, k - 1);
    }
  }

  predicate IsTheoryHead(n: string) {
    || Among(FORM_HEADS, n) || Among(CORE_HEADS, n) || Among(ARRAY_HEADS, n) || Among(NUMBER_HEADS, n)
    || Among(BIT_VECTOR_HEADS, n) || Among(FLOAT_HEADS, n) || Among(STRING_HEADS, n)
  }

  /** The name of this use, a name with a number of arguments, is not free to be declared. */
  predicate Claimed(n: string, arity: nat) {
    if arity == 0 then n == "true" || n == "false" || Among(THEORY_CONSTANTS, n)
    else n in CONNECTIVES || IsTheoryHead(n)
  }

  ghost predicate Unclaimed(uses: set<Use>) {
    forall u :: u in uses ==> !Claimed(u.0, u.1)
  }

  /** A structure in which the claimed names mean what the solver's theories say, whatever was declared. */
  ghost function Over<D(!new)>(theories: Structure<D>, m: Structure<D>): Structure<D> {
    Structure((f, args) => if Claimed(f, |args|) then theories.func(f, args) else m.func(f, args),
              (p, args) => if Claimed(p, |args|) then theories.pred(p, args) else m.pred(p, args))
  }

  ghost function EvalTerm<D(!new)>(m: Structure<D>, env: map<string, D>, s: Sexp): D
    decreases s
  {
    match s
    case Sym(x) => if Among(THEORY_CONSTANTS, x) then m.func(x, []) else Lookup(m, env, x)
    case Num(digits) => m.func(digits, [])
    case List(items) =>
      if items != [] && items[0].Sym? then m.func(items[0].name, EvalTerms(m, env, items[1..])) else m.func("", [])
  }

  ghost function EvalTerms<D(!new)>(m: Structure<D>, env: map<string, D>, ss: seq<Sexp>): seq<D>
    decreases ss
  {
    if ss == [] then [] else [EvalTerm(m, env, ss[0])] + EvalTerms(m, env, ss[1..])
  }

  /** Sort inference: is s of sort Bool? Bound variables are of sort U; preds are the symbols
      declared with result sort Bool. */
  predicate IsBool(preds: set<string>, bound: set<string>, s: Sexp) {
    match s
    case Sym(x) => x == "true" || x == "false" || (x !in bound && x in preds)
    case Num(_) => false
    case List(items) => items != [] && items[0].Sym? && (items[0].name in CONNECTIVES || items[0].name in preds)
  }

  function BinderNames(binders: seq<Sexp>): (names: seq<string>)
    ensures |names| == |binders|
  {
    if binders == [] then []
    else
      [if binders[0].List? && binders[0].items != [] && binders[0].items[0].Sym? then binders[0].items[0].name else ""]
      + BinderNames(binders[1..])
  }

  ghost predicate EvalForall<D(!new)>(preds: set<string>, m: Structure<D>, env: map<string, D>, vars: seq<string>,
                                      body: Sexp)
    decreases body, 1
  {
    forall ds: seq<D> :: |ds| == |vars| ==> EvalBool(preds, m, Bind(env, vars, ds), body)
  }

  ghost predicate EvalExists<D(!new)>(preds: set<string>, m: Structure<D>, env: map<string, D>, vars: seq<string>,
                                      body: Sexp)
    decreases body, 1
  {
    exists ds: seq<D> :: |ds| == |vars| && EvalBool(preds, m, Bind(env, vars, ds), body)
  }

  ghost predicate EvalBool<D(!new)>(preds: set<string>, m: Structure<D>, env: map<string, D>, s: Sexp)
    decreases s, 0
  {
    match s
    case Sym(x) => if x == "true" then true else if x == "false" then false else m.pred(x, [])
    case Num(_) => false
    case List(items) => items != [] && items[0].Sym? && EvalApp(preds, m, env, items[0].name, items[1..])
  }

  ghost predicate EvalApp<D(!new)>(preds: set<string>, m: Structure<D>, env: map<string, D>, head: string,
                                   args: seq<Sexp>)
    decreases args, 1
  {
    if head == "not" && |args| == 1 then !EvalBool(preds, m, env, args[0])
    else if head == "and" then EvalAll(preds, m, env, args)
    else if head == "or" then EvalSome(preds, m, env, args)
    else if head == "=>" && |args| == 2 then EvalBool(preds, m, env, args[0]) ==> EvalBool(preds, m, env, args[1])
    else if head == "=" && |args| == 2 then
      if IsBool(preds, env.Keys, args[0])
      then EvalBool(preds, m, env, args[0]) <==> EvalBool(preds, m, env, args[1])
      else EvalTerm(m, env, args[0]) == EvalTerm(m, env, args[1])
    else if head == "forall" && |args| == 2 && args[0].List? then
      EvalForall(preds, m, env, BinderNames(args[0].items), args[1])
    else if head == "exists" && |args| == 2 && args[0].List? then
      EvalExists(preds, m, env, BinderNames(args[0].items), args[1])
    else m.pred(head, EvalTerms(m, env, args))
  }

  ghost predicate EvalAll<D(!new)>(preds: set<string>, m: Structure<D>, env: map<string, D>, ss: seq<Sexp>)
    decreases ss, 0
  {
    ss == [] || (EvalBool(preds, m, env, ss[0]) && EvalAll(preds, m, env, ss[1..]))
  }

  ghost predicate EvalSome<D(!new)>(preds: set<string>, m: Structure<D>, env: map<string, D>, ss: seq<Sexp>)
    decreases ss, 0
  {
    ss != [] && (EvalBool(preds, m, env, ss[0]) || EvalSome(preds, m, env, ss[1..]))
  }

  // ================================================================ vocabularies

  /** The names a problem uses as predicates, as functions and as variables, and the number of arguments
      it uses them with. */
  datatype Vocabulary = Vocabulary(preds: set<string>, funcs: set<string>, vars: set<string>, uses: set<Use>)

  /** No name plays two roles. */
  predicate Separate(v: Vocabulary) {
    v.preds !! v.funcs && v.preds !! v.vars && v.funcs !! v.vars
  }

  /** ... and every name is free to be declared or bound where it is used. */
  ghost predicate Proper(v: Vocabulary) {
    Separate(v) && Unclaimed(v.uses)
  }

  ghost predicate Within(v: Vocabulary, f: Formula) {
    && NamesOf(PredicateUses(f)) <= v.preds && NamesOf(FunctionUses(f)) <= v.funcs && AllVars(f) <= v.vars
    && Occurrences(f) <= v.uses
  }

  ghost predicate TermWithin(v: Vocabulary, t: Term) {
    NamesOf(TermUses(t)) <= v.funcs && TermVars(t) <= v.vars && TermOccurrences(t) <= v.uses
  }

  ghost predicate TermsWithin(v: Vocabulary, ts: seq<Term>) {
    NamesOf(TermsUses(ts)) <= v.funcs && TermsVars(ts) <= v.vars && TermsOccurrences(ts) <= v.uses
  }

  ghost predicate AllWithin(v: Vocabulary, fs: seq<Formula>) {
    && NamesOf(PredicateUsesOfAll(fs)) <= v.preds && NamesOf(FunctionUsesOfAll(fs)) <= v.funcs
    && AllVarsOfAll(fs) <= v.vars && OccurrencesOfAll(fs) <= v.uses
  }

  lemma NamesOfUnion(a: set<Use>, b: set<Use>)
    ensures NamesOf(a + b) == NamesOf(a) + NamesOf(b)
  {
    forall n
      ensures n in NamesOf(a + b) <==> n in NamesOf(a) + NamesOf(b)
    {
      if n in NamesOf(a) { var u :| u in a && u.0 == n; assert u in a + b; }
      if n in NamesOf(b) { var u :| u in b && u.0 == n; assert u in a + b; }
    }
  }

  lemma NameUsed(uses: set<Use>, n: string, arity: nat)
    requires (n, arity) in uses
    ensures n in NamesOf(uses)
  {
    assert (n, arity).0 == n;
  }

  // ================================================================ terms

  lemma {:induction false} TermMeaning<D(!new)>(v: Vocabulary, m: Structure<D>, env: map<string, D>, t: Term)
    requires Proper(v) && TermWithin(v, t) && env.Keys <= v.vars
    ensures EvalTerm(m, env, TermSexp(t)) == TermVal(m, env, t)
    ensures !IsBool(v.preds, env.Keys, TermSexp(t))
  {
    match t
    case Variable(x) => assert x in TermVars(t) && (x, 0) in TermOccurrences(t);
    case Constant(c) => NameUsed(TermUses(t), c, 0); assert (c, 0) in TermOccurrences(t);
    case Function(f, args) =>
      NameUsed(TermUses(t), f, |args|);
      assert (f, |args|) in TermOccurrences(t);
      NamesOfUnion({(f, |args|)}, TermsUses(args));
      TermsMeaning(v, m, env, args);
      if args != [] {
        AppShape(f, TermSexps(args));
      }
  }

  lemma {:induction false} TermsMeaning<D(!new)>(v: Vocabulary, m: Structure<D>, env: map<string, D>, ts: seq<Term>)
    requires Proper(v) && TermsWithin(v, ts) && env.Keys <= v.vars
    ensures EvalTerms(m, env, TermSexps(ts)) == TermVals(m, env, ts)
  {
    if ts != [] {
      NamesOfUnion(TermUses(ts[0]), TermsUses(ts[1..]));
      TermMeaning(v, m, env, ts[0]);
      TermsMeaning(v, m, env, ts[1..]);
      assert TermSexps(ts)[1..] == TermSexps(ts[1..]);
    }
  }

  lemma AppShape(head: string, args: seq<Sexp>)
    ensures App(head, args).items[0] == Sym(head) && App(head, args).items[1..] == args
    ensures |App(head, args).items| == |args| + 1
  {
  }

  // ================================================================ formulas

  lemma {:induction false} BinderNamesOf(vars: seq<string>)
    ensures BinderNames(Binders(vars)) == vars
  {
    if vars != [] {
      assert Binders(vars)[1..] == Binders(vars[1..]);
      BinderNamesOf(vars[1..]);
    }
  }

  lemma {:induction false} BindKeys<D(!new)>(env: map<string, D>, vars: seq<string>, ds: seq<D>)
    requires |vars| == |ds|
    ensures Bind(env, vars, ds).Keys == env.Keys + Names(vars)
    decreases |vars|
  {
    if vars != [] {
      BindKeys(env[vars[0] := ds[0]], vars[1..], ds[1..]);
      assert Names(vars) == {vars[0]} + Names(vars[1..]);
    }
  }

  lemma QuantifiedMeaning<D(!new)>(v: Vocabulary, m: Structure<D>, env: map<string, D>, vars: seq<string>, body: Sexp)
    ensures EvalBool(v.preds, m, env, Quantified("forall", vars, body)) <==> EvalForall(v.preds, m, env, vars, body)
    ensures EvalBool(v.preds, m, env, Quantified("exists", vars, body)) <==> EvalExists(v.preds, m, env, vars, body)
  {
    BinderNamesOf(vars);
    var args := [List(Binders(vars)), body];
    assert Quantified("forall", vars, body) == App("forall", args)
      && Quantified("exists", vars, body) == App("exists", args);
    AppEval(v.preds, m, env, "forall", args);
    AppEval(v.preds, m, env, "exists", args);
  }

  lemma AppEval<D(!new)>(preds: set<string>, m: Structure<D>, env: map<string, D>, head: string, args: seq<Sexp>)
    ensures EvalBool(preds, m, env, App(head, args)) <==> EvalApp(preds, m, env, head, args)
  {
    AppShape(head, args);
  }

  lemma NotEval<D(!new)>(preds: set<string>, m: Structure<D>, env: map<string, D>, a: Sexp)
    ensures EvalBool(preds, m, env, App("not", [a])) <==> !EvalBool(preds, m, env, a)
  {
    AppEval(preds, m, env, "not", [a]);
  }

  lemma ConstantsEval<D(!new)>(preds: set<string>, m: Structure<D>, env: map<string, D>)
    ensures EvalBool(preds, m, env, Sym("true")) && !EvalBool(preds, m, env, Sym("false"))
  {
    assert "true"[0] == 't' && "false"[0] == 'f';
  }

  /** A connective applied to anything is a formula. */
  lemma ConnectiveIsBool(preds: set<string>, bound: set<string>, head: string, args: seq<Sexp>)
    requires head in CONNECTIVES
    ensures IsBool(preds, bound, App(head, args))
  {
    AppShape(head, args);
  }

  lemma FormulaIsBool(v: Vocabulary, bound: set<string>, f: Formula)
    requires Proper(v) && Within(v, f) && bound <= v.vars
    ensures IsBool(v.preds, bound, FormulaSexp(f))
    decreases f, 1
  {
    match f
    case Atom(p, args) => AtomIsBool(v, bound, f);
    case Equality(a, b) => ConnectiveIsBool(v.preds, bound, "=", [TermSexp(a), TermSexp(b)]);
    case Inequality(a, b) => ConnectiveIsBool(v.preds, bound, "not", [App("=", [TermSexp(a), TermSexp(b)])]);
    case Not(g) => ConnectiveIsBool(v.preds, bound, "not", [FormulaSexp(g)]);
    case And(fs) => OperandsAreBool(v, bound, "and", "true", fs);
    case Or(fs) => OperandsAreBool(v, bound, "or", "false", fs);
    case Implies(g, h) => ConnectiveIsBool(v.preds, bound, "=>", [FormulaSexp(g), FormulaSexp(h)]);
    case Iff(g, h) => ConnectiveIsBool(v.preds, bound, "=", [FormulaSexp(g), FormulaSexp(h)]);
    case Forall(vars, g) => ConnectiveIsBool(v.preds, bound, "forall", [List(Binders(vars)), FormulaSexp(g)]);
    case Exists(vars, g) => ConnectiveIsBool(v.preds, bound, "exists", [List(Binders(vars)), FormulaSexp(g)]);
    case True =>
    case False =>
  }

  lemma AtomIsBool(v: Vocabulary, bound: set<string>, f: Formula)
    requires Proper(v) && Within(v, f) && bound <= v.vars && f.Atom?
    ensures IsBool(v.preds, bound, FormulaSexp(f))
  {
    NameUsed(PredicateUses(f), f.pred, |f.args|);
    AppShape(f.pred, TermSexps(f.args));
  }

  lemma OperandsAreBool(v: Vocabulary, bound: set<string>, head: string, unit: string, fs: seq<Formula>)
    requires Proper(v) && AllWithin(v, fs) && bound <= v.vars
    requires head in CONNECTIVES && (unit == "true" || unit == "false")
    ensures IsBool(v.preds, bound, Connective(head, unit, FormulaSexps(fs)))
    decreases fs, 1
  {
    ConnectiveIsBool(v.preds, bound, head, FormulaSexps(fs));
    if |fs| == 1 {
      NamesOfUnion(PredicateUses(fs[0]), PredicateUsesOfAll(fs[1..]));
      NamesOfUnion(FunctionUses(fs[0]), FunctionUsesOfAll(fs[1..]));
      FormulaIsBool(v, bound, fs[0]);
    }
  }

  /** The S-expression of a formula evaluates to the formula's truth value. */
  lemma {:induction false} FormulaMeaning<D(!new)>(v: Vocabulary, m: Structure<D>, env: map<string, D>, f: Formula)
    requires Proper(v) && Within(v, f) && env.Keys <= v.vars
    ensures EvalBool(v.preds, m, env, FormulaSexp(f)) <==> FormulaVal(m, env, f)
    decreases f, 1
  {
    match f
    case Atom(_, _) => AtomMeaning(v, m, env, f);
    case Equality(_, _) => EquationMeaning(v, m, env, f);
    case Inequality(_, _) => EquationMeaning(v, m, env, f);
    case Not(g) => FormulaMeaning(v, m, env, g); NotEval(v.preds, m, env, FormulaSexp(g));
    case And(fs) => ConnectiveMeaning(v, m, env, fs);
    case Or(fs) => ConnectiveMeaning(v, m, env, fs);
    case Implies(g, h) => BinaryMeaning(v, m, env, f, g, h);
    case Iff(g, h) => BinaryMeaning(v, m, env, f, g, h);
    case Forall(vars, g) => BodyMeaning(v, m, env, vars, g); ForallMeaning(v, m, env, vars, g);
    case Exists(vars, g) => BodyMeaning(v, m, env, vars, g); ExistsMeaning(v, m, env, vars, g);
    case True => ConstantsEval(v.preds, m, env);
    case False => ConstantsEval(v.preds, m, env);
  }

  lemma {:induction false} BinaryMeaning<D(!new)>(v: Vocabulary, m: Structure<D>, env: map<string, D>, f: Formula,
                                                  g: Formula, h: Formula)
    requires Proper(v) && Within(v, f) && env.Keys <= v.vars && (f == Implies(g, h) || f == Iff(g, h))
    ensures EvalBool(v.preds, m, env, FormulaSexp(f)) <==> FormulaVal(m, env, f)
    decreases f, 0
  {
    WithinBoth(v, g, h);
    FormulaMeaning(v, m, env, g);
    FormulaMeaning(v, m, env, h);
    if f.Implies? {
      ImpliesEval(v.preds, m, env, FormulaSexp(g), FormulaSexp(h), FormulaVal(m, env, g), FormulaVal(m, env, h));
    } else {
      FormulaIsBool(v, env.Keys, g);
      IffEval(v.preds, m, env, FormulaSexp(g), FormulaSexp(h), FormulaVal(m, env, g), FormulaVal(m, env, h));
    }
  }

  lemma ImpliesEval<D(!new)>(preds: set<string>, m: Structure<D>, env: map<string, D>, a: Sexp, b: Sexp, p: bool,
                             q: bool)
    requires EvalBool(preds, m, env, a) == p && EvalBool(preds, m, env, b) == q
    ensures EvalBool(preds, m, env, App("=>", [a, b])) == (p ==> q)
  {
    BinaryEval(preds, m, env, a, b);
  }

  lemma IffEval<D(!new)>(preds: set<string>, m: Structure<D>, env: map<string, D>, a: Sexp, b: Sexp, p: bool, q: bool)
    requires EvalBool(preds, m, env, a) == p && EvalBool(preds, m, env, b) == q && IsBool(preds, env.Keys, a)
    ensures EvalBool(preds, m, env, App("=", [a, b])) == (p <==> q)
  {
    BinaryEval(preds, m, env, a, b);
  }

  /** The body has the formula's value however the variables are bound. */
  ghost predicate BodyMeans<D(!new)>(preds: set<string>, m: Structure<D>, env: map<string, D>, vars: seq<string>,
                                     g: Formula) {
    forall ds: seq<D> :: |ds| == |vars| ==> MeansAt(preds, m, Bind(env, vars, ds), g)
  }

  ghost predicate MeansAt<D(!new)>(preds: set<string>, m: Structure<D>, env: map<string, D>, g: Formula) {
    EvalBool(preds, m, env, FormulaSexp(g)) <==> FormulaVal(m, env, g)
  }

  lemma ForallAlike<D(!new)>(preds: set<string>, m: Structure<D>, env: map<string, D>, vars: seq<string>, g: Formula)
    requires BodyMeans(preds, m, env, vars, g)
    ensures EvalForall(preds, m, env, vars, FormulaSexp(g))
       <==> ForallVal(m, env, vars, g)
  {
    forall ds: seq<D> | |ds| == |vars|
      ensures EvalBool(preds, m, Bind(env, vars, ds), FormulaSexp(g)) <==> FormulaVal(m, Bind(env, vars, ds), g)
    {
      assert MeansAt(preds, m, Bind(env, vars, ds), g);
    }
  }

  lemma ExistsAlike<D(!new)>(preds: set<string>, m: Structure<D>, env: map<string, D>, vars: seq<string>, g: Formula)
    requires BodyMeans(preds, m, env, vars, g)
    ensures EvalExists(preds, m, env, vars, FormulaSexp(g))
       <==> ExistsVal(m, env, vars, g)
  {
    forall ds: seq<D> | |ds| == |vars|
      ensures EvalBool(preds, m, Bind(env, vars, ds), FormulaSexp(g)) <==> FormulaVal(m, Bind(env, vars, ds), g)
    {
      assert MeansAt(preds, m, Bind(env, vars, ds), g);
    }
  }

  lemma ForallMeaning<D(!new)>(v: Vocabulary, m: Structure<D>, env: map<string, D>, vars: seq<string>, g: Formula)
    requires BodyMeans(v.preds, m, env, vars, g)
    ensures EvalBool(v.preds, m, env, FormulaSexp(Forall(vars, g))) <==> FormulaVal(m, env, Forall(vars, g))
  {
    ForallAlike(v.preds, m, env, vars, g);
    QuantifiedMeaning(v, m, env, vars, FormulaSexp(g));
  }

  lemma ExistsMeaning<D(!new)>(v: Vocabulary, m: Structure<D>, env: map<string, D>, vars: seq<string>, g: Formula)
    requires BodyMeans(v.preds, m, env, vars, g)
    ensures EvalBool(v.preds, m, env, FormulaSexp(Exists(vars, g))) <==> FormulaVal(m, env, Exists(vars, g))
  {
    ExistsAlike(v.preds, m, env, vars, g);
    QuantifiedMeaning(v, m, env, vars, FormulaSexp(g));
  }

  lemma AtomMeaning<D(!new)>(v: Vocabulary, m: Structure<D>, env: map<string, D>, f: Formula)
    requires Proper(v) && Within(v, f) && env.Keys <= v.vars && f.Atom?
    ensures EvalBool(v.preds, m, env, FormulaSexp(f)) <==> FormulaVal(m, env, f)
  {
    NameUsed(PredicateUses(f), f.pred, |f.args|);
    assert (f.pred, |f.args|) in Occurrences(f);
    TermsMeaning(v, m, env, f.args);
    AppEval(v.preds, m, env, f.pred, TermSexps(f.args));
  }

  lemma EquationMeaning<D(!new)>(v: Vocabulary, m: Structure<D>, env: map<string, D>, f: Formula)
    requires Proper(v) && Within(v, f) && env.Keys <= v.vars && (f.Equality? || f.Inequality?)
    ensures EvalBool(v.preds, m, env, FormulaSexp(f)) <==> FormulaVal(m, env, f)
  {
    match f
    case Equality(a, b) => EqualityMeaning(v, m, env, a, b);
    case Inequality(a, b) =>
      EqualityMeaning(v, m, env, a, b);
      NotEval(v.preds, m, env, App("=", [TermSexp(a), TermSexp(b)]));
  }

  lemma EqualityMeaning<D(!new)>(v: Vocabulary, m: Structure<D>, env: map<string, D>, a: Term, b: Term)
    requires Proper(v) && Within(v, Equality(a, b)) && env.Keys <= v.vars
    ensures EvalBool(v.preds, m, env, App("=", [TermSexp(a), TermSexp(b)]))
       <==> TermVal(m, env, a) == TermVal(m, env, b)
  {
    NamesOfUnion(TermUses(a), TermUses(b));
    TermMeaning(v, m, env, a);
    TermMeaning(v, m, env, b);
    AppEval(v.preds, m, env, "=", [TermSexp(a), TermSexp(b)]);
  }

  lemma BinaryEval<D(!new)>(preds: set<string>, m: Structure<D>, env: map<string, D>, a: Sexp, b: Sexp)
    ensures EvalBool(preds, m, env, App("=>", [a, b])) <==> (EvalBool(preds, m, env, a) ==> EvalBool(preds, m, env, b))
    ensures IsBool(preds, env.Keys, a) ==>
              (EvalBool(preds, m, env, App("=", [a, b]))
               <==> (EvalBool(preds, m, env, a) <==> EvalBool(preds, m, env, b)))
  {
    AppEval(preds, m, env, "=>", [a, b]);
    AppEval(preds, m, env, "=", [a, b]);
  }

  lemma WithinBoth(v: Vocabulary, g: Formula, h: Formula)
    requires Within(v, Implies(g, h)) || Within(v, Iff(g, h))
    ensures Within(v, g) && Within(v, h)
  {
    NamesOfUnion(PredicateUses(g), PredicateUses(h));
    NamesOfUnion(FunctionUses(g), FunctionUses(h));
  }

  lemma {:induction false} BodyMeaning<D(!new)>(v: Vocabulary, m: Structure<D>, env: map<string, D>, vars: seq<string>,
                                                g: Formula)
    requires Proper(v) && Within(v, g) && Names(vars) <= v.vars && env.Keys <= v.vars
    ensures BodyMeans(v.preds, m, env, vars, g)
    decreases g, 2
  {
    forall ds: seq<D> | |ds| == |vars|
      ensures EvalBool(v.preds, m, Bind(env, vars, ds), FormulaSexp(g)) <==> FormulaVal(m, Bind(env, vars, ds), g)
    {
      BindKeys(env, vars, ds);
      FormulaMeaning(v, m, Bind(env, vars, ds), g);
    }
  }

  lemma {:induction false} ConnectiveMeaning<D(!new)>(v: Vocabulary, m: Structure<D>, env: map<string, D>,
                                                      fs: seq<Formula>)
    requires Proper(v) && AllWithin(v, fs) && env.Keys <= v.vars
    ensures EvalBool(v.preds, m, env, Connective("and", "true", FormulaSexps(fs))) <==> AllTrue(m, env, fs)
    ensures EvalBool(v.preds, m, env, Connective("or", "false", FormulaSexps(fs))) <==> SomeTrue(m, env, fs)
    decreases fs, 2
  {
    OperandsMeaning(v, m, env, fs);
    ConstantsEval(v.preds, m, env);
    if |fs| == 1 {
      NamesOfUnion(PredicateUses(fs[0]), PredicateUsesOfAll(fs[1..]));
      NamesOfUnion(FunctionUses(fs[0]), FunctionUsesOfAll(fs[1..]));
      FormulaMeaning(v, m, env, fs[0]);
    } else {
      OperandsEval(v.preds, m, env, FormulaSexps(fs));
    }
  }

  lemma OperandsEval<D(!new)>(preds: set<string>, m: Structure<D>, env: map<string, D>, args: seq<Sexp>)
    ensures EvalBool(preds, m, env, App("and", args)) <==> EvalAll(preds, m, env, args)
    ensures EvalBool(preds, m, env, App("or", args)) <==> EvalSome(preds, m, env, args)
  {
    AppEval(preds, m, env, "and", args);
    AppEval(preds, m, env, "or", args);
  }

  lemma {:induction false} OperandsMeaning<D(!new)>(v: Vocabulary, m: Structure<D>, env: map<string, D>,
                                                    fs: seq<Formula>)
    requires Proper(v) && AllWithin(v, fs) && env.Keys <= v.vars
    ensures EvalAll(v.preds, m, env, FormulaSexps(fs)) <==> AllTrue(m, env, fs)
    ensures EvalSome(v.preds, m, env, FormulaSexps(fs)) <==> SomeTrue(m, env, fs)
    decreases fs, 1
  {
    if fs != [] {
      NamesOfUnion(PredicateUses(fs[0]), PredicateUsesOfAll(fs[1..]));
      NamesOfUnion(FunctionUses(fs[0]), FunctionUsesOfAll(fs[1..]));
      FormulaMeaning(v, m, env, fs[0]);
      OperandsMeaning(v, m, env, fs[1..]);
      assert FormulaSexps(fs)[1..] == FormulaSexps(fs[1..]);
    }
  }
}
