/** First-order formulas as the TPTP front end represents them (tptp.rs), with the textbook
    notions the explicit-stack walks are measured against. */
module TptpSyntax {

  datatype Term =
    | Variable(name: string)
    | Constant(name: string)
    | Function(name: string, args: seq<Term>)

  datatype Formula =
    | Atom(pred: string, args: seq<Term>)
    | Equality(lhs: Term, rhs: Term)
    | Inequality(lhs: Term, rhs: Term)
    | Not(body: Formula)
    | And(conjuncts: seq<Formula>)
    | Or(disjuncts: seq<Formula>)
    | Implies(left: Formula, right: Formula)
    | Iff(left: Formula, right: Formula)
    | Forall(vars: seq<string>, body: Formula)
    | Exists(vars: seq<string>, body: Formula)
    | True
    | False

  /** A name together with the number of arguments it is applied to. */
  type Use = (string, nat)

  // ---------------------------------------------------------------- sizes

  function TermSize(t: Term): (n: nat)
    ensures n >= 1
  {
    match t
    case Function(_, args) => 1 + TermsSize(args)
    case _ => 1
  }

  function TermsSize(ts: seq<Term>): (n: nat)
    ensures n >= |ts|
  {
    if ts == [] then 0 else TermSize(ts[0]) + TermsSize(ts[1..])
  }

  function FormulaSize(f: Formula): (n: nat)
    ensures n >= 1
  {
    match f
    case Not(g) => 1 + FormulaSize(g)
    case And(fs) => 1 + FormulasSize(fs)
    case Or(fs) => 1 + FormulasSize(fs)
    case Implies(g, h) => 1 + FormulaSize(g) + FormulaSize(h)
    case Iff(g, h) => 1 + FormulaSize(g) + FormulaSize(h)
    case Forall(_, g) => 1 + FormulaSize(g)
    case Exists(_, g) => 1 + FormulaSize(g)
    case _ => 1
  }

  function FormulasSize(fs: seq<Formula>): (n: nat)
    ensures n >= |fs|
  {
    if fs == [] then 0 else FormulaSize(fs[0]) + FormulasSize(fs[1..])
  }

  // ---------------------------------------------------------------- variables and symbols

  function TermVars(t: Term): set<string> {
    match t
    case Variable(x) => {x}
    case Constant(_) => {}
    case Function(_, args) => TermsVars(args)
  }

  function TermsVars(ts: seq<Term>): set<string> {
    if ts == [] then {} else TermVars(ts[0]) + TermsVars(ts[1..])
  }

  function Names(vars: seq<string>): set<string> {
    set x | x in vars
  }

  function FreeVars(f: Formula): set<string> {
    match f
    case Atom(_, args) => TermsVars(args)
    case Equality(a, b) => TermVars(a) + TermVars(b)
    case Inequality(a, b) => TermVars(a) + TermVars(b)
    case Not(g) => FreeVars(g)
    case And(fs) => FreeVarsOfAll(fs)
    case Or(fs) => FreeVarsOfAll(fs)
    case Implies(g, h) => FreeVars(g) + FreeVars(h)
    case Iff(g, h) => FreeVars(g) + FreeVars(h)
    case Forall(vars, g) => FreeVars(g) - Names(vars)
    case Exists(vars, g) => FreeVars(g) - Names(vars)
    case True => {}
    case False => {}
  }

  function FreeVarsOfAll(fs: seq<Formula>): set<string> {
    if fs == [] then {} else FreeVars(fs[0]) + FreeVarsOfAll(fs[1..])
  }

  /** All variable names, free or bound. */
  function AllVars(f: Formula): set<string> {
    match f
    case Atom(_, args) => TermsVars(args)
    case Equality(a, b) => TermVars(a) + TermVars(b)
    case Inequality(a, b) => TermVars(a) + TermVars(b)
    case Not(g) => AllVars(g)
    case And(fs) => AllVarsOfAll(fs)
    case Or(fs) => AllVarsOfAll(fs)
    case Implies(g, h) => AllVars(g) + AllVars(h)
    case Iff(g, h) => AllVars(g) + AllVars(h)
    case Forall(vars, g) => AllVars(g) + Names(vars)
    case Exists(vars, g) => AllVars(g) + Names(vars)
    case True => {}
    case False => {}
  }

  function AllVarsOfAll(fs: seq<Formula>): set<string> {
    if fs == [] then {} else AllVars(fs[0]) + AllVarsOfAll(fs[1..])
  }

  /** Function symbols with the arities they are used at. */
  function TermUses(t: Term): set<Use> {
    match t
    case Variable(_) => {}
    case Constant(c) => {(c, 0)}
    case Function(f, args) => {(f, |args|)} + TermsUses(args)
  }

  function TermsUses(ts: seq<Term>): set<Use> {
    if ts == [] then {} else TermUses(ts[0]) + TermsUses(ts[1..])
  }

  function FunctionUses(f: Formula): set<Use> {
    match f
    case Atom(_, args) => TermsUses(args)
    case Equality(a, b) => TermUses(a) + TermUses(b)
    case Inequality(a, b) => TermUses(a) + TermUses(b)
    case Not(g) => FunctionUses(g)
    case And(fs) => FunctionUsesOfAll(fs)
    case Or(fs) => FunctionUsesOfAll(fs)
    case Implies(g, h) => FunctionUses(g) + FunctionUses(h)
    case Iff(g, h) => FunctionUses(g) + FunctionUses(h)
    case Forall(_, g) => FunctionUses(g)
    case Exists(_, g) => FunctionUses(g)
    case True => {}
    case False => {}
  }

  function FunctionUsesOfAll(fs: seq<Formula>): set<Use> {
    if fs == [] then {} else FunctionUses(fs[0]) + FunctionUsesOfAll(fs[1..])
  }

  /** Predicate symbols with the arities they are used at. */
  function PredicateUses(f: Formula): set<Use> {
    match f
    case Atom(p, args) => {(p, |args|)}
    case Equality(_, _) => {}
    case Inequality(_, _) => {}
    case Not(g) => PredicateUses(g)
    case And(fs) => PredicateUsesOfAll(fs)
    case Or(fs) => PredicateUsesOfAll(fs)
    case Implies(g, h) => PredicateUses(g) + PredicateUses(h)
    case Iff(g, h) => PredicateUses(g) + PredicateUses(h)
    case Forall(_, g) => PredicateUses(g)
    case Exists(_, g) => PredicateUses(g)
    case True => {}
    case False => {}
  }

  function PredicateUsesOfAll(fs: seq<Formula>): set<Use> {
    if fs == [] then {} else PredicateUses(fs[0]) + PredicateUsesOfAll(fs[1..])
  }

  /** Every place where a name stands for something, variables included, with its number of arguments; a
      quantifier's list of variables is no such place. */
  function TermOccurrences(t: Term): set<Use> {
    match t
    case Variable(x) => {(x, 0)}
    case Constant(c) => {(c, 0)}
    case Function(f, args) => {(f, |args|)} + TermsOccurrences(args)
  }

  function TermsOccurrences(ts: seq<Term>): set<Use> {
    if ts == [] then {} else TermOccurrences(ts[0]) + TermsOccurrences(ts[1..])
  }

  function Occurrences(f: Formula): set<Use> {
    match f
    case Atom(p, args) => {(p, |args|)} + TermsOccurrences(args)
    case Equality(a, b) => TermOccurrences(a) + TermOccurrences(b)
    case Inequality(a, b) => TermOccurrences(a) + TermOccurrences(b)
    case Not(g) => Occurrences(g)
    case And(fs) => OccurrencesOfAll(fs)
    case Or(fs) => OccurrencesOfAll(fs)
    case Implies(g, h) => Occurrences(g) + Occurrences(h)
    case Iff(g, h) => Occurrences(g) + Occurrences(h)
    case Forall(_, g) => Occurrences(g)
    case Exists(_, g) => Occurrences(g)
    case True => {}
    case False => {}
  }

  function OccurrencesOfAll(fs: seq<Formula>): set<Use> {
    if fs == [] then {} else Occurrences(fs[0]) + OccurrencesOfAll(fs[1..])
  }
}
