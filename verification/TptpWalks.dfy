/** The explicit-stack walks over terms and formulas (tptp.rs), each refining its recursive
    definition for every input. */
module TptpWalks {
  import opened TptpSyntax

  // ================================================================ collecting over terms

  lemma {:induction false} TermsAppend(a: seq<Term>, b: seq<Term>)
    ensures TermsVars(a + b) == TermsVars(a) + TermsVars(b)
    ensures TermsUses(a + b) == TermsUses(a) + TermsUses(b)
    ensures TermsSize(a + b) == TermsSize(a) + TermsSize(b)
  {
    if a == [] {
      assert a + b == b;
    } else {
      assert (a + b)[1..] == a[1..] + b;
      TermsAppend(a[1..], b);
    }
  }

  lemma TermsPop(stack: seq<Term>)
    requires stack != []
    ensures var rest, top := stack[..|stack| - 1], stack[|stack| - 1];
            && TermsVars(stack) == TermsVars(rest) + TermVars(top)
            && TermsUses(stack) == TermsUses(rest) + TermUses(top)
            && TermsSize(stack) == TermsSize(rest) + TermSize(top)
  {
    var rest, top := stack[..|stack| - 1], stack[|stack| - 1];
    assert stack == rest + [top];
    TermsAppend(rest, [top]);
  }

  method CollectVariables(self: Term, into: set<string>) returns (vars: set<string>)
    ensures vars == into + TermVars(self)
  {
    vars := into;
    var stack := [self];
    while stack != []
      invariant vars + TermsVars(stack) == into + TermVars(self)
      decreases TermsSize(stack)
    {
      TermsPop(stack);
      var term := stack[|stack| - 1];
      stack := stack[..|stack| - 1];
      match term
      case Variable(name) => vars := vars + {name};
      case Constant(_) =>
      case Function(_, args) =>
        TermsAppend(stack, args);
        stack := stack + args;
    }
  }

  /** A symbol table records only arities that occur: the map a walk leaves behind knows exactly
      the names used so far, each with one of the arities it was used at. */
  ghost predicate Records(table: map<string, nat>, uses: set<Use>) {
    && (forall u :: u in uses ==> u.0 in table)
    && (forall n :: n in table ==> (n, table[n]) in uses)
  }

  /** Every name is used at one arity only. */
  ghost predicate Consistent(uses: set<Use>) {
    forall u, u' :: u in uses && u' in uses && u.0 == u'.0 ==> u.1 == u'.1
  }

  /** The table holds exactly the uses if and only if no name is used at two arities. */
  lemma ConsistentTable(table: map<string, nat>, uses: set<Use>)
    requires Records(table, uses)
    ensures (forall n: string, a: nat :: (n, a) in uses <==> n in table && table[n] == a) <==> Consistent(uses)
  {
    if Consistent(uses) {
      forall n: string, a: nat
        ensures (n, a) in uses <==> n in table && table[n] == a
      {
        if (n, a) in uses {
          assert (n, a).0 in table && (n, table[n]) in uses;
        }
      }
    }
    if forall n: string, a: nat :: (n, a) in uses <==> n in table && table[n] == a {
      forall u, u' | u in uses && u' in uses && u.0 == u'.0
        ensures u.1 == u'.1
      {
        assert (u.0, u.1) in uses && (u'.0, u'.1) in uses;
      }
    }
  }

  method CollectFunctionsFromTerm(term: Term, table: map<string, nat>, ghost before: set<Use>)
    returns (functions: map<string, nat>)
    requires Records(table, before)
    ensures Records(functions, before + TermUses(term))
  {
    functions := table;
    var stack := [term];
    ghost var seen := before;
    while stack != []
      invariant Records(functions, seen)
      invariant seen + TermsUses(stack) == before + TermUses(term)
      decreases TermsSize(stack)
    {
      TermsPop(stack);
      var current := stack[|stack| - 1];
      stack := stack[..|stack| - 1];
      seen := seen
        + (match current case Variable(_) => {} case Constant(c) => {(c, 0)} case Function(f, args) => {(f, |args|)});
      match current
      case Variable(_) =>
      case Constant(name) =>
        if name !in functions {
          functions := functions[name := 0];
        }
      case Function(name, args) =>
        functions := functions[name := |args|];
        TermsAppend(stack, args);
        stack := stack + args;
    }
  }

  // ================================================================ collecting over formulas

  lemma {:induction false} FormulasAppend(a: seq<Formula>, b: seq<Formula>)
    ensures FunctionUsesOfAll(a + b) == FunctionUsesOfAll(a) + FunctionUsesOfAll(b)
    ensures PredicateUsesOfAll(a + b) == PredicateUsesOfAll(a) + PredicateUsesOfAll(b)
    ensures FormulasSize(a + b) == FormulasSize(a) + FormulasSize(b)
  {
    if a == [] {
      assert a + b == b;
    } else {
      assert (a + b)[1..] == a[1..] + b;
      FormulasAppend(a[1..], b);
    }
  }

  lemma FormulasPop(stack: seq<Formula>)
    requires stack != []
    ensures var rest, top := stack[..|stack| - 1], stack[|stack| - 1];
            && FunctionUsesOfAll(stack) == FunctionUsesOfAll(rest) + FunctionUses(top)
            && PredicateUsesOfAll(stack) == PredicateUsesOfAll(rest) + PredicateUses(top)
            && FormulasSize(stack) == FormulasSize(rest) + FormulaSize(top)
  {
    var rest, top := stack[..|stack| - 1], stack[|stack| - 1];
    assert stack == rest + [top];
    FormulasAppend(rest, [top]);
  }

  /** The subformulas a collecting walk pushes when it pops f. */
  function Children(f: Formula): seq<Formula> {
    match f
    case Not(g) => [g]
    case And(fs) => fs
    case Or(fs) => fs
    case Implies(g, h) => [g, h]
    case Iff(g, h) => [g, h]
    case Forall(_, g) => [g]
    case Exists(_, g) => [g]
    case _ => []
  }

  lemma ChildrenCover(f: Formula)
    ensures FormulasSize(Children(f)) < FormulaSize(f)
    ensures PredicateUses(f) == PredicateUsesOfAll(Children(f)) + (if f.Atom? then {(f.pred, |f.args|)} else {})
    ensures !f.Atom? && !f.Equality? && !f.Inequality? ==> FunctionUses(f) == FunctionUsesOfAll(Children(f))
  {
    match f
    case Implies(g, h) => PairCover(g, h);
    case Iff(g, h) => PairCover(g, h);
    case _ =>
  }

  lemma PairCover(g: Formula, h: Formula)
    ensures FormulasSize([g, h]) == FormulaSize(g) + FormulaSize(h)
    ensures PredicateUsesOfAll([g, h]) == PredicateUses(g) + PredicateUses(h)
    ensures FunctionUsesOfAll([g, h]) == FunctionUses(g) + FunctionUses(h)
  {
    FormulasAppend([g], [h]);
    assert [g] + [h] == [g, h];
  }

  /** One turn of the predicate walk. */
  method VisitPredicate(formula: Formula, stackIn: seq<Formula>, table: map<string, nat>)
    returns (stack: seq<Formula>, predicates: map<string, nat>)
    ensures stack == stackIn + Children(formula)
    ensures predicates == if formula.Atom? then table[formula.pred := |formula.args|] else table
  {
    stack, predicates := stackIn, table;
    match formula
    case Atom(name, args) => predicates := predicates[name := |args|];
    case Equality(_, _) =>
    case Inequality(_, _) =>
    case Not(f) => stack := stack + [f];
    case And(fs) => stack := stack + fs;
    case Or(fs) => stack := stack + fs;
    case Implies(f1, f2) => stack := stack + [f1, f2];
    case Iff(f1, f2) => stack := stack + [f1, f2];
    case Forall(_, f) => stack := stack + [f];
    case Exists(_, f) => stack := stack + [f];
    case True =>
    case False =>
  }

  method CollectPredicates(self: Formula, table: map<string, nat>, ghost before: set<Use>)
    returns (predicates: map<string, nat>)
    requires Records(table, before)
    ensures Records(predicates, before + PredicateUses(self))
  {
    predicates := table;
    var stack := [self];
    ghost var seen := before;
    while stack != []
      invariant Records(predicates, seen)
      invariant seen + PredicateUsesOfAll(stack) == before + PredicateUses(self)
      decreases FormulasSize(stack)
    {
      FormulasPop(stack);
      var formula := stack[|stack| - 1];
      stack := stack[..|stack| - 1];
      ChildrenCover(formula);
      FormulasAppend(stack, Children(formula));
      stack, predicates := VisitPredicate(formula, stack, predicates);
      if formula.Atom? {
        seen := seen + {(formula.pred, |formula.args|)};
      }
    }
  }

  method CollectFunctionsFromTerms(terms: seq<Term>, table: map<string, nat>, ghost before: set<Use>)
    returns (functions: map<string, nat>)
    requires Records(table, before)
    ensures Records(functions, before + TermsUses(terms))
  {
    functions := table;
    for i := 0 to |terms|
      invariant Records(functions, before + TermsUses(terms[..i]))
    {
      TermsPop(terms[..i + 1]);
      assert terms[..i + 1][..i] == terms[..i];
      functions := CollectFunctionsFromTerm(terms[i], functions, before + TermsUses(terms[..i]));
      assert before + TermsUses(terms[..i + 1]) == before + TermsUses(terms[..i]) + TermUses(terms[i]);
    }
    assert terms[..|terms|] == terms;
  }

  method CollectFunctions(self: Formula, table: map<string, nat>, ghost before: set<Use>)
    returns (functions: map<string, nat>)
    requires Records(table, before)
    ensures Records(functions, before + FunctionUses(self))
  {
    functions := table;
    var stack := [self];
    ghost var seen := before;
    while stack != []
      invariant Records(functions, seen)
      invariant seen + FunctionUsesOfAll(stack) == before + FunctionUses(self)
      decreases FormulasSize(stack)
    {
      FormulasPop(stack);
      var formula := stack[|stack| - 1];
      stack := stack[..|stack| - 1];
      ChildrenCover(formula);
      FormulasAppend(stack, Children(formula));
      match formula
      case Atom(_, args) =>
        functions := CollectFunctionsFromTerms(args, functions, seen);
        seen := seen + TermsUses(args);
      case Equality(t1, t2) =>
        functions := CollectFunctionsFromTerm(t1, functions, seen);
        functions := CollectFunctionsFromTerm(t2, functions, seen + TermUses(t1));
        seen := seen + TermUses(t1) + TermUses(t2);
      case Inequality(t1, t2) =>
        functions := CollectFunctionsFromTerm(t1, functions, seen);
        functions := CollectFunctionsFromTerm(t2, functions, seen + TermUses(t1));
        seen := seen + TermUses(t1) + TermUses(t2);
      case Not(f) => stack := stack + [f];
      case And(fs) => stack := stack + fs;
      case Or(fs) => stack := stack + fs;
      case Implies(f1, f2) => stack := stack + [f1, f2];
      case Iff(f1, f2) => stack := stack + [f1, f2];
      case Forall(_, f) => stack := stack + [f];
      case Exists(_, f) => stack := stack + [f];
      case True =>
      case False =>
    }
  }

  // ================================================================ free variables

  type Frame = (Formula, nat)

  ghost predicate ScopesValid(stack: seq<Frame>, scopes: seq<set<string>>) {
    forall i :: 0 <= i < |stack| ==> stack[i].1 < |scopes|
  }

  /** x is among what the frames still on the stack will contribute, each under its own scope. */
  ghost predicate Pending(x: string, stack: seq<Frame>, scopes: seq<set<string>>)
    requires ScopesValid(stack, scopes)
  {
    exists i :: 0 <= i < |stack| && Contributes(x, stack[i], scopes)
  }

  ghost predicate Contributes(x: string, frame: Frame, scopes: seq<set<string>>)
    requires frame.1 < |scopes|
  {
    x in FreeVars(frame.0) && x !in scopes[frame.1]
  }

  function FramesSize(stack: seq<Frame>): nat {
    if stack == [] then 0 else FormulaSize(stack[0].0) + FramesSize(stack[1..])
  }

  lemma {:induction false} FramesSizeAppend(a: seq<Frame>, b: seq<Frame>)
    ensures FramesSize(a + b) == FramesSize(a) + FramesSize(b)
  {
    if a == [] {
      assert a + b == b;
    } else {
      assert (a + b)[1..] == a[1..] + b;
      FramesSizeAppend(a[1..], b);
    }
  }

  function FramesFor(fs: seq<Formula>, scope: nat): (frames: seq<Frame>)
    ensures |frames| == |fs|
    ensures forall i :: 0 <= i < |fs| ==> frames[i] == (fs[i], scope)
  {
    seq(|fs|, i requires 0 <= i < |fs| => (fs[i], scope))
  }

  lemma {:induction false} FramesForSize(fs: seq<Formula>, scope: nat)
    ensures FramesSize(FramesFor(fs, scope)) == FormulasSize(fs)
  {
    if fs != [] {
      assert FramesFor(fs, scope)[1..] == FramesFor(fs[1..], scope);
      FramesForSize(fs[1..], scope);
    }
  }

  lemma {:induction false} FreeVarsOfAllMember(fs: seq<Formula>, x: string)
    ensures x in FreeVarsOfAll(fs) <==> exists i :: 0 <= i < |fs| && x in FreeVars(fs[i])
  {
    if fs != [] {
      FreeVarsOfAllMember(fs[1..], x);
      if i :| 0 <= i < |fs[1..]| && x in FreeVars(fs[1..][i]) {
        assert fs[1..][i] == fs[i + 1];
      }
      if i :| 0 <= i < |fs| && x in FreeVars(fs[i]) {
        assert i > 0 ==> fs[1..][i - 1] == fs[i];
      }
    }
  }

  method CollectTermsVariables(terms: seq<Term>) returns (vars: set<string>)
    ensures vars == TermsVars(terms)
  {
    vars := {};
    for i := 0 to |terms|
      invariant vars == TermsVars(terms[..i])
    {
      TermsPop(terms[..i + 1]);
      assert terms[..i + 1][..i] == terms[..i];
      vars := CollectVariables(terms[i], vars);
    }
    assert terms[..|terms|] == terms;
  }

  /** The scope table holds one set of bound names per quantifier entered; a frame carries the
      index of its scope. Visiting a frame adds the variables of an atom, or pushes subformulas,
      under a new scope if the frame is a quantifier. */
  function ScopesAfter(f: Formula, scope: nat, scopes: seq<set<string>>): seq<set<string>>
    requires scope < |scopes|
  {
    if f.Forall? || f.Exists? then scopes + [scopes[scope] + Names(f.vars)] else scopes
  }

  function FramesOf(f: Formula, scope: nat, scopes: seq<set<string>>): seq<Frame>
    requires scope < |scopes|
  {
    match f
    case Not(g) => [(g, scope)]
    case And(fs) => FramesFor(fs, scope)
    case Or(fs) => FramesFor(fs, scope)
    case Implies(g, h) => [(g, scope), (h, scope)]
    case Iff(g, h) => [(g, scope), (h, scope)]
    case Forall(_, g) => [(g, |scopes|)]
    case Exists(_, g) => [(g, |scopes|)]
    case _ => []
  }

  function OwnVars(f: Formula): set<string> {
    match f
    case Atom(_, args) => TermsVars(args)
    case Equality(a, b) => TermVars(a) + TermVars(b)
    case Inequality(a, b) => TermVars(a) + TermVars(b)
    case _ => {}
  }

  lemma FramesOfSmaller(f: Formula, scope: nat, scopes: seq<set<string>>)
    requires scope < |scopes|
    ensures ScopesValid(FramesOf(f, scope, scopes), ScopesAfter(f, scope, scopes))
    ensures FramesSize(FramesOf(f, scope, scopes)) < FormulaSize(f)
  {
    match f
    case And(fs) => FramesForSize(fs, scope);
    case Or(fs) => FramesForSize(fs, scope);
    case Implies(g, h) =>
      FramesSizeAppend([(g, scope)], [(h, scope)]);
      assert [(g, scope)] + [(h, scope)] == [(g, scope), (h, scope)];
    case Iff(g, h) =>
      FramesSizeAppend([(g, scope)], [(h, scope)]);
      assert [(g, scope)] + [(h, scope)] == [(g, scope), (h, scope)];
    case _ =>
  }

  lemma FramesOfCover(f: Formula, scope: nat, scopes: seq<set<string>>, x: string)
    requires scope < |scopes|
    requires ScopesValid(FramesOf(f, scope, scopes), ScopesAfter(f, scope, scopes))
    ensures Contributes(x, (f, scope), scopes)
            <==> (x in OwnVars(f) && x !in scopes[scope])
                 || Pending(x, FramesOf(f, scope, scopes), ScopesAfter(f, scope, scopes))
  {
    var frames, scopes' := FramesOf(f, scope, scopes), ScopesAfter(f, scope, scopes);
    if f.And? || f.Or? {
      var fs := Children(f);
      FreeVarsOfAllMember(fs, x);
      assert forall i :: 0 <= i < |fs| ==>
        (Contributes(x, frames[i], scopes') <==> x in FreeVars(fs[i]) && x !in scopes[scope]);
    } else if f.Implies? || f.Iff? {
      assert Contributes(x, frames[0], scopes') <==> x in FreeVars(f.left) && x !in scopes[scope];
      assert Contributes(x, frames[1], scopes') <==> x in FreeVars(f.right) && x !in scopes[scope];
    } else if f.Not? || f.Forall? || f.Exists? {
      assert Pending(x, frames, scopes') <==> Contributes(x, frames[0], scopes');
    }
  }

  lemma VisitFrame(f: Formula, scope: nat, scopes: seq<set<string>>, rest: seq<Frame>)
    requires scope < |scopes| && ScopesValid(rest, scopes)
    ensures var frames, scopes' := FramesOf(f, scope, scopes), ScopesAfter(f, scope, scopes);
            && ScopesValid(rest + frames, scopes')
            && FramesSize(rest + frames) < FramesSize(rest + [(f, scope)])
            && forall x :: Pending(x, rest + [(f, scope)], scopes)
                 <==> (x in OwnVars(f) && x !in scopes[scope]) || Pending(x, rest + frames, scopes')
  {
    var frames, scopes' := FramesOf(f, scope, scopes), ScopesAfter(f, scope, scopes);
    FramesOfSmaller(f, scope, scopes);
    FramesSizeAppend(rest, [(f, scope)]);
    FramesSizeAppend(rest, frames);
    forall x
      ensures Pending(x, rest + [(f, scope)], scopes)
        <==> (x in OwnVars(f) && x !in scopes[scope]) || Pending(x, rest + frames, scopes')
    {
      FramesOfCover(f, scope, scopes, x);
      PendingAppend(x, rest, [(f, scope)], scopes);
      PendingAppend(x, rest, frames, scopes');
      assert Pending(x, [(f, scope)], scopes) <==> Contributes(x, [(f, scope)][0], scopes);
      assert forall i :: 0 <= i < |rest| ==> (Contributes(x, rest[i], scopes) <==> Contributes(x, rest[i], scopes'));
    }
  }

  lemma PendingAppend(x: string, a: seq<Frame>, b: seq<Frame>, scopes: seq<set<string>>)
    requires ScopesValid(a, scopes) && ScopesValid(b, scopes)
    ensures Pending(x, a + b, scopes) <==> Pending(x, a, scopes) || Pending(x, b, scopes)
  {
    if i :| 0 <= i < |b| && Contributes(x, b[i], scopes) {
      assert (a + b)[|a| + i] == b[i];
    }
    if i :| 0 <= i < |a| && Contributes(x, a[i], scopes) {
      assert (a + b)[i] == a[i];
    }
  }

  /** One turn of the loop below. */
  method VisitFreeVariables(formula: Formula, scope: nat, scopesIn: seq<set<string>>, stackIn: seq<Frame>,
                            freeIn: set<string>)
    returns (scopes: seq<set<string>>, stack: seq<Frame>, free: set<string>)
    requires scope < |scopesIn|
    ensures scopes == ScopesAfter(formula, scope, scopesIn)
    ensures stack == stackIn + FramesOf(formula, scope, scopesIn)
    ensures free == freeIn + (OwnVars(formula) - scopesIn[scope])
  {
    scopes, stack, free := scopesIn, stackIn, freeIn;
    match formula
    case Atom(_, args) =>
      var termVars := CollectTermsVariables(args);
      free := free + (termVars - scopes[scope]);
    case Equality(t1, t2) =>
      var termVars := CollectVariables(t1, {});
      termVars := CollectVariables(t2, termVars);
      free := free + (termVars - scopes[scope]);
    case Inequality(t1, t2) =>
      var termVars := CollectVariables(t1, {});
      termVars := CollectVariables(t2, termVars);
      free := free + (termVars - scopes[scope]);
    case Not(f) => stack := stack + [(f, scope)];
    case And(fs) => stack := stack + FramesFor(fs, scope);
    case Or(fs) => stack := stack + FramesFor(fs, scope);
    case Implies(f1, f2) => stack := stack + [(f1, scope), (f2, scope)];
    case Iff(f1, f2) => stack := stack + [(f1, scope), (f2, scope)];
    case Forall(vars, f) =>
      scopes := scopes + [scopes[scope] + Names(vars)];
      stack := stack + [(f, |scopes| - 1)];
    case Exists(vars, f) =>
      scopes := scopes + [scopes[scope] + Names(vars)];
      stack := stack + [(f, |scopes| - 1)];
    case True =>
    case False =>
  }

  method CollectFreeVariables(self: Formula, into: set<string>, bound: set<string>) returns (free: set<string>)
    ensures free == into + (FreeVars(self) - bound)
  {
    free := into;
    var scopes := [bound];
    var stack: seq<Frame> := [(self, 0)];
    while stack != []
      invariant ScopesValid(stack, scopes)
      invariant forall x ::
                  x in free || Pending(x, stack, scopes) <==> x in into || (x in FreeVars(self) && x !in bound)
      decreases FramesSize(stack)
    {
      var (formula, scope) := stack[|stack| - 1];
      var rest := stack[..|stack| - 1];
      assert stack == rest + [(formula, scope)];
      VisitFrame(formula, scope, scopes, rest);
      scopes, stack, free := VisitFreeVariables(formula, scope, scopes, rest, free);
    }
  }

  method FreeVariables(self: Formula) returns (free: set<string>)
    ensures free == FreeVars(self)
  {
    free := CollectFreeVariables(self, {}, {});
  }
}
