/** The fast path of a DIMACS file (processor.rs:663-733), straight to the SAT core. */
module DimacsSat {
  import opened Dimacs
  import opened DimacsRoundTrip
  import opened DimacsSmt
  import opened DimacsMeaning
  import opened SolverContext

  datatype SatLiteral = SatLiteral(variable: nat, positive: bool)

  /** Values of the SAT core's variables, counted from 0. */
  type SatModel = int -> bool

  predicate SatLiteralTrue(m: SatModel, literal: SatLiteral) { m(literal.variable) == literal.positive }

  predicate SatClauseTrue(m: SatModel, clause: seq<SatLiteral>) {
    exists i :: 0 <= i < |clause| && SatLiteralTrue(m, clause[i])
  }

  predicate SatCnfTrue(m: SatModel, clauses: seq<seq<SatLiteral>>) {
    forall i :: 0 <= i < |clauses| ==> SatClauseTrue(m, clauses[i])
  }

  ghost predicate SatSatisfiable(clauses: seq<seq<SatLiteral>>) {
    exists m: SatModel :: SatCnfTrue(m, clauses)
  }

  type SatOracle = seq<seq<SatLiteral>> -> Answer

  /** The core may give up, but does not lie. */
  ghost predicate HonestCore(oracle: SatOracle) {
    forall clauses :: RightFor(SatSatisfiable(clauses), oracle(clauses))
  }

  ghost predicate RightFor(satisfiable: bool, answer: Answer) {
    (answer == Sat ==> satisfiable) && (answer == Unsat ==> !satisfiable)
  }

  class SatCore {
    var vars: nat
    var clauses: seq<seq<SatLiteral>>

    constructor ()
      ensures vars == 0 && clauses == []
    {
      vars, clauses := 0, [];
    }

    method NewVar()
      modifies this
      ensures vars == old(vars) + 1 && clauses == old(clauses)
    {
      vars := vars + 1;
    }

    /** Literals are over variables the core has made. */
    method AddClause(clause: seq<SatLiteral>)
      requires forall i :: 0 <= i < |clause| ==> clause[i].variable < vars
      modifies this
      ensures vars == old(vars) && clauses == old(clauses) + [clause]
    {
      clauses := clauses + [clause];
    }
  }

  function SatLiteralOf(literal: int): SatLiteral
    requires literal != 0
  {
    SatLiteral(Magnitude(literal) - 1, literal > 0)
  }

  /** The core's clause for a clause of the problem. */
  ghost predicate IsSatClause(sat: seq<SatLiteral>, clause: seq<int>) {
    |sat| == |clause| && forall i :: 0 <= i < |clause| ==> clause[i] != 0 && sat[i] == SatLiteralOf(clause[i])
  }

  ghost predicate AreSatClauses(sat: seq<seq<SatLiteral>>, clauses: seq<seq<int>>) {
    |sat| == |clauses| && forall i :: 0 <= i < |clauses| ==> IsSatClause(sat[i], clauses[i])
  }

  /** Variable v of the problem is variable v - 1 of the core. */
  ghost predicate Shifted(m: SatModel, a: Assignment) {
    forall v: nat :: m(v) == a(v + 1)
  }

  lemma SatClauseMeaning(m: SatModel, a: Assignment, sat: seq<SatLiteral>, clause: seq<int>)
    requires Shifted(m, a) && IsSatClause(sat, clause)
    ensures SatClauseTrue(m, sat) == ClauseTrue(a, clause)
  {
    forall i | 0 <= i < |clause|
      ensures SatLiteralTrue(m, sat[i]) == LiteralTrue(a, clause[i])
    {
      assert m(sat[i].variable) == a(sat[i].variable + 1);
    }
  }

  lemma SatCnfMeaning(m: SatModel, a: Assignment, sat: seq<seq<SatLiteral>>, clauses: seq<seq<int>>)
    requires Shifted(m, a) && AreSatClauses(sat, clauses)
    ensures SatCnfTrue(m, sat) == CnfTrue(a, clauses)
  {
    forall i | 0 <= i < |clauses|
      ensures SatClauseTrue(m, sat[i]) == ClauseTrue(a, clauses[i])
    {
      SatClauseMeaning(m, a, sat[i], clauses[i]);
    }
  }

  /** The clauses fed to the core are satisfiable exactly when the problem is. */
  lemma SatSatisfiableIff(sat: seq<seq<SatLiteral>>, clauses: seq<seq<int>>)
    requires AreSatClauses(sat, clauses)
    ensures SatSatisfiable(sat) <==> CnfSatisfiable(clauses)
  {
    if SatSatisfiable(sat) {
      var m: SatModel :| SatCnfTrue(m, sat);
      var a: Assignment := v => m(v - 1);
      SatCnfMeaning(m, a, sat, clauses);
    }
    if CnfSatisfiable(clauses) {
      var a: Assignment :| CnfTrue(a, clauses);
      var m: SatModel := v => a(v + 1);
      SatCnfMeaning(m, a, sat, clauses);
    }
  }

  /** An empty clause alone makes a problem, and its script, unsatisfiable. */
  lemma EmptyClauseUnsatisfiable(clauses: seq<seq<int>>, i: nat)
    requires i < |clauses| && clauses[i] == []
    ensures !CnfSatisfiable(clauses) && !ScriptSatisfiable(ClauseSexps(clauses))
  {
    forall env: Env
      ensures !DimacsMeaning.AllHold(env, ClauseSexps(clauses))
    {
      assert !Holds(env, ClauseSexps(clauses)[i]);
    }
    forall a: Assignment
      ensures !CnfTrue(a, clauses)
    {
      assert !ClauseTrue(a, clauses[i]);
    }
  }

  method LiteralsOf(clause: seq<int>, numVars: nat) returns (sat: seq<SatLiteral>)
    requires Declared(clause, numVars)
    ensures IsSatClause(sat, clause) && forall i :: 0 <= i < |sat| ==> sat[i].variable < numVars
  {
    sat := [];
    for i := 0 to |clause|
      invariant |sat| == i && forall k :: 0 <= k < i ==> sat[k] == SatLiteralOf(clause[k]) && sat[k].variable < numVars
    {
      sat := sat + [SatLiteralOf(clause[i])];
    }
  }

  /** The verdict is right for the problem; an empty clause gives unsat before the core is asked. */
  method FastPath(x: Cnf, oracle: SatOracle) returns (answer: Answer)
    requires AllDeclared(x.clauses, x.numVars) && HonestCore(oracle)
    ensures RightFor(CnfSatisfiable(x.clauses), answer)
    ensures (exists i :: 0 <= i < |x.clauses| && x.clauses[i] == []) ==> answer == Unsat
    ensures (forall clauses :: oracle(clauses) != Unknown) ==> answer != Unknown
  {
    var sat := new SatCore();
    for i := 0 to x.numVars
      invariant sat.vars == i && sat.clauses == []
    {
      sat.NewVar();
    }
    for i := 0 to |x.clauses|
      invariant sat.vars == x.numVars && AreSatClauses(sat.clauses, x.clauses[..i])
      invariant forall k :: 0 <= k < i ==> x.clauses[k] != []
    {
      var clause := x.clauses[i];
      if clause == [] {
        EmptyClauseUnsatisfiable(x.clauses, i);
        return Unsat;
      }
      var literals := LiteralsOf(clause, x.numVars);
      assert x.clauses[..i + 1] == x.clauses[..i] + [clause];
      sat.AddClause(literals);
    }
    assert x.clauses[..|x.clauses|] == x.clauses;
    SatSatisfiableIff(sat.clauses, x.clauses);
    answer := oracle(sat.clauses);
  }

  /** The fast path and the SMT-LIB route never contradict each other, and agree when neither gives up. */
  lemma RoutesAgree(clauses: seq<seq<int>>, fast: Answer, smt: Answer)
    requires ClausesInRange(clauses)
    requires RightFor(CnfSatisfiable(clauses), fast) && RightFor(ScriptSatisfiable(ClauseSexps(clauses)), smt)
    ensures fast == smt || fast == Unknown || smt == Unknown
  {
    ScriptSatisfiableIff(clauses);
  }
}
