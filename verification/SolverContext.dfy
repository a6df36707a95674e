/** The solver as its callers see it: a stack of assertions and an oracle for check-sat whose
    answers may depend on the call (tick) but never lie about the assertions. */
module SolverContext {
  datatype Answer = Sat | Unsat | Unknown

  /** Which models an assertion allows. */
  type Meaning<!M(!new), !A(!new)> = (M, A) -> bool

  ghost predicate AllHold<M(!new), A(!new)>(holds: Meaning<M, A>, m: M, assertions: seq<A>) {
    forall i :: 0 <= i < |assertions| ==> holds(m, assertions[i])
  }

  ghost predicate Satisfiable<M(!new), A(!new)>(holds: Meaning<M, A>, assertions: seq<A>) {
    exists m :: AllHold(holds, m, assertions)
  }

  ghost predicate RightAnswer<M(!new), A(!new)>(holds: Meaning<M, A>, assertions: seq<A>, answer: Answer) {
    && (answer == Sat ==> Satisfiable(holds, assertions))
    && (answer == Unsat ==> !Satisfiable(holds, assertions))
  }

  /** Unknown is always allowed; Sat and Unsat must be right. */
  ghost predicate Sound<M(!new), A(!new)>(holds: Meaning<M, A>, oracle: (nat, seq<A>) -> Answer) {
    forall tick, assertions :: RightAnswer(holds, assertions, oracle(tick, assertions))
  }

  ghost predicate Decisive<A(!new)>(oracle: (nat, seq<A>) -> Answer) {
    forall tick, assertions :: oracle(tick, assertions) != Unknown
  }
}
