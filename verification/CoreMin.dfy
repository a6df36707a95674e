/** Deletion-based minimization of an unsatisfiable assertion set (core_min.rs). */
module CoreMin {
  import opened SolverContext

  class Context<A(!new)> {
    var assertions: seq<A>
    var tick: nat
    const oracle: (nat, seq<A>) -> Answer

    constructor (oracle: (nat, seq<A>) -> Answer, assertions: seq<A>)
      ensures this.oracle == oracle && this.assertions == assertions
    {
      this.oracle, this.assertions, tick := oracle, assertions, 0;
    }

    method ResetAssertions()
      modifies this
      ensures assertions == [] && tick == old(tick)
    {
      assertions := [];
    }

    method Assert(a: A)
      modifies this
      ensures assertions == old(assertions) + [a] && tick == old(tick)
    {
      assertions := assertions + [a];
    }

    method CheckSat() returns (answer: Answer)
      modifies this
      ensures assertions == old(assertions) && answer == oracle(old(tick), assertions)
    {
      answer := oracle(tick, assertions);
      tick := tick + 1;
    }
  }

  /** Re-assert exactly subset on a reset context. */
  method CheckSubset<A(!new)>(ctx: Context<A>, subset: seq<A>) returns (answer: Answer)
    modifies ctx
    ensures ctx.assertions == subset && exists tick :: answer == ctx.oracle(tick, subset)
  {
    ctx.ResetAssertions();
    for i := 0 to |subset|
      invariant ctx.assertions == subset[..i]
    {
      ctx.Assert(subset[i]);
    }
    assert subset[..|subset|] == subset;
    answer := ctx.CheckSat();
  }

  function Without<T>(s: seq<T>, i: nat): seq<T>
    requires i < |s|
  {
    s[..i] + s[i + 1..]
  }

  /** part is whole restricted to the strictly increasing positions kept. */
  ghost predicate SelectedBy<A>(part: seq<A>, whole: seq<A>, kept: seq<nat>) {
    && |kept| == |part|
    && (forall i :: 0 <= i < |kept| ==> kept[i] < |whole| && part[i] == whole[kept[i]])
    && (forall i, j :: 0 <= i < j < |kept| ==> kept[i] < kept[j])
  }

  ghost predicate IsSubsequence<A(!new)>(part: seq<A>, whole: seq<A>) {
    exists kept :: SelectedBy(part, whole, kept)
  }

  lemma SubsequenceSelf<A(!new)>(s: seq<A>)
    ensures IsSubsequence(s, s)
  {
    assert SelectedBy(s, s, seq(|s|, i => i));
  }

  lemma SubsequenceWithout<A(!new)>(part: seq<A>, whole: seq<A>, i: nat)
    requires IsSubsequence(part, whole) && i < |part|
    ensures IsSubsequence(Without(part, i), whole)
  {
    var kept :| SelectedBy(part, whole, kept);
    assert SelectedBy(Without(part, i), whole, Without(kept, i));
  }

  lemma FewerHold<M(!new), A(!new)>(holds: Meaning<M, A>, fewer: seq<A>, more: seq<A>)
    requires Satisfiable(holds, more) && forall a :: a in fewer ==> a in more
    ensures Satisfiable(holds, fewer)
  {
    var m :| AllHold(holds, m, more);
    forall i | 0 <= i < |fewer|
      ensures holds(m, fewer[i])
    {
      assert fewer[i] in more;
    }
    assert AllHold(holds, m, fewer);
  }

  /** Dropping any one of the first n assertions makes the rest satisfiable. */
  ghost predicate Needed<M(!new), A(!new)>(holds: Meaning<M, A>, core: seq<A>, n: nat)
    requires n <= |core|
  {
    forall j :: 0 <= j < n ==> Satisfiable(holds, Without(core, j))
  }

  lemma NeededAfterDrop<M(!new), A(!new)>(holds: Meaning<M, A>, core: seq<A>, i: nat)
    requires i < |core| && Needed(holds, core, i)
    ensures Needed(holds, Without(core, i), i)
  {
    forall j | 0 <= j < i
      ensures Satisfiable(holds, Without(Without(core, i), j))
    {
      FewerHold(holds, Without(Without(core, i), j), Without(core, j));
    }
  }

  datatype Report<A> =
    | NoAssertions
    | NotReproduced
    | Core(core: seq<A>, total: nat, budgetExhausted: bool)

  /** One deletion pass. The core is an unsatisfiable subsequence of the input whatever Unknown
      answers or the time budget do; with a decisive oracle and no budget stop it is 1-minimal.
      The context is left holding exactly the core. */
  method MinimizeCore<M(!new), A(!new)>(ctx: Context<A>, ghost holds: Meaning<M, A>, budgetLeft: nat -> bool)
    returns (report: Report<A>)
    requires Sound(holds, ctx.oracle)
    modifies ctx
    ensures report.NoAssertions? <==> old(ctx.assertions) == []
    ensures !report.Core? ==> ctx.assertions == old(ctx.assertions)
    ensures report.NotReproduced? && Decisive(ctx.oracle) ==> Satisfiable(holds, old(ctx.assertions))
    ensures report.Core? ==>
              && IsSubsequence(report.core, old(ctx.assertions))
              && !Satisfiable(holds, report.core)
              && report.total == |old(ctx.assertions)|
              && ctx.assertions == report.core
    ensures report.Core? && Decisive(ctx.oracle) && !report.budgetExhausted ==>
              Needed(holds, report.core, |report.core|)
  {
    var assertions := ctx.assertions;
    if assertions == [] {
      return NoAssertions;
    }
    var answer := CheckSubset(ctx, assertions);
    if answer != Unsat {
      ghost var tick :| answer == ctx.oracle(tick, assertions);
      assert RightAnswer(holds, assertions, ctx.oracle(tick, assertions));
      return NotReproduced;
    }
    var core, budgetExhausted, index := assertions, false, 0;
    ghost var t :| answer == ctx.oracle(t, assertions);
    assert RightAnswer(holds, assertions, ctx.oracle(t, assertions));
    SubsequenceSelf(core);
    var rounds := 0;
    while index < |core|
      invariant index <= |core|
      invariant IsSubsequence(core, assertions) && !Satisfiable(holds, core)
      invariant Decisive(ctx.oracle) ==> Needed(holds, core, index)
      decreases |core| - index
    {
      if !budgetLeft(rounds) {
        budgetExhausted := true;
        break;
      }
      rounds := rounds + 1;
      var candidate := core[..index] + core[index + 1..];
      assert candidate == Without(core, index);
      answer := CheckSubset(ctx, candidate);
      ghost var tick :| answer == ctx.oracle(tick, candidate);
      assert RightAnswer(holds, candidate, ctx.oracle(tick, candidate));
      if answer == Unsat {
        SubsequenceWithout(core, assertions, index);
        if Decisive(ctx.oracle) {
          NeededAfterDrop(holds, core, index);
        }
        core := candidate;
      } else {
        index := index + 1;
      }
    }
    var _ := CheckSubset(ctx, core);
    report := Core(core, |assertions|, budgetExhausted);
  }
}
