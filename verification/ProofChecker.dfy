/** The resolution proof checker and its core extraction (proof_checker.rs). */
module ProofChecker {
  import opened Prelude

  type Clause = seq<int>

  /** Literals are 32-bit; negating the least one wraps around to itself. */
  const INT_MIN: int := -0x8000_0000

  function Negate(l: int): int {
    if l == INT_MIN then INT_MIN else -l
  }

  datatype ProofStep = ProofStep(id: nat, clause: Clause, rule: string, parents: seq<nat>)

  predicate IsRoot(s: ProofStep) {
    s.rule == "axiom" || s.rule == "assumption"
  }

  function Literals(c: Clause): set<int> {
    set l | l in c
  }

  // ================================================================ lookup and rule checks

  /** The first step with this id. */
  function GetStep(steps: seq<ProofStep>, id: nat): (r: Option<ProofStep>)
    ensures r.Some? ==> r.value in steps && r.value.id == id
    ensures r.None? ==> forall s :: s in steps ==> s.id != id
  {
    if steps == [] then None else if steps[0].id == id then Some(steps[0]) else GetStep(steps[1..], id)
  }

  predicate IsResolvent(c1: Clause, c2: Clause, pivot: int, result: Clause) {
    && pivot in c1 && Negate(pivot) in c2
    && Literals(result) == (set l | l in c1 && l != pivot) + (set l | l in c2 && l != Negate(pivot))
  }

  predicate ResolutionOk(steps: seq<ProofStep>, s: ProofStep) {
    && |s.parents| == 2
    && var p1, p2 := GetStep(steps, s.parents[0]), GetStep(steps, s.parents[1]);
    && p1.Some? && p2.Some?
    && exists pivot :: pivot in p1.value.clause && IsResolvent(p1.value.clause, p2.value.clause, pivot, s.clause)
  }

  predicate FactoringOk(steps: seq<ProofStep>, s: ProofStep) {
    && |s.parents| == 1
    && var p := GetStep(steps, s.parents[0]);
    && p.Some?
    && Literals(p.value.clause) == Literals(s.clause)
  }

  predicate SubsumptionOk(steps: seq<ProofStep>, s: ProofStep) {
    && |s.parents| == 2
    && var p1, p2 := GetStep(steps, s.parents[0]), GetStep(steps, s.parents[1]);
    && p1.Some? && p2.Some?
    && var set1, set2, result := Literals(p1.value.clause), Literals(p2.value.clause), Literals(s.clause);
    && ((set1 <= set2 && result == set1) || (set2 <= set1 && result == set2))
  }

  predicate TautologyOk(steps: seq<ProofStep>, s: ProofStep) {
    && |s.parents| == 1
    && var p := GetStep(steps, s.parents[0]);
    && p.Some?
    && exists l :: l in p.value.clause && Negate(l) in p.value.clause
  }

  /** Unknown rules are let through. */
  predicate StepOk(steps: seq<ProofStep>, s: ProofStep) {
    if s.rule == "resolution" then ResolutionOk(steps, s)
    else if s.rule == "factoring" then FactoringOk(steps, s)
    else if s.rule == "subsumption" then SubsumptionOk(steps, s)
    else if s.rule == "tautology" then TautologyOk(steps, s)
    else true
  }

  predicate ParentsExist(steps: seq<ProofStep>, s: ProofStep) {
    forall i :: 0 <= i < |s.parents| ==> GetStep(steps, s.parents[i]).Some?
  }

  ghost predicate Accepted(steps: seq<ProofStep>) {
    && (forall i :: 0 <= i < |steps| ==> ParentsExist(steps, steps[i]))
    && (forall i :: 0 <= i < |steps| && !IsRoot(steps[i]) ==> StepOk(steps, steps[i]))
  }

  // ================================================================ the proof object

  /** Ids reached backwards from a conclusion, never going past a root. */
  ghost predicate IsTrail(steps: seq<ProofStep>, roots: set<nat>, trail: seq<nat>) {
    trail != [] && forall i :: 0 <= i < |trail| - 1 ==> LeadsTo(steps, roots, trail[i], trail[i + 1])
  }

  ghost predicate LeadsTo(steps: seq<ProofStep>, roots: set<nat>, from: nat, to: nat) {
    from !in roots && GetStep(steps, from).Some? && to in GetStep(steps, from).value.parents
  }

  ghost predicate Reaches(steps: seq<ProofStep>, roots: set<nat>, from: nat, to: nat) {
    exists trail :: IsTrail(steps, roots, trail) && trail[0] == from && trail[|trail| - 1] == to
  }

  lemma ReachesSelf(steps: seq<ProofStep>, roots: set<nat>, id: nat)
    ensures Reaches(steps, roots, id, id)
  {
    assert IsTrail(steps, roots, [id]);
  }

  lemma ReachesOn(steps: seq<ProofStep>, roots: set<nat>, from: nat, mid: nat, to: nat)
    requires Reaches(steps, roots, from, mid) && LeadsTo(steps, roots, mid, to)
    ensures Reaches(steps, roots, from, to)
  {
    var trail :| IsTrail(steps, roots, trail) && trail[0] == from && trail[|trail| - 1] == mid;
    assert IsTrail(steps, roots, trail + [to]);
  }

  lemma ReachesAfter(steps: seq<ProofStep>, roots: set<nat>, from: nat, mid: nat, to: nat)
    requires LeadsTo(steps, roots, from, mid) && Reaches(steps, roots, mid, to)
    ensures Reaches(steps, roots, from, to)
  {
    var trail :| IsTrail(steps, roots, trail) && trail[0] == mid && trail[|trail| - 1] == to;
    var longer := [from] + trail;
    forall i | 0 <= i < |longer| - 1
      ensures LeadsTo(steps, roots, longer[i], longer[i + 1])
    {
      if i > 0 { assert LeadsTo(steps, roots, trail[i - 1], trail[i - 1 + 1]); }
    }
    assert IsTrail(steps, roots, longer);
  }

  /** A set that holds from, and is closed under LeadsTo, holds everything reachable. */
  lemma {:induction false} ClosedHoldsReachable(steps: seq<ProofStep>, roots: set<nat>, closed: set<nat>,
                                                trail: seq<nat>)
    requires IsTrail(steps, roots, trail) && trail[0] in closed
    requires forall a, b :: a in closed && LeadsTo(steps, roots, a, b) ==> b in closed
    ensures trail[|trail| - 1] in closed
    decreases |trail|
  {
    if |trail| > 1 {
      assert LeadsTo(steps, roots, trail[0], trail[0 + 1]);
      forall i | 0 <= i < |trail[1..]| - 1
        ensures LeadsTo(steps, roots, trail[1..][i], trail[1..][i + 1])
      {
        assert LeadsTo(steps, roots, trail[i + 1], trail[i + 1 + 1]);
      }
      ClosedHoldsReachable(steps, roots, closed, trail[1..]);
    }
  }

  class Proof {
    var steps: seq<ProofStep>
    var roots: set<nat>
    var conclusion: Option<nat>

    /** roots and conclusion summarize the steps. */
    ghost predicate Valid()
      reads this
    {
      && roots == RootIds(steps)
      && conclusion == LastEmpty(steps)
    }

    constructor ()
      ensures Valid() && steps == []
    {
      steps, roots, conclusion := [], {}, None;
    }

    method AddStep(step: ProofStep)
      requires Valid()
      modifies this
      ensures Valid() && steps == old(steps) + [step]
    {
      if step.rule == "axiom" || step.rule == "assumption" {
        roots := roots + {step.id};
      }
      if step.clause == [] {
        conclusion := Some(step.id);
      }
      assert (steps + [step])[..|steps|] == steps;
      steps := steps + [step];
    }

    method FindStep(id: nat) returns (r: Option<ProofStep>)
      ensures r == GetStep(steps, id)
    {
      var i := 0;
      while i < |steps|
        invariant 0 <= i <= |steps| && GetStep(steps, id) == GetStep(steps[i..], id)
      {
        if steps[i].id == id {
          return Some(steps[i]);
        }
        assert steps[i..][1..] == steps[i + 1..];
        i := i + 1;
      }
      assert steps[i..] == [];
      r := None;
    }

    method VerifyResolution(step: ProofStep) returns (ok: bool)
      ensures ok == ResolutionOk(steps, step)
    {
      if |step.parents| != 2 {
        return false;
      }
      var p1 := FindStep(step.parents[0]);
      var p2 := FindStep(step.parents[1]);
      if p1.None? || p2.None? {
        return false;
      }
      var c1, c2 := p1.value.clause, p2.value.clause;
      for i := 0 to |c1|
        invariant forall j :: 0 <= j < i ==> !IsResolvent(c1, c2, c1[j], step.clause)
      {
        if Negate(c1[i]) in c2 {
          var expected := (set l | l in c1 && l != c1[i]) + (set l | l in c2 && l != Negate(c1[i]));
          if expected == Literals(step.clause) {
            assert IsResolvent(c1, c2, c1[i], step.clause);
            return true;
          }
        }
      }
      return false;
    }

    /** Check every parent reference, then every inference step. */
    method Verify() returns (ok: bool)
      ensures ok <==> Accepted(steps)
    {
      for i := 0 to |steps|
        invariant forall k :: 0 <= k < i ==> ParentsExist(steps, steps[k])
      {
        var step := steps[i];
        for j := 0 to |step.parents|
          invariant forall k :: 0 <= k < j ==> GetStep(steps, step.parents[k]).Some?
        {
          var parent := FindStep(step.parents[j]);
          if parent.None? {
            assert !ParentsExist(steps, steps[i]);
            return false;
          }
        }
      }
      for i := 0 to |steps|
        invariant forall k :: 0 <= k < i && !IsRoot(steps[k]) ==> StepOk(steps, steps[k])
      {
        var step := steps[i];
        if step.rule != "axiom" && step.rule != "assumption" {
          var stepOk: bool;
          if step.rule == "resolution" {
            stepOk := VerifyResolution(step);
          } else {
            stepOk := StepOk(steps, step);
          }
          if !stepOk {
            assert !StepOk(steps, steps[i]);
            return false;
          }
        }
      }
      return true;
    }

    /** The worklist: exactly the roots reachable from the conclusion, on any parent graph. */
    method ExtractUnsatCore() returns (core: set<nat>)
      ensures conclusion.None? ==> core == {}
      ensures conclusion.Some? ==>
                forall id :: id in core <==>
                  id in roots && GetStep(steps, id).Some? && Reaches(steps, roots, conclusion.value, id)
    {
      core := {};
      if conclusion.Some? {
        var start := conclusion.value;
        var toVisit := [start];
        var visited: set<nat> := {};
        ReachesSelf(steps, roots, start);
        while toVisit != []
          invariant forall i :: 0 <= i < |toVisit| ==> Reaches(steps, roots, start, toVisit[i])
          invariant forall id :: id in visited ==> Reaches(steps, roots, start, id)
          invariant start in visited || start in toVisit
          invariant forall a, b :: a in visited && LeadsTo(steps, roots, a, b) ==> b in visited || b in toVisit
          invariant forall id :: id in core <==> id in visited && id in roots && GetStep(steps, id).Some?
          decreases Known(steps, start) - visited, |toVisit|
        {
          var stepId := toVisit[|toVisit| - 1];
          ghost var before := toVisit;
          toVisit := toVisit[..|toVisit| - 1];
          assert forall b :: b in before ==> b in toVisit || b == stepId;
          if stepId !in visited {
            ReachableKnown(steps, roots, start, stepId);
            visited := visited + {stepId};
            var found := FindStep(stepId);
            if found.Some? {
              if stepId in roots {
                core := core + {stepId};
              } else {
                forall b | b in found.value.parents
                  ensures Reaches(steps, roots, start, b)
                {
                  ReachesOn(steps, roots, start, stepId, b);
                }
                toVisit := toVisit + found.value.parents;
              }
            }
          }
        }
        forall id | Reaches(steps, roots, start, id)
          ensures id in visited
        {
          var trail :| IsTrail(steps, roots, trail) && trail[0] == start && trail[|trail| - 1] == id;
          ClosedHoldsReachable(steps, roots, visited, trail);
        }
      }
    }
  }

  function RootIds(steps: seq<ProofStep>): set<nat> {
    if steps == [] then {}
    else (
      var last := steps[|steps| - 1];
      RootIds(steps[..|steps| - 1]) + (if IsRoot(last) then {last.id} else {})
    )
  }

  function LastEmpty(steps: seq<ProofStep>): Option<nat> {
    if steps == [] then None
    else if steps[|steps| - 1].clause == [] then Some(steps[|steps| - 1].id)
    else LastEmpty(steps[..|steps| - 1])
  }

  /** Every id that occurs in the proof. */
  ghost function Known(steps: seq<ProofStep>, start: nat): set<nat> {
    {start} + (set i, j | 0 <= i < |steps| && 0 <= j < |steps[i].parents| :: steps[i].parents[j])
  }

  lemma ReachableKnown(steps: seq<ProofStep>, roots: set<nat>, start: nat, id: nat)
    requires Reaches(steps, roots, start, id)
    ensures id in Known(steps, start)
  {
    var trail :| IsTrail(steps, roots, trail) && trail[0] == start && trail[|trail| - 1] == id;
    if |trail| > 1 {
      var n := |trail| - 2;
      assert LeadsTo(steps, roots, trail[n], trail[n + 1]);
      var s := GetStep(steps, trail[n]).value;
      var i :| 0 <= i < |steps| && steps[i] == s;
      var j :| 0 <= j < |s.parents| && s.parents[j] == id;
      assert steps[i].parents[j] == id;
    }
  }

  // ================================================================ soundness

  /** Truth of a literal: variables are positive integers, a negative literal is a negation. */
  ghost predicate LiteralTrue(v: iset<int>, l: int) {
    if l > 0 then l in v else -l !in v
  }

  ghost predicate ClauseTrue(v: iset<int>, c: Clause) {
    exists l :: l in c && LiteralTrue(v, l)
  }

  /** Literals that have a negation: neither 0, which stands for no variable, nor the least
      32-bit integer, whose negation wraps around to itself. */
  ghost predicate Proper(c: Clause) {
    forall l :: l in c ==> l != 0 && INT_MIN < l
  }

  lemma SameLiterals(v: iset<int>, c: Clause, c': Clause)
    requires Literals(c) <= Literals(c') && ClauseTrue(v, c)
    ensures ClauseTrue(v, c')
  {
    var l :| l in c && LiteralTrue(v, l);
    assert l in Literals(c);
  }

  lemma ResolventFollows(v: iset<int>, c1: Clause, c2: Clause, pivot: int, result: Clause)
    requires IsResolvent(c1, c2, pivot, result) && Proper(c1)
    requires ClauseTrue(v, c1) && ClauseTrue(v, c2)
    ensures ClauseTrue(v, result)
  {
    var l1 :| l1 in c1 && LiteralTrue(v, l1);
    var l2 :| l2 in c2 && LiteralTrue(v, l2);
    assert l1 != pivot || l2 != Negate(pivot);
    if l1 != pivot {
      assert l1 in Literals(result);
    } else {
      assert l2 in Literals(result);
    }
  }

  predicate SoundRule(s: ProofStep) {
    IsRoot(s) || s.rule == "resolution" || s.rule == "factoring" || s.rule == "subsumption"
  }

  /** Ids are unique, no step rests on itself, literals have negations, and only sound rules occur. The
      steps may be listed in any order. */
  ghost predicate WellFormed(steps: seq<ProofStep>) {
    && (forall i, j :: 0 <= i < j < |steps| ==> steps[i].id != steps[j].id)
    && Acyclic(steps)
    && (forall i :: 0 <= i < |steps| ==> Proper(steps[i].clause) && SoundRule(steps[i]))
  }

  ghost predicate Acyclic(steps: seq<ProofStep>) {
    forall trail :: IsTrail(steps, RootIds(steps), trail) && |trail| > 1 ==> trail[0] != trail[|trail| - 1]
  }

  /** Parents that are all listed earlier are one way to be acyclic. */
  lemma EarlierParentsAcyclic(steps: seq<ProofStep>)
    requires forall i, j :: 0 <= i < j < |steps| ==> steps[i].id != steps[j].id
    requires forall i :: 0 <= i < |steps| ==> EarlierParents(steps, i)
    ensures Acyclic(steps)
  {
    forall trail | IsTrail(steps, RootIds(steps), trail) && |trail| > 1
      ensures trail[0] != trail[|trail| - 1]
    {
      var i, j := TrailGoesBack(steps, trail);
    }
  }

  ghost predicate EarlierParents(steps: seq<ProofStep>, i: nat)
    requires i < |steps|
  {
    forall p :: p in steps[i].parents ==> exists j :: 0 <= j < i && steps[j].id == p
  }

  lemma {:induction false} TrailGoesBack(steps: seq<ProofStep>, trail: seq<nat>) returns (i: nat, j: nat)
    requires forall a, b :: 0 <= a < b < |steps| ==> steps[a].id != steps[b].id
    requires forall a :: 0 <= a < |steps| ==> EarlierParents(steps, a)
    requires IsTrail(steps, RootIds(steps), trail) && |trail| > 1
    ensures j < i < |steps| && steps[i].id == trail[0] && steps[j].id == trail[|trail| - 1]
    decreases |trail|
  {
    var n := |trail| - 1;
    assert LeadsTo(steps, RootIds(steps), trail[n - 1], trail[n - 1 + 1]);
    var s := GetStep(steps, trail[n - 1]).value;
    var k :| 0 <= k < |steps| && steps[k] == s;
    assert EarlierParents(steps, k);
    var l: nat :| l < k && steps[l].id == trail[n];
    if n == 1 {
      i, j := k, l;
    } else {
      var shorter := trail[..n];
      forall x | 0 <= x < |shorter| - 1
        ensures LeadsTo(steps, RootIds(steps), shorter[x], shorter[x + 1])
      {
        assert LeadsTo(steps, RootIds(steps), trail[x], trail[x + 1]);
      }
      var m: nat;
      i, m := TrailGoesBack(steps, shorter);
      assert m == k;
      j := l;
    }
  }

  lemma Subtrail(steps: seq<ProofStep>, roots: set<nat>, trail: seq<nat>, i: nat, j: nat)
    requires IsTrail(steps, roots, trail) && i <= j < |trail|
    ensures IsTrail(steps, roots, trail[i..j + 1])
  {
    var part := trail[i..j + 1];
    forall x | 0 <= x < |part| - 1
      ensures LeadsTo(steps, roots, part[x], part[x + 1])
    {
      assert LeadsTo(steps, roots, trail[i + x], trail[i + x + 1]);
    }
  }

  lemma NoReturn(steps: seq<ProofStep>, trail: seq<nat>, k: nat)
    requires Acyclic(steps) && IsTrail(steps, RootIds(steps), trail) && k < |trail| - 1
    ensures trail[k] != trail[|trail| - 1]
  {
    Subtrail(steps, RootIds(steps), trail, k, |trail| - 1);
    var part := trail[k..|trail|];
    assert part[0] == trail[k] && part[|part| - 1] == trail[|trail| - 1];
  }

  lemma {:induction false} TrailSet(steps: seq<ProofStep>, trail: seq<nat>) returns (ids: set<nat>)
    requires Acyclic(steps) && IsTrail(steps, RootIds(steps), trail)
    ensures |ids| == |trail| && ids <= Known(steps, trail[0]) && forall id :: id in ids ==> id in trail
    decreases |trail|
  {
    var n := |trail| - 1;
    var last := trail[n];
    Subtrail(steps, RootIds(steps), trail, 0, n);
    assert trail[0..n + 1] == trail;
    ReachableKnown'(steps, trail);
    if n == 0 {
      ids := {last};
    } else {
      Subtrail(steps, RootIds(steps), trail, 0, n - 1);
      ids := TrailSet(steps, trail[0..n]);
      forall k | 0 <= k < n
        ensures trail[0..n][k] != last
      {
        NoReturn(steps, trail, k);
      }
      assert last !in ids;
      ids := ids + {last};
    }
  }

  lemma ReachableKnown'(steps: seq<ProofStep>, trail: seq<nat>)
    requires IsTrail(steps, RootIds(steps), trail)
    ensures trail[|trail| - 1] in Known(steps, trail[0])
  {
    ReachableKnown(steps, RootIds(steps), trail[0], trail[|trail| - 1]);
  }

  /** A trail of an acyclic proof meets no id twice. */
  lemma TrailBounded(steps: seq<ProofStep>, trail: seq<nat>)
    requires Acyclic(steps) && IsTrail(steps, RootIds(steps), trail)
    ensures |trail| <= |Known(steps, trail[0])|
  {
    var ids := TrailSet(steps, trail);
    SubsetSize(ids, Known(steps, trail[0]));
  }

  lemma {:induction false} GetStepAt(steps: seq<ProofStep>, i: nat)
    requires i < |steps| && forall a, b :: 0 <= a < b < |steps| ==> steps[a].id != steps[b].id
    ensures GetStep(steps, steps[i].id) == Some(steps[i])
  {
    if i > 0 {
      GetStepAt(steps[1..], i - 1);
    }
  }

  lemma {:induction false} RootIdsExact(steps: seq<ProofStep>, id: nat)
    ensures id in RootIds(steps) <==> exists i :: 0 <= i < |steps| && IsRoot(steps[i]) && steps[i].id == id
  {
    if steps != [] {
      var init := steps[..|steps| - 1];
      RootIdsExact(init, id);
      if i :| 0 <= i < |steps| && IsRoot(steps[i]) && steps[i].id == id {
        assert i < |init| ==> init[i] == steps[i];
      }
    }
  }

  /** The roots that step i rests on all hold. */
  ghost predicate RootsHold(steps: seq<ProofStep>, v: iset<int>, from: nat) {
    forall id :: id in RootIds(steps) && Reaches(steps, RootIds(steps), from, id) && GetStep(steps, id).Some?
      ==> ClauseTrue(v, GetStep(steps, id).value.clause)
  }

  /** Every clause of an accepted proof follows from the roots reachable from it. */
  lemma Sound(steps: seq<ProofStep>, v: iset<int>, i: nat)
    requires Accepted(steps) && WellFormed(steps) && i < |steps| && RootsHold(steps, v, steps[i].id)
    ensures ClauseTrue(v, steps[i].clause)
  {
    SoundAlong(steps, v, [steps[i].id], i);
  }

  /** The same for the step at the end of a trail, by induction on how much longer the trail can get. */
  lemma {:induction false} SoundAlong(steps: seq<ProofStep>, v: iset<int>, trail: seq<nat>, i: nat)
    requires Accepted(steps) && WellFormed(steps) && i < |steps| && RootsHold(steps, v, steps[i].id)
    requires IsTrail(steps, RootIds(steps), trail) && trail[|trail| - 1] == steps[i].id
    ensures ClauseTrue(v, steps[i].clause)
    decreases |Known(steps, trail[0])| - |trail|, 1
  {
    var s, roots := steps[i], RootIds(steps);
    GetStepAt(steps, i);
    if IsRoot(s) {
      RootIdsExact(steps, s.id);
      ReachesSelf(steps, roots, s.id);
    } else {
      forall p | p in s.parents
        ensures GetStep(steps, p).Some? && ClauseTrue(v, GetStep(steps, p).value.clause)
        ensures Proper(GetStep(steps, p).value.clause)
      {
        ParentSound(steps, v, trail, i, p);
      }
      StepSound(steps, v, s);
    }
  }

  lemma {:induction false} ParentSound(steps: seq<ProofStep>, v: iset<int>, trail: seq<nat>, i: nat, p: nat)
    requires Accepted(steps) && WellFormed(steps) && i < |steps| && RootsHold(steps, v, steps[i].id)
    requires IsTrail(steps, RootIds(steps), trail) && trail[|trail| - 1] == steps[i].id
    requires !IsRoot(steps[i]) && p in steps[i].parents
    ensures GetStep(steps, p).Some? && ClauseTrue(v, GetStep(steps, p).value.clause)
    ensures Proper(GetStep(steps, p).value.clause)
    decreases |Known(steps, trail[0])| - |trail|, 0
  {
    assert ParentsExist(steps, steps[i]);
    var j :| 0 <= j < |steps| && steps[j] == GetStep(steps, p).value;
    DerivedLeadsToParents(steps, i, p);
    RootsHoldForParent(steps, v, steps[i].id, p);
    LongerTrail(steps, trail, p);
    TrailBounded(steps, trail + [p]);
    SoundAlong(steps, v, trail + [p], j);
  }

  lemma LongerTrail(steps: seq<ProofStep>, trail: seq<nat>, p: nat)
    requires IsTrail(steps, RootIds(steps), trail) && LeadsTo(steps, RootIds(steps), trail[|trail| - 1], p)
    ensures IsTrail(steps, RootIds(steps), trail + [p])
  {
  }

  lemma DerivedLeadsToParents(steps: seq<ProofStep>, i: nat, p: nat)
    requires i < |steps| && forall a, b :: 0 <= a < b < |steps| ==> steps[a].id != steps[b].id
    requires !IsRoot(steps[i]) && p in steps[i].parents
    ensures LeadsTo(steps, RootIds(steps), steps[i].id, p)
  {
    GetStepAt(steps, i);
    RootIdsExact(steps, steps[i].id);
  }

  lemma RootsHoldForParent(steps: seq<ProofStep>, v: iset<int>, from: nat, p: nat)
    requires RootsHold(steps, v, from) && LeadsTo(steps, RootIds(steps), from, p)
    ensures RootsHold(steps, v, p)
  {
    var roots := RootIds(steps);
    forall id | id in roots && Reaches(steps, roots, p, id) && GetStep(steps, id).Some?
      ensures ClauseTrue(v, GetStep(steps, id).value.clause)
    {
      ReachesAfter(steps, roots, from, p, id);
    }
  }

  lemma StepSound(steps: seq<ProofStep>, v: iset<int>, s: ProofStep)
    requires StepOk(steps, s) && SoundRule(s) && !IsRoot(s)
    requires forall p :: p in s.parents ==>
      GetStep(steps, p).Some? && ClauseTrue(v, GetStep(steps, p).value.clause) && Proper(GetStep(steps, p).value.clause)
    ensures ClauseTrue(v, s.clause)
  {
    var c1 := GetStep(steps, s.parents[0]).value.clause;
    if s.rule == "resolution" {
      var c2 := GetStep(steps, s.parents[1]).value.clause;
      var pivot :| pivot in c1 && IsResolvent(c1, c2, pivot, s.clause);
      ResolventFollows(v, c1, c2, pivot, s.clause);
    } else if s.rule == "factoring" {
      SameLiterals(v, c1, s.clause);
    } else {
      var c2 := GetStep(steps, s.parents[1]).value.clause;
      if Literals(s.clause) == Literals(c1) {
        SameLiterals(v, c1, s.clause);
      } else {
        SameLiterals(v, c2, s.clause);
      }
    }
  }

  lemma {:induction false} LastEmptyIsEmpty(steps: seq<ProofStep>) returns (i: nat)
    requires LastEmpty(steps).Some?
    ensures i < |steps| && steps[i].clause == [] && steps[i].id == LastEmpty(steps).value
  {
    if steps[|steps| - 1].clause == [] {
      i := |steps| - 1;
    } else {
      i := LastEmptyIsEmpty(steps[..|steps| - 1]);
    }
  }

  /** The core is itself unsatisfiable: no valuation makes all its clauses true. */
  lemma CoreUnsatisfiable(steps: seq<ProofStep>, core: set<nat>, v: iset<int>)
    requires Accepted(steps) && WellFormed(steps) && LastEmpty(steps).Some?
    requires forall id :: id in core <==>
               id in RootIds(steps) && GetStep(steps, id).Some?
                 && Reaches(steps, RootIds(steps), LastEmpty(steps).value, id)
    ensures exists id :: id in core && GetStep(steps, id).Some? && !ClauseTrue(v, GetStep(steps, id).value.clause)
  {
    var i := LastEmptyIsEmpty(steps);
    if forall id :: id in core && GetStep(steps, id).Some? ==> ClauseTrue(v, GetStep(steps, id).value.clause) {
      Sound(steps, v, i);
    }
  }

  // ================================================================ why the conditions

  /** With a cycle, acceptance proves nothing: a step that is its own parent is
      accepted, concludes the empty clause, and rests on no root at all. */
  lemma SelfSupportAccepted()
    ensures var steps := [ProofStep(1, [], "factoring", [1])];
            Accepted(steps) && LastEmpty(steps) == Some(1) && RootIds(steps) == {} && !Acyclic(steps)
  {
    var steps := [ProofStep(1, [], "factoring", [1])];
    assert GetStep(steps, 1) == Some(steps[0]);
    assert steps[..0] == [];
    var trail: seq<nat> := [1, 1];
    assert LeadsTo(steps, RootIds(steps), trail[0], trail[1]);
    assert IsTrail(steps, RootIds(steps), trail) && trail[0] == trail[|trail| - 1];
  }

  /** The least literal is its own negation, so it resolves with itself: an accepted proof derives
      the empty clause from one clause that a valuation makes true. */
  lemma LeastLiteralUnsound(v: iset<int>)
    requires -INT_MIN !in v
    ensures var steps := [ProofStep(1, [INT_MIN], "axiom", []), ProofStep(2, [], "resolution", [1, 1])];
            Accepted(steps) && ClauseTrue(v, steps[0].clause)
  {
    var steps := [ProofStep(1, [INT_MIN], "axiom", []), ProofStep(2, [], "resolution", [1, 1])];
    assert GetStep(steps, 1) == Some(steps[0]);
    assert IsResolvent([INT_MIN], [INT_MIN], INT_MIN, []);
    assert INT_MIN in steps[0].clause && LiteralTrue(v, INT_MIN);
    assert ResolutionOk(steps, steps[1]);
  }

  /** The empty clause is derived from 2 and 3 under the id of the first axiom. */
  function Duplicate(): seq<ProofStep> {
    [ProofStep(1, [1], "axiom", []), ProofStep(2, [2], "axiom", []), ProofStep(3, [-2], "axiom", []),
     ProofStep(1, [], "resolution", [2, 3])]
  }

  lemma DuplicateSteps()
    ensures GetStep(Duplicate(), 1) == Some(Duplicate()[0]) && GetStep(Duplicate(), 2) == Some(Duplicate()[1])
    ensures GetStep(Duplicate(), 3) == Some(Duplicate()[2]) && RootIds(Duplicate()) == {1, 2, 3}
    ensures LastEmpty(Duplicate()) == Some(1)
  {
    var a, b, c, d := Duplicate()[0], Duplicate()[1], Duplicate()[2], Duplicate()[3];
    var steps := [a, b, c, d];
    assert steps == Duplicate() && steps[1..] == [b, c, d] && [b, c, d][1..] == [c, d];
    assert GetStep([c, d], 3) == Some(c) && GetStep([b, c, d], 2) == Some(b) && GetStep([b, c, d], 3) == Some(c);
    assert steps[..3] == [a, b, c] && [a, b, c][..2] == [a, b] && [a, b][..1] == [a] && [a][..0] == [];
    assert RootIds([a]) == {1} && RootIds([a, b]) == {1, 2} && RootIds([a, b, c]) == {1, 2, 3};
  }

  /** From a root nothing else is reached. */
  lemma RootReachesItself(steps: seq<ProofStep>, root: nat, id: nat)
    requires root in RootIds(steps) && Reaches(steps, RootIds(steps), root, id)
    ensures id == root
  {
    var trail :| IsTrail(steps, RootIds(steps), trail) && trail[0] == root && trail[|trail| - 1] == id;
    assert |trail| > 1 ==> LeadsTo(steps, RootIds(steps), trail[0], trail[1]);
  }

  lemma NoEdgesAcyclic(steps: seq<ProofStep>)
    requires forall id :: GetStep(steps, id).Some? ==> id in RootIds(steps)
    ensures Acyclic(steps)
  {
    assert forall trail :: IsTrail(steps, RootIds(steps), trail) && |trail| > 1 ==>
      LeadsTo(steps, RootIds(steps), trail[0], trail[1]);
  }

  lemma DuplicateAccepted()
    ensures Accepted(Duplicate())
  {
    DuplicateSteps();
    DuplicateResolves();
    DuplicateRules();
  }

  lemma DuplicateRules()
    ensures Duplicate()[3].rule == "resolution"
    ensures forall i :: 0 <= i < |Duplicate()| ==>
              Proper(Duplicate()[i].clause) && SoundRule(Duplicate()[i]) && (i < 3 ==> IsRoot(Duplicate()[i]))
  {
  }

  lemma DuplicateResolves()
    ensures ResolutionOk(Duplicate(), Duplicate()[3])
  {
    DuplicateSteps();
    assert IsResolvent([2], [-2], 2, []);
  }

  /** With an id used twice the empty clause goes by the id of a root, and the core is that root alone, which
      a valuation makes true. The proof is accepted and meets every other condition. */
  lemma DuplicateIdUnsound(v: iset<int>)
    requires 1 in v
    ensures Accepted(Duplicate()) && LastEmpty(Duplicate()) == Some(1) && RootsHold(Duplicate(), v, 1)
    ensures Acyclic(Duplicate())
    ensures forall i :: 0 <= i < |Duplicate()| ==> Proper(Duplicate()[i].clause) && SoundRule(Duplicate()[i])
  {
    DuplicateSteps();
    DuplicateAccepted();
    DuplicateRules();
    DuplicateIds();
    NoEdgesAcyclic(Duplicate());
    assert 1 in Duplicate()[0].clause && LiteralTrue(v, 1);
    RootHoldsAlone(Duplicate(), v, 1);
  }

  lemma DuplicateIds()
    ensures forall id :: GetStep(Duplicate(), id).Some? ==> id in {1, 2, 3}
  {
  }

  lemma RootHoldsAlone(steps: seq<ProofStep>, v: iset<int>, root: nat)
    requires root in RootIds(steps) && GetStep(steps, root).Some? && ClauseTrue(v, GetStep(steps, root).value.clause)
    ensures RootsHold(steps, v, root)
  {
    forall id | id in RootIds(steps) && Reaches(steps, RootIds(steps), root, id) && GetStep(steps, id).Some?
      ensures ClauseTrue(v, GetStep(steps, id).value.clause)
    {
      RootReachesItself(steps, root, id);
    }
  }

  /** A rule the checker does not know derives the empty clause from a clause that a valuation makes true. */
  lemma UnknownRuleUnsound(v: iset<int>)
    requires 1 in v
    ensures var steps := [ProofStep(1, [1], "axiom", []), ProofStep(2, [], "lemma", [1])];
            && Accepted(steps) && LastEmpty(steps) == Some(2) && EarlierParents(steps, 0) && EarlierParents(steps, 1)
            && !SoundRule(steps[1]) && ClauseTrue(v, steps[0].clause)
  {
    var a, b := ProofStep(1, [1], "axiom", []), ProofStep(2, [], "lemma", [1]);
    var steps := [a, b];
    assert GetStep(steps, 1) == Some(a) && steps[1..] == [b] && GetStep([b], 2) == Some(b);
    assert 1 in a.clause && LiteralTrue(v, 1);
    assert a.rule[0] == 'a' && b.rule[0] == 'l' && "resolution"[0] == 'r' && "factoring"[0] == 'f';
    assert "subsumption"[0] == 's' && "tautology"[0] == 't';
  }

  /** The rule tautology derives the empty clause from a clause that every valuation makes true. */
  lemma TautologyUnsound(v: iset<int>)
    ensures var steps := [ProofStep(1, [1, -1], "axiom", []), ProofStep(2, [], "tautology", [1])];
            && Accepted(steps) && LastEmpty(steps) == Some(2) && EarlierParents(steps, 0) && EarlierParents(steps, 1)
            && !SoundRule(steps[1]) && ClauseTrue(v, steps[0].clause)
  {
    var a, b := ProofStep(1, [1, -1], "axiom", []), ProofStep(2, [], "tautology", [1]);
    var steps := [a, b];
    assert GetStep(steps, 1) == Some(a) && steps[1..] == [b] && GetStep([b], 2) == Some(b);
    assert 1 in a.clause && -1 in a.clause && Negate(1) == -1;
    assert LiteralTrue(v, 1) || LiteralTrue(v, -1);
    assert a.rule[0] == 'a' && b.rule[0] == 't' && "resolution"[0] == 'r' && "factoring"[0] == 'f';
    assert "subsumption"[0] == 's';
  }
}
