/** Random parity constraints cut the assignments in half (model_counter.rs). */
module Parity {
  import opened Prelude
  import opened Cubes

  datatype Term = Var(index: nat) | Xor(left: Term, right: Term) | Const(b: bool) | Eq(left: Term, right: Term)

  /** An assignment to the Boolean variables 0 .. |v|-1. */
  type Assignment = seq<bool>

  predicate Scoped(t: Term, n: nat) {
    match t
    case Var(i) => i < n
    case Const(_) => true
    case Xor(l, r) => Scoped(l, n) && Scoped(r, n)
    case Eq(l, r) => Scoped(l, n) && Scoped(r, n)
  }

  predicate Eval(t: Term, v: Assignment)
    requires Scoped(t, |v|)
  {
    match t
    case Var(i) => v[i]
    case Const(b) => b
    case Xor(l, r) => Eval(l, v) != Eval(r, v)
    case Eq(l, r) => Eval(l, v) == Eval(r, v)
  }

  /** Strictly increasing indices below n: a subset of the variables, in order. */
  predicate Selection(selected: seq<nat>, n: nat) {
    && (forall i :: 0 <= i < |selected| ==> selected[i] < n)
    && (forall i, j :: 0 <= i < j < |selected| ==> selected[i] < selected[j])
  }

  /** The parity of the selected variables. */
  predicate OddCount(selected: seq<nat>, v: Assignment)
    requires forall i :: 0 <= i < |selected| ==> selected[i] < |v|
  {
    if selected == [] then false
    else OddCount(selected[..|selected| - 1], v) != v[selected[|selected| - 1]]
  }

  /** The variables the coins select, one coin each. */
  function Chosen(n: nat, coins: nat -> bool): (selected: seq<nat>)
    ensures Selection(selected, n)
    ensures forall i :: i in selected <==> 0 <= i < n && coins(i)
  {
    if n == 0 then [] else Chosen(n - 1, coins) + (if coins(n - 1) then [n - 1] else [])
  }

  /** The term is true exactly when an odd number of the selected variables are. */
  ghost predicate MeansOdd(t: Term, selected: seq<nat>, n: nat)
    requires Selection(selected, n)
  {
    Scoped(t, n) && forall v: Assignment :: |v| == n ==> (Eval(t, v) <==> OddCount(selected, v))
  }

  lemma OneMeansOdd(i: nat, n: nat)
    requires i < n
    ensures MeansOdd(Var(i), [i], n)
  {
    assert [i][..0] == [];
  }

  lemma XorMeansOdd(t: Term, selected: seq<nat>, i: nat, n: nat)
    requires Selection(selected + [i], n) && Selection(selected, n) && MeansOdd(t, selected, n)
    ensures MeansOdd(Xor(t, Var(i)), selected + [i], n)
  {
    assert (selected + [i])[|selected|] == i && (selected + [i])[..|selected|] == selected;
  }

  /** coins are the generator's bits: one per variable, then one for the target. None when the
      coins select nothing. */
  method RandomParityTerm(n: nat, coins: nat -> bool) returns (constraint: Option<Term>)
    ensures constraint.None? <==> Chosen(n, coins) == []
    ensures constraint.Some? ==>
              && Scoped(constraint.value, n)
              && forall v: Assignment :: |v| == n ==>
                   (Eval(constraint.value, v) <==> OddCount(Chosen(n, coins), v) == coins(n))
  {
    var chosen: seq<nat> := [];
    for i := 0 to n
      invariant chosen == Chosen(i, coins)
    {
      if coins(i) {
        chosen := chosen + [i];
      }
    }
    if chosen == [] {
      return None;
    }
    var parity := XorChain(chosen, n);
    constraint := Some(Eq(parity, Const(coins(n))));
  }

  method XorChain(chosen: seq<nat>, n: nat) returns (parity: Term)
    requires chosen != [] && Selection(chosen, n)
    ensures MeansOdd(parity, chosen, n)
  {
    parity := Var(chosen[0]);
    OneMeansOdd(chosen[0], n);
    assert chosen[..1] == [chosen[0]];
    for j := 1 to |chosen|
      invariant Selection(chosen[..j], n) && MeansOdd(parity, chosen[..j], n)
    {
      assert chosen[..j + 1] == chosen[..j] + [chosen[j]];
      XorMeansOdd(parity, chosen[..j], chosen[j], n);
      parity := Xor(parity, Var(chosen[j]));
    }
    assert chosen[..|chosen|] == chosen;
  }

  // ================================================================ counting

  ghost function Cons(heads: bool, tails: set<Assignment>): set<Assignment> {
    set t | t in tails :: [heads] + t
  }

  ghost function AllAssignments(n: nat): set<Assignment> {
    if n == 0 then {[]} else Cons(false, AllAssignments(n - 1)) + Cons(true, AllAssignments(n - 1))
  }

  lemma {:induction false} ConsSize(b: bool, tails: set<Assignment>)
    ensures |Cons(b, tails)| == |tails|
  {
    if tails == {} {
      assert Cons(b, tails) == {};
    } else {
      var t :| t in tails;
      ConsSize(b, tails - {t});
      assert Cons(b, tails) == Cons(b, tails - {t}) + {[b] + t};
      forall u | u in tails - {t}
        ensures [b] + u != [b] + t
      {
        assert ([b] + t)[1..] == t && ([b] + u)[1..] == u;
      }
    }
  }

  lemma ConsMember(b: bool, tails: set<Assignment>, v: Assignment)
    ensures v in Cons(b, tails) <==> v != [] && v[0] == b && v[1..] in tails
  {
    if v != [] && v[0] == b && v[1..] in tails {
      assert v == [b] + v[1..];
    }
    if v in Cons(b, tails) {
      var t :| t in tails && v == [b] + t;
      assert v[1..] == t;
    }
  }

  lemma {:induction false} AllAssignmentsMember(n: nat, v: Assignment)
    ensures v in AllAssignments(n) <==> |v| == n
  {
    if n > 0 {
      ConsMember(false, AllAssignments(n - 1), v);
      ConsMember(true, AllAssignments(n - 1), v);
      if v != [] {
        AllAssignmentsMember(n - 1, v[1..]);
      }
    }
  }

  lemma {:induction false} AllAssignmentsSize(n: nat)
    ensures |AllAssignments(n)| == Pow2(n)
  {
    if n > 0 {
      var off, on := Cons(false, AllAssignments(n - 1)), Cons(true, AllAssignments(n - 1));
      AllAssignmentsSize(n - 1);
      ConsSize(false, AllAssignments(n - 1));
      ConsSize(true, AllAssignments(n - 1));
      assert (forall v :: v in off ==> !v[0]) && (forall v :: v in on ==> v[0]);
      assert off !! on;
      assert |off + on| == |off| + |on|;
    }
  }

  lemma AllAssignmentsExact(n: nat)
    ensures |AllAssignments(n)| == Pow2(n)
    ensures forall v :: v in AllAssignments(n) <==> |v| == n
  {
    AllAssignmentsSize(n);
    forall v
      ensures v in AllAssignments(n) <==> |v| == n
    {
      AllAssignmentsMember(n, v);
    }
  }

  /** The members of a set of assignments that meet the constraint with this target bit. */
  ghost function Meeting(models: set<Assignment>, n: nat, selected: seq<nat>, target: bool): set<Assignment>
    requires Selection(selected, n) && forall v :: v in models ==> |v| == n
  {
    set v | v in models && OddCount(selected, v) == target
  }

  /** The two target bits split any set of models into disjoint parts. */
  lemma TargetsSplit(models: set<Assignment>, n: nat, selected: seq<nat>)
    requires Selection(selected, n) && forall v :: v in models ==> |v| == n
    ensures Meeting(models, n, selected, true) !! Meeting(models, n, selected, false)
    ensures Meeting(models, n, selected, true) + Meeting(models, n, selected, false) == models
    ensures |Meeting(models, n, selected, true)| + |Meeting(models, n, selected, false)| == |models|
  {
    var odd, even := Meeting(models, n, selected, true), Meeting(models, n, selected, false);
    assert odd + even == models;
    assert |odd + even| == |odd| + |even|;
  }

  function Flip(v: Assignment, i: nat): Assignment
    requires i < |v|
  {
    v[i := !v[i]]
  }

  lemma {:induction false} FlipUnselected(selected: seq<nat>, v: Assignment, i: nat)
    requires Selection(selected, |v|) && i < |v| && i !in selected
    ensures OddCount(selected, Flip(v, i)) == OddCount(selected, v)
  {
    if selected != [] {
      assert selected[|selected| - 1] in selected;
      FlipUnselected(selected[..|selected| - 1], v, i);
    }
  }

  lemma FlipLast(selected: seq<nat>, v: Assignment)
    requires Selection(selected, |v|) && selected != []
    ensures OddCount(selected, Flip(v, selected[|selected| - 1])) != OddCount(selected, v)
  {
    var last := selected[|selected| - 1];
    assert last !in selected[..|selected| - 1];
    FlipUnselected(selected[..|selected| - 1], v, last);
  }

  ghost function Flipped(vs: set<Assignment>, n: nat, i: nat): set<Assignment>
    requires i < n && forall v :: v in vs ==> |v| == n
  {
    set v | v in vs :: Flip(v, i)
  }

  lemma {:induction false} FlippedSize(vs: set<Assignment>, n: nat, i: nat)
    requires i < n && forall v :: v in vs ==> |v| == n
    ensures |Flipped(vs, n, i)| == |vs|
    decreases |vs|
  {
    if vs == {} {
      assert Flipped(vs, n, i) == {};
    } else {
      var v :| v in vs;
      FlippedSize(vs - {v}, n, i);
      assert Flipped(vs, n, i) == Flipped(vs - {v}, n, i) + {Flip(v, i)};
      forall u | u in vs - {v}
        ensures Flip(u, i) != Flip(v, i)
      {
        assert Flip(Flip(u, i), i) == u && Flip(Flip(v, i), i) == v;
      }
    }
  }

  /** Flipping the last selected variable turns one target into the other. */
  lemma NoMoreThanOther(n: nat, selected: seq<nat>, target: bool)
    requires Selection(selected, n) && selected != []
    requires forall v :: v in AllAssignments(n) <==> |v| == n
    ensures |Meeting(AllAssignments(n), n, selected, target)| <= |Meeting(AllAssignments(n), n, selected, !target)|
  {
    var last := selected[|selected| - 1];
    var mine := Meeting(AllAssignments(n), n, selected, target);
    var other := Meeting(AllAssignments(n), n, selected, !target);
    FlippedSize(mine, n, last);
    forall u | u in Flipped(mine, n, last)
      ensures u in other
    {
      var v :| v in mine && u == Flip(v, last);
      FlipLast(selected, v);
    }
    SubsetSize(Flipped(mine, n, last), other);
  }

  /** A nonempty parity constraint is met by exactly half of all assignments. */
  lemma HalfMeet(n: nat, selected: seq<nat>, target: bool)
    requires Selection(selected, n) && selected != []
    ensures n >= 1 && (forall v :: v in AllAssignments(n) <==> |v| == n)
    ensures |Meeting(AllAssignments(n), n, selected, target)| == Pow2(n - 1)
  {
    AllAssignmentsExact(n);
    TargetsSplit(AllAssignments(n), n, selected);
    NoMoreThanOther(n, selected, true);
    NoMoreThanOther(n, selected, false);
  }
}
