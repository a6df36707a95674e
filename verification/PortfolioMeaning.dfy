/** What reordering assertions means to the solver that reads the script (portfolio.rs:160-206). */
module PortfolioMeaning {
  import opened Portfolio

  /** Any solver: what an assertion and what another command do to its state, and what the command
      answers. */
  datatype Solver<!S, !O, !T> = Solver(add: (S, T) -> S, command: (S, T) -> S, answer: (S, T) -> O)

  /** Conjunction is commutative. */
  ghost predicate Commutes<S(!new), O, T(!new)>(solver: Solver<S, O, T>) {
    forall s, f, g :: solver.add(solver.add(s, f), g) == solver.add(solver.add(s, g), f)
  }

  /** The state after a list of commands, and the answers on the way. */
  function Run<S, O, T>(solver: Solver<S, O, T>, isAssert: T -> bool, s: S, items: seq<T>): (r: (S, seq<O>)) {
    if items == [] then (s, [])
    else
      var (before, answers) := Run(solver, isAssert, s, items[..|items| - 1]);
      var item := items[|items| - 1];
      if isAssert(item) then (solver.add(before, item), answers)
      else (solver.command(before, item), answers + [solver.answer(before, item)])
  }

  lemma {:induction false} RunAppend<S, O, T>(solver: Solver<S, O, T>, isAssert: T -> bool, s: S, a: seq<T>, b: seq<T>)
    ensures var middle := Run(solver, isAssert, s, a);
            var end := Run(solver, isAssert, middle.0, b);
            Run(solver, isAssert, s, a + b) == (end.0, middle.1 + end.1)
  {
    if b == [] {
      assert a + b == a;
      assert Run(solver, isAssert, s, a).1 + [] == Run(solver, isAssert, s, a).1;
    } else {
      var init, item := b[..|b| - 1], b[|b| - 1];
      RunAppend(solver, isAssert, s, a, init);
      assert (a + b)[..|a + b| - 1] == a + init;
      var middle := Run(solver, isAssert, s, a);
      var end := Run(solver, isAssert, middle.0, init);
      var answer := solver.answer(end.0, item);
      assert middle.1 + (end.1 + [answer]) == (middle.1 + end.1) + [answer];
    }
  }

  // ================================================================ permuted assertions

  function AddAll<S, O, T>(solver: Solver<S, O, T>, s: S, asserts: seq<T>): S {
    if asserts == [] then s
    else solver.add(AddAll(solver, s, asserts[..|asserts| - 1]), asserts[|asserts| - 1])
  }

  lemma {:induction false} RunAsserts<S, O>(solver: Solver<S, O, string>, isAssert: string -> bool, s: S,
                                            asserts: seq<string>)
    requires AllAre(isAssert, true, asserts)
    ensures Run(solver, isAssert, s, asserts) == (AddAll(solver, s, asserts), [])
  {
    if asserts != [] {
      RunAsserts(solver, isAssert, s, asserts[..|asserts| - 1]);
    }
  }

  function Without<T>(s: seq<T>, i: nat): seq<T>
    requires i < |s|
  {
    s[..i] + s[i + 1..]
  }

  /** One assertion may as well come last. */
  lemma {:induction false} AddLast<S(!new), O, T(!new)>(solver: Solver<S, O, T>, s: S, asserts: seq<T>, i: nat)
    requires Commutes(solver) && i < |asserts|
    ensures AddAll(solver, s, asserts) == solver.add(AddAll(solver, s, Without(asserts, i)), asserts[i])
    decreases |asserts|
  {
    var n := |asserts| - 1;
    var init := asserts[..n];
    if i == n {
      assert Without(asserts, i) == init;
    } else {
      AddLast(solver, s, init, i);
      assert Without(asserts, i)[..n - 1] == Without(init, i);
    }
  }

  lemma Occurrence<T>(a: seq<T>, b: seq<T>) returns (i: nat)
    requires b != [] && multiset(a) == multiset(b)
    ensures i < |a| && a[i] == b[|b| - 1] && multiset(Without(a, i)) == multiset(b[..|b| - 1])
  {
    var last := b[|b| - 1];
    assert b == b[..|b| - 1] + [last];
    assert last in multiset(a);
    i :| 0 <= i < |a| && a[i] == last;
    Cut(a, i);
    Cut(b, |b| - 1);
    assert Without(b, |b| - 1) == b[..|b| - 1];
    assert multiset(a) - multiset{last} == multiset(Without(a, i));
    assert multiset(b) - multiset{last} == multiset(Without(b, |b| - 1));
  }

  lemma Cut<T>(s: seq<T>, i: nat)
    requires i < |s|
    ensures multiset(s) == multiset(Without(s, i)) + multiset{s[i]}
  {
    assert s == s[..i] + [s[i]] + s[i + 1..];
  }

  lemma {:induction false} AddPermuted<S(!new), O, T(!new)>(solver: Solver<S, O, T>, s: S, a: seq<T>, b: seq<T>)
    requires Commutes(solver) && multiset(a) == multiset(b)
    ensures AddAll(solver, s, a) == AddAll(solver, s, b)
    decreases |b|
  {
    if b == [] {
      assert |multiset(a)| == 0;
    } else {
      var last := b[|b| - 1];
      var i := Occurrence(a, b);
      AddPermuted(solver, s, Without(a, i), b[..|b| - 1]);
      AddLast(solver, s, a, i);
    }
  }

  // ================================================================ unbroken assertions

  /** `moved` tells the forms that are reordered, `isAssert` those the solver takes for assertions. */
  predicate Covers(moved: string -> bool, isAssert: string -> bool, forms: seq<string>) {
    forall i :: 0 <= i < |forms| && moved(forms[i]) ==> isAssert(forms[i])
  }

  /** Nothing but assertions stands between two reordered forms. */
  predicate Unbroken(moved: string -> bool, isAssert: string -> bool, forms: seq<string>) {
    forall i, j, k :: 0 <= i < j < k < |forms| && moved(forms[i]) && moved(forms[k]) ==> isAssert(forms[j])
  }

  /** Where the last reordered form ends. */
  function AfterLast(moved: string -> bool, forms: seq<string>): (m: nat)
    ensures m <= |forms| && (forall i :: m <= i < |forms| ==> !moved(forms[i])) && (m > 0 ==> moved(forms[m - 1]))
  {
    if forms == [] || moved(forms[|forms| - 1]) then |forms| else AfterLast(moved, forms[..|forms| - 1])
  }

  /** Unbroken reordered forms lie in a run of assertions between other commands. */
  lemma UnbrokenParts(moved: string -> bool, isAssert: string -> bool, forms: seq<string>)
    returns (pre: seq<string>, middle: seq<string>, post: seq<string>)
    requires Covers(moved, isAssert, forms) && Unbroken(moved, isAssert, forms)
    ensures forms == pre + middle + post && pre == forms[..FirstAssert(moved, forms)]
    ensures AllAre(moved, false, pre) && AllAre(isAssert, true, middle) && AllAre(moved, false, post)
  {
    var k, m := FirstAssert(moved, forms), AfterLast(moved, forms);
    FirstAssertIs(moved, forms);
    if m <= k {
      pre, middle, post := forms[..k], [], forms[k..];
    } else {
      forall j | k <= j < m
        ensures isAssert(forms[j])
      {
        if j != k && j != m - 1 { assert k < j < m - 1; }
      }
      pre, middle, post := forms[..k], forms[k..m], forms[m..];
    }
  }

  lemma {:induction false} KindsApart(moved: string -> bool, forms: seq<string>)
    ensures multiset(forms) == multiset(Select(moved, true, forms)) + multiset(Select(moved, false, forms))
  {
    if forms != [] {
      KindsApart(moved, forms[..|forms| - 1]);
      assert forms == forms[..|forms| - 1] + [forms[|forms| - 1]];
    }
  }

  /** What Rearranged makes of the three parts. */
  lemma RearrangedThree(moved: string -> bool, isAssert: string -> bool, forms: seq<string>, ordered: seq<string>,
                        pre: seq<string>, middle: seq<string>, post: seq<string>)
    requires forms == pre + middle + post && pre == forms[..FirstAssert(moved, forms)]
    requires AllAre(moved, false, pre) && AllAre(isAssert, true, middle) && AllAre(moved, false, post)
    requires multiset(ordered) == multiset(Select(moved, true, forms))
    ensures Rearranged(moved, forms, ordered) == pre + (ordered + Select(moved, false, middle)) + post
    ensures multiset(ordered + Select(moved, false, middle)) == multiset(middle)
  {
    AfterPrefix(pre, middle, post);
    LeftAfter(moved, middle, post);
    MovedWithin(moved, pre, middle, post);
    KindsApart(moved, middle);
    Regrouped(pre, ordered, Select(moved, false, middle), post);
  }

  lemma AfterPrefix(a: seq<string>, b: seq<string>, c: seq<string>)
    ensures (a + b + c)[|a|..] == b + c
  {
  }

  lemma Regrouped(a: seq<string>, b: seq<string>, c: seq<string>, d: seq<string>)
    ensures a + b + (c + d) == a + (b + c) + d
  {
  }

  lemma LeftAfter(moved: string -> bool, middle: seq<string>, post: seq<string>)
    requires AllAre(moved, false, post)
    ensures Select(moved, false, middle + post) == Select(moved, false, middle) + post
  {
    SelectAppend(moved, false, middle, post);
    SelectPure(moved, false, post);
  }

  lemma MovedWithin(moved: string -> bool, pre: seq<string>, middle: seq<string>, post: seq<string>)
    requires AllAre(moved, false, pre) && AllAre(moved, false, post)
    ensures Select(moved, true, pre + middle + post) == Select(moved, true, middle)
  {
    SelectPure(moved, false, pre);
    SelectPure(moved, false, post);
    SelectThree(moved, true, pre, middle, post);
    Padded(Select(moved, true, middle), []);
  }

  /** Where assertions alone are passed, every solver for which conjunction commutes gives the same
      answers and ends in the same state, whatever the ordering. */
  lemma ReorderedRunsAlike<S(!new), O>(solver: Solver<S, O, string>, moved: string -> bool, isAssert: string -> bool,
                                       s: S, forms: seq<string>, ordered: seq<string>)
    requires Commutes(solver) && Covers(moved, isAssert, forms) && Unbroken(moved, isAssert, forms)
    requires multiset(ordered) == multiset(Select(moved, true, forms))
    ensures Run(solver, isAssert, s, Rearranged(moved, forms, ordered)) == Run(solver, isAssert, s, forms)
  {
    var pre, middle, post := UnbrokenParts(moved, isAssert, forms);
    RearrangedThree(moved, isAssert, forms, ordered, pre, middle, post);
    var middle' := ordered + Select(moved, false, middle);
    SameKind(isAssert, middle, middle');
    var state := Run(solver, isAssert, s, pre).0;
    RunAsserts(solver, isAssert, state, middle);
    RunAsserts(solver, isAssert, state, middle');
    AddPermuted(solver, state, middle', middle);
    RunAppend(solver, isAssert, s, pre, middle);
    RunAppend(solver, isAssert, s, pre, middle');
    RunAppend(solver, isAssert, s, pre + middle, post);
    RunAppend(solver, isAssert, s, pre + middle', post);
  }

  lemma SameKind(isAssert: string -> bool, a: seq<string>, b: seq<string>)
    requires AllAre(isAssert, true, a) && multiset(b) == multiset(a)
    ensures AllAre(isAssert, true, b)
  {
    forall i | 0 <= i < |b|
      ensures isAssert(b[i])
    {
      assert b[i] in multiset(b);
      assert b[i] in a;
    }
  }

  // ================================================================ and only then

  /** The solver that answers with the number of assertions it has been given. */
  function Counter<T>(): Solver<nat, nat, T> {
    Solver((s, f) => s + 1, (s, f) => s, (s, f) => s)
  }

  lemma {:induction false} CountsAlike<A, B>(isA: A -> bool, isB: B -> bool, a: seq<A>, b: seq<B>)
    requires |a| == |b| && forall i :: 0 <= i < |a| ==> isA(a[i]) == isB(b[i])
    ensures Run(Counter<A>(), isA, 0, a) == Run(Counter<B>(), isB, 0, b)
    decreases |a|
  {
    if a != [] {
      CountsAlike(isA, isB, a[..|a| - 1], b[..|b| - 1]);
    }
  }

  lemma {:induction false} Counted(isAssert: string -> bool, forms: seq<string>)
    ensures var r := Run(Counter(), isAssert, 0, forms);
            r.0 == |Select(isAssert, true, forms)| && |r.1| == |Select(isAssert, false, forms)|
  {
    if forms != [] {
      Counted(isAssert, forms[..|forms| - 1]);
    }
  }

  /** The answer to the command between a and b counts the assertions of a. */
  lemma CountedAt(isAssert: string -> bool, a: seq<string>, command: string, b: seq<string>)
    requires !isAssert(command)
    ensures var answers := Run(Counter(), isAssert, 0, a + [command] + b).1;
            var n := |Select(isAssert, false, a)|;
            n < |answers| && answers[n] == |Select(isAssert, true, a)|
  {
    Counted(isAssert, a);
    RunAppend(Counter(), isAssert, 0, a + [command], b);
    assert (a + [command])[..|a|] == a;
  }

  /** Moving assertions away leaves the commands alone. */
  lemma {:induction false} SelectUnmoved(moved: string -> bool, isAssert: string -> bool, forms: seq<string>)
    requires Covers(moved, isAssert, forms)
    ensures var rest := Select(moved, false, forms);
            && Select(isAssert, false, rest) == Select(isAssert, false, forms)
            && |Select(isAssert, true, rest)| + |Select(moved, true, forms)| == |Select(isAssert, true, forms)|
  {
    if forms != [] {
      var init, last := forms[..|forms| - 1], forms[|forms| - 1];
      SelectUnmoved(moved, isAssert, init);
      var rest := Select(moved, false, init);
      if !moved(last) {
        assert (rest + [last])[..|rest|] == rest;
      } else {
        assert rest + [] == rest;
      }
    }
  }

  /** What a command sees before it, with the reordered assertions moved in front of it. */
  lemma SeenBefore(moved: string -> bool, isAssert: string -> bool, pre: seq<string>, early: seq<string>,
                   ordered: seq<string>)
    requires Covers(moved, isAssert, early) && AllAre(isAssert, true, ordered)
    ensures var all := pre + ordered + Select(moved, false, early);
            && |Select(isAssert, false, all)| == |Select(isAssert, false, pre + early)|
            && |Select(isAssert, true, all)| + |Select(moved, true, early)|
               == |Select(isAssert, true, pre + early)| + |ordered|
  {
    var kept := Select(moved, false, early);
    SelectUnmoved(moved, isAssert, early);
    SelectThree(isAssert, false, pre, ordered, kept);
    SelectThree(isAssert, true, pre, ordered, kept);
    SelectAppend(isAssert, false, pre, early);
    SelectAppend(isAssert, true, pre, early);
    SelectPure(isAssert, true, ordered);
  }

  lemma OrderedAssert(moved: string -> bool, isAssert: string -> bool, forms: seq<string>, ordered: seq<string>)
    requires Covers(moved, isAssert, forms) && multiset(ordered) == multiset(Select(moved, true, forms))
    ensures AllAre(isAssert, true, ordered) && |ordered| == |Select(moved, true, forms)|
  {
    PermutationKind(moved, forms, ordered);
    assert |multiset(ordered)| == |ordered| && |multiset(Select(moved, true, forms))| == |Select(moved, true, forms)|;
    forall i | 0 <= i < |ordered|
      ensures isAssert(ordered[i])
    {
      assert ordered[i] in ordered;
      var j :| 0 <= j < |forms| && forms[j] == ordered[i];
    }
  }

  /** A command between two reordered assertions sees more of them afterwards, however they are ordered. */
  lemma BrokenSeen(moved: string -> bool, isAssert: string -> bool, forms: seq<string>, ordered: seq<string>,
                   i: nat, j: nat, k: nat)
    requires i < j < k < |forms| && moved(forms[i]) && !isAssert(forms[j]) && moved(forms[k])
    requires Covers(moved, isAssert, forms) && multiset(ordered) == multiset(Select(moved, true, forms))
    ensures Run(Counter(), isAssert, 0, Rearranged(moved, forms, ordered)).1
         != Run(Counter(), isAssert, 0, forms).1
  {
    var first := FirstAssert(moved, forms);
    FirstAssertIs(moved, forms);
    var pre, early, late := forms[..first], forms[first..j], forms[j + 1..];
    OrderedAssert(moved, isAssert, forms, ordered);
    MovedBehind(moved, forms, first, j, k);
    CoversSlice(moved, isAssert, forms, first, j);
    RearrangedAt(moved, forms, ordered, j);
    assert forms == pre + early + [forms[j]] + late by { Apart(forms, first, j); }
    CountsDiffer(moved, isAssert, pre, early, ordered, forms[j], late, Select(moved, false, late));
  }

  lemma CoversSlice(moved: string -> bool, isAssert: string -> bool, forms: seq<string>, a: nat, b: nat)
    requires a <= b <= |forms| && Covers(moved, isAssert, forms)
    ensures Covers(moved, isAssert, forms[a..b])
  {
  }

  lemma CountsDiffer(moved: string -> bool, isAssert: string -> bool, pre: seq<string>, early: seq<string>,
                     ordered: seq<string>, command: string, late: seq<string>, late': seq<string>)
    requires Covers(moved, isAssert, early) && AllAre(isAssert, true, ordered) && !isAssert(command)
    requires |ordered| > |Select(moved, true, early)|
    ensures Run(Counter(), isAssert, 0, pre + ordered + Select(moved, false, early) + [command] + late').1
         != Run(Counter(), isAssert, 0, pre + early + [command] + late).1
  {
    CountedAt(isAssert, pre + early, command, late);
    CountedAt(isAssert, pre + ordered + Select(moved, false, early), command, late');
    SeenBefore(moved, isAssert, pre, early, ordered);
  }

  lemma MovedBehind(moved: string -> bool, forms: seq<string>, first: nat, j: nat, k: nat)
    requires first <= j < k < |forms| && moved(forms[k]) && AllAre(moved, false, forms[..first])
    ensures |Select(moved, true, forms)| > |Select(moved, true, forms[first..j])|
  {
    assert forms == forms[..first] + forms[first..j] + forms[j..] && forms[j..][k - j] == forms[k];
    MoreMoved(moved, forms, forms[..first], forms[first..j], forms[j..], k - j);
  }

  lemma Apart(forms: seq<string>, first: nat, j: nat)
    requires first <= j < |forms|
    ensures forms == forms[..first] + forms[first..j] + [forms[j]] + forms[j + 1..]
    ensures forms == (forms[..first] + forms[first..j]) + ([forms[j]] + forms[j + 1..])
    ensures forms[first..] == forms[first..j] + [forms[j]] + forms[j + 1..]
  {
  }

  lemma RearrangedAt(moved: string -> bool, forms: seq<string>, ordered: seq<string>, j: nat)
    requires j < |forms| && !moved(forms[j]) && FirstAssert(moved, forms) <= j
    ensures Rearranged(moved, forms, ordered)
         == forms[..FirstAssert(moved, forms)] + ordered
            + Select(moved, false, forms[FirstAssert(moved, forms)..j]) + [forms[j]]
            + Select(moved, false, forms[j + 1..])
  {
    var first := FirstAssert(moved, forms);
    var early, late := forms[first..j], forms[j + 1..];
    Apart(forms, first, j);
    SelectThree(moved, false, early, [forms[j]], late);
    SelectPure(moved, false, [forms[j]]);
    Flat(forms[..first] + ordered, Select(moved, false, early), [forms[j]], Select(moved, false, late));
  }

  lemma Flat(a: seq<string>, b: seq<string>, c: seq<string>, d: seq<string>)
    ensures a + (b + c + d) == a + b + c + d
  {
  }

  lemma MoreMoved(moved: string -> bool, forms: seq<string>, pre: seq<string>, a: seq<string>, b: seq<string>, k: nat)
    requires forms == pre + a + b && AllAre(moved, false, pre) && k < |b| && moved(b[k])
    ensures |Select(moved, true, forms)| > |Select(moved, true, a)|
  {
    SelectPure(moved, false, pre);
    SelectThree(moved, true, pre, a, b);
    assert b == b[..k] + [b[k]] + b[k + 1..];
    SelectThree(moved, true, b[..k], [b[k]], b[k + 1..]);
    SelectPure(moved, true, [b[k]]);
  }

  /** Exactly the unbroken scripts mean the same reordered: every commuting solver answers alike, for
      every ordering. */
  lemma ReorderingSafeIffUnbroken(moved: string -> bool, isAssert: string -> bool,
                                  forms: seq<string>, ordered: seq<string>)
    requires Covers(moved, isAssert, forms) && multiset(ordered) == multiset(Select(moved, true, forms))
    ensures Unbroken(moved, isAssert, forms)
      <==> Run(Counter(), isAssert, 0, Rearranged(moved, forms, ordered)).1
           == Run(Counter(), isAssert, 0, forms).1
    ensures Commutes(Counter<string>())
  {
    if Unbroken(moved, isAssert, forms) {
      ReorderedRunsAlike(Counter(), moved, isAssert, 0, forms, ordered);
    } else {
      var i, j, k :| 0 <= i < j < k < |forms| && moved(forms[i]) && moved(forms[k]) && !isAssert(forms[j]);
      BrokenSeen(moved, isAssert, forms, ordered, i, j, k);
    }
  }
}
