/** Splitting a script into forms and permuting its assertions in place (portfolio.rs). */
module Portfolio {
  import opened Prelude
  import opened RustText

  // ================================================================ top-level forms

  /** The scanner: parenthesis depth, and where the current form began. */
  datatype Scan = Scan(depth: int, start: Option<nat>, forms: seq<string>)

  function ScanChar(text: string, i: nat, s: Scan): Scan
    requires i < |text| && (s.start.Some? ==> s.start.value <= i)
  {
    if text[i] == '(' then
      s.(depth := s.depth + 1, start := if s.depth == 0 then Some(i) else s.start)
    else if text[i] == ')' then
      if s.depth == 1 && s.start.Some?
      then Scan(0, None, s.forms + [text[s.start.value..i + 1]])
      else s.(depth := s.depth - 1)
    else s
  }

  function ScanPrefix(text: string, n: nat): (s: Scan)
    requires n <= |text|
    ensures s.start.Some? ==> s.start.value < n
  {
    if n == 0 then Scan(0, None, []) else ScanChar(text, n - 1, ScanPrefix(text, n - 1))
  }

  function Forms(text: string): seq<string> {
    ScanPrefix(text, |text|).forms
  }

  method TopLevelForms(script: string) returns (forms: seq<string>)
    ensures forms == Forms(script)
  {
    var depth: int, start: Option<nat> := 0, None;
    forms := [];
    for i := 0 to |script|
      invariant ScanPrefix(script, i) == Scan(depth, start, forms)
    {
      var c := script[i];
      if c == '(' {
        if depth == 0 {
          start := Some(i);
        }
        depth := depth + 1;
      } else if c == ')' {
        depth := depth - 1;
        if depth == 0 && start.Some? {
          forms := forms + [script[start.value..i + 1]];
          start := None;
        }
      }
    }
  }

  /** Parenthesis depth after n characters. */
  function Depth(text: string, n: nat): int
    requires n <= |text|
  {
    if n == 0 then 0
    else Depth(text, n - 1) + (if text[n - 1] == '(' then 1 else if text[n - 1] == ')' then -1 else 0)
  }

  /** One form: opened by its first character and closed only by its last. */
  predicate IsForm(f: string) {
    && |f| >= 2 && f[0] == '('
    && (forall n :: 0 < n < |f| ==> Depth(f, n) > 0)
    && Depth(f, |f|) == 0
  }

  lemma {:induction false} DepthSlice(text: string, a: nat, n: nat)
    requires a + n <= |text|
    ensures Depth(text[a..a + n], n) == Depth(text, a + n) - Depth(text, a)
    decreases n
  {
    if n > 0 {
      DepthSlice(text, a, n - 1);
      DepthPrefix(text[a..a + n], text[a..a + n - 1], n - 1);
    }
  }

  /** Depth looks only at what precedes. */
  lemma {:induction false} DepthPrefix(s: string, t: string, n: nat)
    requires n <= |s| && n <= |t| && s[..n] == t[..n]
    ensures Depth(s, n) == Depth(t, n)
  {
    if n > 0 {
      assert s[..n - 1] == s[..n][..n - 1] && t[..n - 1] == t[..n][..n - 1];
      assert s[n - 1] == s[..n][n - 1] && t[n - 1] == t[..n][n - 1];
      DepthPrefix(s, t, n - 1);
    }
  }

  /** The scanner's depth is the depth, and an open form has been open since its start. */
  ghost predicate Scanned(text: string, n: nat, s: Scan)
    requires n <= |text|
  {
    && s.depth == Depth(text, n)
    && (s.start.Some? <==> s.depth > 0)
    && (s.start.Some? ==>
          && s.start.value < n && text[s.start.value] == '(' && Depth(text, s.start.value) == 0
          && forall k :: s.start.value < k <= n ==> Depth(text, k) > 0)
    && forall i :: 0 <= i < |s.forms| ==> IsForm(s.forms[i])
  }

  lemma {:induction false} ScanInvariant(text: string, n: nat)
    requires n <= |text|
    ensures Scanned(text, n, ScanPrefix(text, n))
  {
    if n > 0 {
      ScanInvariant(text, n - 1);
      var s := ScanPrefix(text, n - 1);
      if text[n - 1] == ')' && s.depth == 1 {
        SliceIsForm(text, s.start.value, n);
      }
    }
  }

  lemma SliceIsForm(text: string, a: nat, b: nat)
    requires a < b - 1 < |text| && text[a] == '(' && Depth(text, a) == 0 && Depth(text, b) == 0
    requires forall k :: a < k < b ==> Depth(text, k) > 0
    ensures IsForm(text[a..b])
  {
    var f := text[a..b];
    forall n | 0 < n <= |f|
      ensures Depth(f, n) == Depth(text, a + n)
    {
      DepthSlice(text, a, n);
      DepthPrefix(f, text[a..a + n], n);
    }
  }

  /** Whatever the script, every form split off it is one balanced form. */
  lemma FormsAreForms(text: string)
    ensures forall i :: 0 <= i < |Forms(text)| ==> IsForm(Forms(text)[i])
  {
    ScanInvariant(text, |text|);
  }

  // ================================================================ splitting again

  function Joined(forms: seq<string>): string {
    if forms == [] then "" else Joined(forms[..|forms| - 1]) + forms[|forms| - 1] + "\n"
  }

  /** The scanner crosses one form, from outside to outside. */
  lemma {:induction false} ScanInside(text: string, a: nat, f: string, n: nat, forms: seq<string>)
    requires a + |f| <= |text| && text[a..a + |f|] == f && IsForm(f)
    requires ScanPrefix(text, a) == Scan(0, None, forms) && 0 < n < |f|
    ensures ScanPrefix(text, a + n) == Scan(Depth(f, n), Some(a), forms)
    decreases n
  {
    assert text[a + n - 1] == f[n - 1];
    if n == 1 {
      assert text[a] == f[0] && Depth(f, 0) == 0;
    } else {
      ScanInside(text, a, f, n - 1, forms);
    }
  }

  lemma ScanForm(text: string, a: nat, f: string, forms: seq<string>)
    requires a + |f| <= |text| && text[a..a + |f|] == f && IsForm(f)
    requires ScanPrefix(text, a) == Scan(0, None, forms)
    ensures ScanPrefix(text, a + |f|) == Scan(0, None, forms + [f])
  {
    var n := |f| - 1;
    ScanInside(text, a, f, n, forms);
    assert text[a + n] == f[n];
    assert Depth(f, n) == 1 && f[n] == ')';
  }

  /** The scan of a prefix does not depend on what follows. */
  lemma {:induction false} ScanAppend(s: string, t: string, n: nat)
    requires n <= |s|
    ensures ScanPrefix(s + t, n) == ScanPrefix(s, n)
  {
    if n > 0 {
      ScanAppend(s, t, n - 1);
      var scan := ScanPrefix(s, n - 1);
      if scan.start.Some? {
        assert (s + t)[scan.start.value..n] == s[scan.start.value..n];
      }
    }
  }

  /** One more form on a line of its own. */
  lemma ScanLine(head: string, form: string, forms: seq<string>)
    requires IsForm(form) && ScanPrefix(head + (form + "\n"), |head|) == Scan(0, None, forms)
    ensures var text := head + (form + "\n");
            ScanPrefix(text, |text|) == Scan(0, None, forms + [form])
  {
    var text := head + (form + "\n");
    assert text[|head|..|head| + |form|] == form;
    ScanForm(text, |head|, form, forms);
    assert text[|text| - 1] == '\n';
  }

  /** Forms written one per line are split off again unchanged. */
  lemma {:induction false} JoinedSplits(forms: seq<string>)
    requires forall i :: 0 <= i < |forms| ==> IsForm(forms[i])
    ensures ScanPrefix(Joined(forms), |Joined(forms)|) == Scan(0, None, forms)
  {
    if forms != [] {
      var init, last := forms[..|forms| - 1], forms[|forms| - 1];
      var head := Joined(init);
      JoinedSplits(init);
      ScanAppend(head, last + "\n", |head|);
      ScanLine(head, last, init);
      assert Joined(forms) == head + (last + "\n") && init + [last] == forms;
    }
  }

  // ================================================================ assert forms

  predicate IsAssertForm(form: string) {
    match StripPrefix(Trim(form), "(")
    case None => false
    case Some(rest) =>
      match StripPrefix(TrimStart(rest), "assert")
      case None => false
      case Some(after) => after == "" || IsSpace(after[0]) || after[0] == '('
  }

  /** The forms on which isAssert has the wanted value, in order. */
  function Select(isAssert: string -> bool, wanted: bool, forms: seq<string>): seq<string> {
    if forms == [] then []
    else
      var last := forms[|forms| - 1];
      Select(isAssert, wanted, forms[..|forms| - 1]) + (if isAssert(last) == wanted then [last] else [])
  }

  function Asserts(forms: seq<string>): seq<string> { Select(IsAssertForm, true, forms) }

  function Others(forms: seq<string>): seq<string> { Select(IsAssertForm, false, forms) }

  lemma {:induction false} SelectAppend(isAssert: string -> bool, wanted: bool, a: seq<string>, b: seq<string>)
    ensures Select(isAssert, wanted, a + b) == Select(isAssert, wanted, a) + Select(isAssert, wanted, b)
  {
    if b == [] {
      assert a + b == a;
    } else {
      assert (a + b)[..|a + b| - 1] == a + b[..|b| - 1];
      SelectAppend(isAssert, wanted, a, b[..|b| - 1]);
    }
  }

  predicate AllAre(isAssert: string -> bool, wanted: bool, forms: seq<string>) {
    forall i :: 0 <= i < |forms| ==> isAssert(forms[i]) == wanted
  }

  lemma {:induction false} SelectPure(isAssert: string -> bool, wanted: bool, forms: seq<string>)
    requires AllAre(isAssert, wanted, forms)
    ensures Select(isAssert, wanted, forms) == forms && Select(isAssert, !wanted, forms) == []
  {
    if forms != [] {
      SelectPure(isAssert, wanted, forms[..|forms| - 1]);
    }
  }

  lemma {:induction false} SelectKind(isAssert: string -> bool, wanted: bool, forms: seq<string>)
    ensures AllAre(isAssert, wanted, Select(isAssert, wanted, forms))
    ensures forall f :: f in Select(isAssert, wanted, forms) ==> f in forms
  {
    if forms != [] {
      SelectKind(isAssert, wanted, forms[..|forms| - 1]);
    }
  }

  // ================================================================ orderings, in place

  datatype AssertOrdering = Original | Reversed | ShortestFirst | LongestFirst | Shuffled(seed: bv64)

  /** xorshift */
  class Generator {
    var state: bv64

    constructor (seed: bv64)
      ensures state == FirstState(seed) != 0
    {
      var s := seed ^ 0x9E37_79B9_7F4A_7C15;
      state := if s == 0 then 1 else s;
    }

    /** The state never reaches zero, where it would stay. */
    method Next() returns (r: bv64)
      requires state != 0
      modifies this
      ensures state != 0 && r == state == XorShift(old(state))
    {
      XorShiftNonZero(state);
      state := XorShift(state);
      r := state;
    }
  }

  function XorShift(s0: bv64): bv64 {
    var s1 := s0 ^ (s0 << 13);
    var s2 := s1 ^ (s1 >> 7);
    s2 ^ (s2 << 17)
  }

  lemma Left13(x: bv64)
    requires x != 0
    ensures x ^ (x << 13) != 0
  {
  }

  lemma Right7(x: bv64)
    requires x != 0
    ensures x ^ (x >> 7) != 0
  {
  }

  lemma Left17(x: bv64)
    requires x != 0
    ensures x ^ (x << 17) != 0
  {
  }

  lemma XorShiftNonZero(s: bv64)
    requires s != 0
    ensures XorShift(s) != 0
  {
    Left13(s);
    var s1 := s ^ (s << 13);
    Right7(s1);
    Left17(s1 ^ (s1 >> 7));
  }

  method Swap(a: array<string>, i: nat, j: nat)
    requires i < a.Length && j < a.Length
    modifies a
    ensures a[..] == old(a[..])[i := old(a[j])][j := old(a[i])]
    ensures multiset(a[..]) == multiset(old(a[..]))
  {
    a[i], a[j] := a[j], a[i];
  }

  function Swapped(s: seq<string>, i: nat, j: nat): (t: seq<string>)
    requires i < |s| && j < |s|
    ensures |t| == |s|
  {
    s[i := s[j]][j := s[i]]
  }

  /** What the generator started in `state` makes of the first n places. */
  function ShuffledFrom(s: seq<string>, n: nat, state: bv64): (t: seq<string>)
    requires n <= |s|
    ensures |t| == |s|
    decreases n
  {
    if n <= 1 then s
    else ShuffledFrom(Swapped(s, n - 1, (XorShift(state) as nat) % n), n - 1, XorShift(state))
  }

  function FirstState(seed: bv64): bv64 {
    if seed ^ 0x9E37_79B9_7F4A_7C15 == 0 then 1 else seed ^ 0x9E37_79B9_7F4A_7C15
  }

  /** Fisher-Yates from the end; the same seed always gives the same permutation. */
  method DeterministicShuffle(a: array<string>, seed: bv64)
    modifies a
    ensures multiset(a[..]) == multiset(old(a[..]))
    ensures a[..] == ShuffledFrom(old(a[..]), |old(a[..])|, FirstState(seed))
  {
    var generator := new Generator(seed);
    var i := a.Length;
    while i > 1
      invariant 0 <= i <= a.Length && generator.state != 0
      invariant multiset(a[..]) == multiset(old(a[..]))
      invariant ShuffledFrom(a[..], i, generator.state) == ShuffledFrom(old(a[..]), a.Length, FirstState(seed))
    {
      i := i - 1;
      var random := generator.Next();
      Swap(a, i, (random as nat) % (i + 1));
    }
  }

  method Reverse(a: array<string>)
    modifies a
    ensures a.Length == |old(a[..])| && forall k :: 0 <= k < a.Length ==> a[k] == old(a[..])[a.Length - 1 - k]
    ensures multiset(a[..]) == multiset(old(a[..]))
  {
    var i := 0;
    while i < a.Length / 2
      invariant 0 <= i <= a.Length / 2
      invariant forall k :: 0 <= k < i || a.Length - i <= k < a.Length ==> a[k] == old(a[..])[a.Length - 1 - k]
      invariant forall k :: i <= k < a.Length - i ==> a[k] == old(a[..])[k]
      invariant multiset(a[..]) == multiset(old(a[..]))
    {
      Swap(a, i, a.Length - 1 - i);
      i := i + 1;
    }
  }

  /** Length in bytes of the UTF-8 encoding. */
  function ByteLength(s: string): nat {
    if s == "" then 0
    else
      var u := s[0] as int;
      (if u < 0x80 then 1 else if u < 0x800 then 2 else if u < 0x1_0000 then 3 else 4) + ByteLength(s[1..])
  }

  function SortKey(s: string, longest: bool): int {
    if longest then 0 - ByteLength(s) as int else ByteLength(s)
  }

  /** The strings of one key, in order. */
  function OfKey(s: seq<string>, longest: bool, key: int): seq<string> {
    if s == [] then []
    else OfKey(s[..|s| - 1], longest, key) + (if SortKey(s[|s| - 1], longest) == key then [s[|s| - 1]] else [])
  }

  predicate Sorted(s: seq<string>, longest: bool) {
    forall i, j :: 0 <= i < j < |s| ==> SortKey(s[i], longest) <= SortKey(s[j], longest)
  }

  /** Strings of equal key keep their relative order. */
  ghost predicate Stable(before: seq<string>, after: seq<string>, longest: bool) {
    forall key :: OfKey(after, longest, key) == OfKey(before, longest, key)
  }

  lemma {:induction false} OfKeyAppend(a: seq<string>, b: seq<string>, longest: bool, key: int)
    ensures OfKey(a + b, longest, key) == OfKey(a, longest, key) + OfKey(b, longest, key)
  {
    if b == [] {
      assert a + b == a;
    } else {
      assert (a + b)[..|a + b| - 1] == a + b[..|b| - 1];
      OfKeyAppend(a, b[..|b| - 1], longest, key);
    }
  }

  /** Exchanging two neighbours of different keys is stable. */
  lemma NeighboursStable(s: seq<string>, k: nat, longest: bool)
    requires 0 < k < |s| && SortKey(s[k], longest) != SortKey(s[k - 1], longest)
    ensures Stable(s, Swapped(s, k, k - 1), longest)
  {
    var a, x, y, b := s[..k - 1], s[k - 1], s[k], s[k + 1..];
    assert s == a + ([x, y] + b);
    assert Swapped(s, k, k - 1) == a + ([y, x] + b);
    PairStable(a, x, y, b, longest);
  }

  lemma PairStable(a: seq<string>, x: string, y: string, b: seq<string>, longest: bool)
    requires SortKey(x, longest) != SortKey(y, longest)
    ensures Stable(a + ([x, y] + b), a + ([y, x] + b), longest)
  {
    forall key
      ensures OfKey(a + ([y, x] + b), longest, key) == OfKey(a + ([x, y] + b), longest, key)
    {
      PairOfKey(x, y, longest, key);
      PairOfKey(y, x, longest, key);
      AroundPair(a, [x, y], b, longest, key);
      AroundPair(a, [y, x], b, longest, key);
    }
  }

  lemma AroundPair(a: seq<string>, pair: seq<string>, b: seq<string>, longest: bool, key: int)
    ensures OfKey(a + (pair + b), longest, key)
         == OfKey(a, longest, key) + (OfKey(pair, longest, key) + OfKey(b, longest, key))
  {
    OfKeyAppend(pair, b, longest, key);
    OfKeyAppend(a, pair + b, longest, key);
  }

  lemma PairOfKey(x: string, y: string, longest: bool, key: int)
    ensures OfKey([x, y], longest, key)
         == (if SortKey(x, longest) == key then [x] else []) + (if SortKey(y, longest) == key then [y] else [])
  {
    assert [x, y][..1] == [x] && [x][..0] == [];
    assert OfKey([x], longest, key) == if SortKey(x, longest) == key then [x] else [];
  }

  lemma StableTrans(s: seq<string>, t: seq<string>, u: seq<string>, longest: bool)
    requires Stable(s, t, longest) && Stable(t, u, longest)
    ensures Stable(s, u, longest)
  {
  }

  method MoveDown(a: array<string>, k: nat, longest: bool)
    requires 0 < k < a.Length && SortKey(a[k], longest) != SortKey(a[k - 1], longest)
    modifies a
    ensures a[..] == Swapped(old(a[..]), k, k - 1) && Stable(old(a[..]), a[..], longest)
    ensures multiset(a[..]) == multiset(old(a[..]))
  {
    NeighboursStable(a[..], k, longest);
    Swap(a, k, k - 1);
  }

  /** The first n + 1 strings are in order but for the one at k, which is below those after it. */
  predicate SortedBut(s: seq<string>, n: nat, k: nat, longest: bool)
    requires n < |s|
  {
    forall i, j :: 0 <= i < j <= n && j != k ==> SortKey(s[i], longest) <= SortKey(s[j], longest)
  }

  lemma MovedDown(s: seq<string>, n: nat, k: nat, longest: bool)
    requires n < |s| && 0 < k <= n && SortedBut(s, n, k, longest)
    requires SortKey(s[k], longest) < SortKey(s[k - 1], longest)
    ensures SortedBut(Swapped(s, k, k - 1), n, k - 1, longest)
  {
  }

  /** Moves the n-th string down to its place among the first n. */
  method Insert(a: array<string>, n: nat, longest: bool)
    requires n < a.Length && Sorted(a[..n], longest)
    modifies a
    ensures multiset(a[..]) == multiset(old(a[..])) && Stable(old(a[..]), a[..], longest)
    ensures Sorted(a[..n + 1], longest)
  {
    var k := n;
    assert SortedBut(a[..], n, n, longest) by {
      assert forall i :: 0 <= i < n ==> a[..][i] == a[..n][i];
    }
    while k > 0 && SortKey(a[k], longest) < SortKey(a[k - 1], longest)
      invariant 0 <= k <= n
      invariant multiset(a[..]) == multiset(old(a[..])) && Stable(old(a[..]), a[..], longest)
      invariant SortedBut(a[..], n, k, longest)
    {
      ghost var before := a[..];
      MovedDown(before, n, k, longest);
      MoveDown(a, k, longest);
      StableTrans(old(a[..]), before, a[..], longest);
      k := k - 1;
    }
    Settled(a[..], n, k, longest);
    assert a[..][..n + 1] == a[..n + 1];
  }

  lemma Settled(s: seq<string>, n: nat, k: nat, longest: bool)
    requires n < |s| && k <= n && SortedBut(s, n, k, longest)
    requires k > 0 ==> SortKey(s[k - 1], longest) <= SortKey(s[k], longest)
    ensures Sorted(s[..n + 1], longest)
  {
  }

  /** A stable sort by byte length. */
  method SortByLength(a: array<string>, longest: bool)
    modifies a
    ensures multiset(a[..]) == multiset(old(a[..]))
    ensures Sorted(a[..], longest) && Stable(old(a[..]), a[..], longest)
  {
    for n := 0 to a.Length
      invariant multiset(a[..]) == multiset(old(a[..]))
      invariant Stable(old(a[..]), a[..], longest) && Sorted(a[..n], longest)
    {
      ghost var before := a[..];
      Insert(a, n, longest);
      StableTrans(old(a[..]), before, a[..], longest);
    }
    assert a[..a.Length] == a[..];
  }

  /** `after` is `before` in the given order. */
  ghost predicate InOrder(ordering: AssertOrdering, before: seq<string>, after: seq<string>) {
    && multiset(after) == multiset(before)
    && |after| == |before|
    && (ordering == Original ==> after == before)
    && (ordering == Reversed ==> forall k :: 0 <= k < |after| ==> after[k] == before[|before| - 1 - k])
    && (ordering == ShortestFirst ==> Sorted(after, false) && Stable(before, after, false))
    && (ordering == LongestFirst ==> Sorted(after, true) && Stable(before, after, true))
    && (ordering.Shuffled? ==> after == ShuffledFrom(before, |before|, FirstState(ordering.seed)))
  }

  method ApplyOrdering(ordering: AssertOrdering, asserts: seq<string>) returns (ordered: seq<string>)
    ensures InOrder(ordering, asserts, ordered)
  {
    var a := new string[|asserts|](i requires 0 <= i < |asserts| => asserts[i]);
    assert a[..] == asserts;
    match ordering {
      case Original =>
      case Reversed => Reverse(a);
      case ShortestFirst => SortByLength(a, false);
      case LongestFirst => SortByLength(a, true);
      case Shuffled(seed) => DeterministicShuffle(a, seed);
    }
    ordered := a[..];
  }

  // ================================================================ the diversified script

  /** Index of the first assertion, or the number of forms. */
  function FirstAssert(isAssert: string -> bool, forms: seq<string>): (k: nat)
    ensures k <= |forms|
  {
    if forms == [] then 0
    else
      var k := FirstAssert(isAssert, forms[..|forms| - 1]);
      if k < |forms| - 1 || isAssert(forms[|forms| - 1]) then k else |forms|
  }

  lemma {:induction false} FirstAssertIs(isAssert: string -> bool, forms: seq<string>)
    ensures var k := FirstAssert(isAssert, forms);
            && (k < |forms| ==> isAssert(forms[k]))
            && forall i :: 0 <= i < k ==> !isAssert(forms[i])
  {
    if forms != [] {
      FirstAssertIs(isAssert, forms[..|forms| - 1]);
    }
  }

  /** The other forms where they were, all the assertions where the first one was. */
  function Rearranged(isAssert: string -> bool, forms: seq<string>, ordered: seq<string>): seq<string> {
    var k := FirstAssert(isAssert, forms);
    forms[..k] + ordered + Select(isAssert, false, forms[k..])
  }

  /** The skeleton with its empty slot filled. */
  function Filled(skeleton: seq<Option<string>>, ordered: seq<string>): seq<string> {
    if skeleton == [] then []
    else
      var last := skeleton[|skeleton| - 1];
      Filled(skeleton[..|skeleton| - 1], ordered) + (if last.Some? then [last.value] else ordered)
  }

  /** What the scanning loop has built after some forms. */
  ghost predicate Built(isAssert: string -> bool, forms: seq<string>,
                        asserts: seq<string>, skeleton: seq<Option<string>>, slot: Option<nat>) {
    && asserts == Select(isAssert, true, forms)
    && (slot.None? <==> FirstAssert(isAssert, forms) == |forms|)
    && (slot.None? ==> asserts == [] && forall ordered :: Filled(skeleton, ordered) == forms)
    && (slot.Some? ==> forall ordered :: Filled(skeleton, ordered) == Rearranged(isAssert, forms, ordered))
  }

  lemma BuiltStep(isAssert: string -> bool, forms: seq<string>, form: string,
                  asserts: seq<string>, skeleton: seq<Option<string>>, slot: Option<nat>)
    requires Built(isAssert, forms, asserts, skeleton, slot)
    ensures !isAssert(form) ==> Built(isAssert, forms + [form], asserts, skeleton + [Some(form)], slot)
    ensures isAssert(form) && slot.Some? ==> Built(isAssert, forms + [form], asserts + [form], skeleton, slot)
    ensures isAssert(form) && slot.None? ==>
              Built(isAssert, forms + [form], asserts + [form], skeleton + [None], Some(|skeleton|))
  {
    var more := forms + [form];
    var k := FirstAssert(isAssert, forms);
    assert more[..|more| - 1] == forms;
    var next: seq<Option<string>> := if isAssert(form) then skeleton + [None] else skeleton + [Some(form)];
    assert next[..|next| - 1] == skeleton;
    if k < |forms| {
      assert more[k..] == forms[k..] + [form] && more[..k] == forms[..k];
      assert more[k..][..|more[k..]| - 1] == forms[k..];
    } else {
      assert forms[..k] == forms && more[..k] == forms && more[k..] == [form] && [form][..0] == [];
      assert Select(isAssert, false, more[k..]) == if isAssert(form) then [] else [form];
      forall ordered: seq<string>
        ensures Filled(next, ordered) == if isAssert(form) then Rearranged(isAssert, more, ordered) else more
      {
        assert forms + ordered + [] == forms + ordered;
      }
    }
  }

  lemma Padded(s: seq<string>, t: seq<string>)
    ensures [] + s + [] == s && s + [] + t == s + t
  {
  }

  /** The parts of assertions put between other commands. */
  lemma SandwichParts(isAssert: string -> bool, pre: seq<string>, asserts: seq<string>, post: seq<string>)
    requires AllAre(isAssert, false, pre) && AllAre(isAssert, true, asserts) && AllAre(isAssert, false, post)
    ensures Select(isAssert, true, pre + asserts + post) == asserts
    ensures Select(isAssert, false, pre + asserts + post) == pre + post
  {
    SelectThree(isAssert, true, pre, asserts, post);
    SelectThree(isAssert, false, pre, asserts, post);
    SelectPure(isAssert, false, pre);
    SelectPure(isAssert, true, asserts);
    SelectPure(isAssert, false, post);
    Padded(asserts, []);
    Padded(pre, post);
  }

  /** Rearranging touches the assertions alone. */
  lemma RearrangedParts(isAssert: string -> bool, forms: seq<string>, ordered: seq<string>)
    requires AllAre(isAssert, true, ordered)
    ensures Select(isAssert, true, Rearranged(isAssert, forms, ordered)) == ordered
    ensures Select(isAssert, false, Rearranged(isAssert, forms, ordered)) == Select(isAssert, false, forms)
  {
    var k := FirstAssert(isAssert, forms);
    FirstAssertIs(isAssert, forms);
    SelectKind(isAssert, false, forms[k..]);
    SandwichParts(isAssert, forms[..k], ordered, Select(isAssert, false, forms[k..]));
    SelectPure(isAssert, false, forms[..k]);
    SelectAppend(isAssert, false, forms[..k], forms[k..]);
    assert forms == forms[..k] + forms[k..];
  }

  lemma SelectThree(isAssert: string -> bool, wanted: bool, a: seq<string>, b: seq<string>, c: seq<string>)
    ensures Select(isAssert, wanted, a + b + c)
         == Select(isAssert, wanted, a) + Select(isAssert, wanted, b) + Select(isAssert, wanted, c)
  {
    SelectAppend(isAssert, wanted, a + b, c);
    SelectAppend(isAssert, wanted, a, b);
  }

  lemma PermutationKind(isAssert: string -> bool, forms: seq<string>, ordered: seq<string>)
    requires multiset(ordered) == multiset(Select(isAssert, true, forms))
    ensures AllAre(isAssert, true, ordered) && forall f :: f in ordered ==> f in forms
  {
    SelectKind(isAssert, true, forms);
    forall i | 0 <= i < |ordered|
      ensures isAssert(ordered[i]) && ordered[i] in forms
    {
      assert ordered[i] in multiset(ordered);
      assert ordered[i] in Select(isAssert, true, forms);
    }
  }

  /** Splitting the emitted script gives back the rearranged forms. */
  lemma RearrangedSplits(isAssert: string -> bool, script: string, ordered: seq<string>)
    requires multiset(ordered) == multiset(Select(isAssert, true, Forms(script)))
    ensures Forms(Joined(Rearranged(isAssert, Forms(script), ordered))) == Rearranged(isAssert, Forms(script), ordered)
  {
    var forms := Forms(script);
    var all := Rearranged(isAssert, forms, ordered);
    PermutationKind(isAssert, forms, ordered);
    SelectKind(isAssert, false, forms[FirstAssert(isAssert, forms)..]);
    FormsAreForms(script);
    forall f | f in all
      ensures f in forms
    {
    }
    forall i | 0 <= i < |all|
      ensures IsForm(all[i])
    {
      assert all[i] in all;
    }
    JoinedSplits(all);
  }

  method BuildSkeleton(isAssert: string -> bool, forms: seq<string>)
    returns (asserts: seq<string>, skeleton: seq<Option<string>>, slot: Option<nat>)
    ensures Built(isAssert, forms, asserts, skeleton, slot)
  {
    asserts, skeleton, slot := [], [], None;
    for i := 0 to |forms|
      invariant Built(isAssert, forms[..i], asserts, skeleton, slot)
    {
      var form := forms[i];
      BuiltStep(isAssert, forms[..i], form, asserts, skeleton, slot);
      assert forms[..i] + [form] == forms[..i + 1];
      if isAssert(form) {
        asserts := asserts + [form];
        if slot.None? {
          slot := Some(|skeleton|);
          skeleton := skeleton + [None];
        }
      } else {
        skeleton := skeleton + [Some(form)];
      }
    }
    assert forms[..|forms|] == forms;
  }

  lemma Diversified(isAssert: string -> bool, script: string, ordered: seq<string>,
                    skeleton: seq<Option<string>>, slot: Option<nat>, out: string)
    requires Built(isAssert, Forms(script), Select(isAssert, true, Forms(script)), skeleton, slot)
    requires multiset(ordered) == multiset(Select(isAssert, true, Forms(script)))
    requires out == Joined(Filled(skeleton, ordered))
    ensures Select(isAssert, true, Forms(out)) == ordered
    ensures Select(isAssert, false, Forms(out)) == Select(isAssert, false, Forms(script))
    ensures Forms(out) == Rearranged(isAssert, Forms(script), ordered)
    ensures out == Joined(Rearranged(isAssert, Forms(script), ordered))
  {
    FilledIsRearranged(isAssert, Forms(script), ordered, skeleton, slot);
    PermutationKind(isAssert, Forms(script), ordered);
    RearrangedSplits(isAssert, script, ordered);
    RearrangedParts(isAssert, Forms(script), ordered);
  }

  lemma FilledIsRearranged(isAssert: string -> bool, forms: seq<string>, ordered: seq<string>,
                           skeleton: seq<Option<string>>, slot: Option<nat>)
    requires Built(isAssert, forms, Select(isAssert, true, forms), skeleton, slot)
    requires multiset(ordered) == multiset(Select(isAssert, true, forms))
    ensures Filled(skeleton, ordered) == Rearranged(isAssert, forms, ordered)
  {
    if slot.None? {
      assert multiset(ordered) == multiset([]);
      assert ordered == [] && forms[|forms|..] == [] && forms[..|forms|] == forms;
    }
  }

  method EmitForms(before: string, forms: seq<string>, ghost written: seq<string>) returns (out: string)
    requires before == Joined(written)
    ensures out == Joined(written + forms)
  {
    out := before;
    assert written + forms[..0] == written;
    for i := 0 to |forms|
      invariant out == Joined(written + forms[..i])
    {
      assert written + forms[..i + 1] == (written + forms[..i]) + [forms[i]];
      JoinedMore(written + forms[..i], forms[i]);
      out := out + forms[i];
      out := out + "\n";
    }
    assert forms[..|forms|] == forms;
  }

  lemma JoinedMore(forms: seq<string>, form: string)
    ensures Joined(forms + [form]) == Joined(forms) + form + "\n"
  {
    assert (forms + [form])[..|forms|] == forms;
  }

  lemma FilledMore(skeleton: seq<Option<string>>, slot: Option<string>, ordered: seq<string>)
    ensures Filled(skeleton + [slot], ordered)
         == Filled(skeleton, ordered) + (if slot.Some? then [slot.value] else ordered)
  {
    assert (skeleton + [slot])[..|skeleton|] == skeleton;
  }

  method EmitSkeleton(skeleton: seq<Option<string>>, ordered: seq<string>) returns (out: string)
    ensures out == Joined(Filled(skeleton, ordered))
  {
    out := "";
    for i := 0 to |skeleton|
      invariant out == Joined(Filled(skeleton[..i], ordered))
    {
      FilledMore(skeleton[..i], skeleton[i], ordered);
      assert skeleton[..i] + [skeleton[i]] == skeleton[..i + 1];
      out := EmitForms(out, if skeleton[i].Some? then [skeleton[i].value] else ordered, Filled(skeleton[..i], ordered));
    }
    assert skeleton[..|skeleton|] == skeleton;
  }

  /** The reordered script, one form a line: the commands stay in order, the assertions are permuted
      as asked and stand together where the first one stood. */
  method DiversifyScript(script: string, ordering: AssertOrdering) returns (out: string)
    ensures out == Joined(Rearranged(IsAssertForm, Forms(script), Asserts(Forms(out))))
    ensures Forms(out) == Rearranged(IsAssertForm, Forms(script), Asserts(Forms(out)))
    ensures InOrder(ordering, Asserts(Forms(script)), Asserts(Forms(out)))
    ensures Others(Forms(out)) == Others(Forms(script))
  {
    var forms := TopLevelForms(script);
    var asserts, skeleton, slot := BuildSkeleton(IsAssertForm, forms);
    var ordered := ApplyOrdering(ordering, asserts);
    out := EmitSkeleton(skeleton, ordered);
    Diversified(IsAssertForm, script, ordered, skeleton, slot, out);
  }
}
