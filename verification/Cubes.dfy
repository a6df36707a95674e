/** Cube generation and the partition theorem. */
module Cubes {

  datatype Literal = Literal(index: nat, negated: bool)

  type Cube = seq<Literal>

  /** A valuation of the script's Boolean variables: the set of names that are true. */
  type Valuation = iset<string>

  function Pow2(n: nat): (p: nat)
    ensures p >= 1
  {
    if n == 0 then 1 else 2 * Pow2(n - 1)
  }

  /** The least d with 2^d >= n. */
  function CeilLog2(n: nat): (d: nat)
    requires n >= 1
    ensures Pow2(d) >= n
    ensures d > 0 ==> Pow2(d - 1) < n
  {
    if n == 1 then 0 else 1 + CeilLog2((n + 1) / 2)
  }

  /** i >> bits */
  function ShiftRight(i: nat, bits: nat): nat {
    if bits == 0 then i else ShiftRight(i / 2, bits - 1)
  }

  function CubeLiteral(i: nat, bit: nat): Literal {
    Literal(bit, ShiftRight(i, bit) % 2 == 0)
  }

  function CubeOf(i: nat, width: nat): Cube {
    seq(width, bit requires 0 <= bit < width => CubeLiteral(i, bit))
  }

  function SplitWidth(numCubes: nat, numVars: nat): nat
    requires numCubes >= 1
  {
    var depth := CeilLog2(numCubes);
    if depth < numVars then depth else numVars
  }

  /** The number of cubes: a power of two, clamped by the number of splittable variables. */
  function CubeCount(numCubes: nat, numVars: nat): nat {
    if numVars == 0 || numCubes <= 1 then 1 else Pow2(SplitWidth(numCubes, numVars))
  }

  function CubeList(numCubes: nat, numVars: nat): seq<Cube> {
    if numVars == 0 || numCubes <= 1 then [[]]
    else
      var width := SplitWidth(numCubes, numVars);
      seq(Pow2(width), i requires 0 <= i < Pow2(width) => CubeOf(i, width))
  }

  method GenerateCubes(numCubes: nat, numVars: nat) returns (cubes: seq<Cube>)
    ensures cubes == CubeList(numCubes, numVars)
    ensures |cubes| == CubeCount(numCubes, numVars)
  {
    if numVars == 0 || numCubes <= 1 {
      return [[]];
    }
    var varsToUse := SplitWidth(numCubes, numVars);
    var actualNumCubes := Pow2(varsToUse);
    cubes := [];
    for i := 0 to actualNumCubes
      invariant |cubes| == i
      invariant forall k :: 0 <= k < i ==> cubes[k] == CubeOf(k, varsToUse)
    {
      var cube := [];
      for bit := 0 to varsToUse
        invariant |cube| == bit
        invariant forall b :: 0 <= b < bit ==> cube[b] == CubeLiteral(i, b)
      {
        cube := cube + [Literal(bit, ShiftRight(i, bit) % 2 == 0)];
      }
      assert cube == CubeOf(i, varsToUse);
      cubes := cubes + [cube];
    }
  }

  // ---------------------------------------------------------------- meaning

  /** Literal indices are resolved against the list of declared names, as a worker does. */
  ghost predicate LiteralHolds(l: Literal, names: seq<string>, v: Valuation) {
    l.index < |names| && ((names[l.index] in v) != l.negated)
  }

  ghost predicate CubeHolds(c: Cube, names: seq<string>, v: Valuation) {
    forall k :: 0 <= k < |c| ==> LiteralHolds(c[k], names, v)
  }

  /** The number whose binary digits, least significant first, are b. */
  function BitsValue(b: seq<bool>): nat {
    if b == [] then 0 else (if b[0] then 1 else 0) + 2 * BitsValue(b[1..])
  }

  lemma {:induction false} BitsValueBound(b: seq<bool>)
    ensures BitsValue(b) < Pow2(|b|)
  {
    if b != [] {
      BitsValueBound(b[1..]);
    }
  }

  lemma {:induction false} BitsDetermineValue(i: nat, b: seq<bool>)
    requires i < Pow2(|b|)
    ensures (forall t :: 0 <= t < |b| ==> (ShiftRight(i, t) % 2 == 1) == b[t]) <==> i == BitsValue(b)
  {
    if b != [] {
      BitsDetermineValue(i / 2, b[1..]);
      if forall t :: 0 <= t < |b| ==> (ShiftRight(i, t) % 2 == 1) == b[t] {
        assert ShiftRight(i, 0) == i && (i % 2 == 1) == b[0];
        forall t | 0 <= t < |b[1..]|
          ensures (ShiftRight(i / 2, t) % 2 == 1) == b[1..][t]
        {
          assert ShiftRight(i, t + 1) == ShiftRight(i / 2, t);
        }
      }
      if i == BitsValue(b) {
        assert i / 2 == BitsValue(b[1..]) && (i % 2 == 1) == b[0];
        forall t | 0 <= t < |b|
          ensures (ShiftRight(i, t) % 2 == 1) == b[t]
        {
          if t > 0 {
            assert ShiftRight(i, t) == ShiftRight(i / 2, t - 1) && b[1..][t - 1] == b[t];
          }
        }
      }
    }
  }

  /** The truth values of the first width names, in declaration order. */
  ghost function Projection(names: seq<string>, width: nat, v: Valuation): seq<bool>
    requires width <= |names|
  {
    seq(width, i requires 0 <= i < width => names[i] in v)
  }

  lemma CubeHoldsIffIndex(i: nat, width: nat, names: seq<string>, v: Valuation)
    requires width <= |names| && i < Pow2(width)
    ensures CubeHolds(CubeOf(i, width), names, v) <==> i == BitsValue(Projection(names, width, v))
  {
    var b := Projection(names, width, v);
    var c := CubeOf(i, width);
    BitsDetermineValue(i, b);
    assert forall t :: 0 <= t < width ==> (LiteralHolds(c[t], names, v) <==> (ShiftRight(i, t) % 2 == 1) == b[t]);
  }

  /** The index of the one cube a valuation satisfies. */
  ghost function CubeIndex(numCubes: nat, names: seq<string>, v: Valuation): nat {
    if |names| == 0 || numCubes <= 1 then 0
    else BitsValue(Projection(names, SplitWidth(numCubes, |names|), v))
  }

  /** The cubes partition the valuations. Names may repeat: a cube that asks the two
      positions of one name for different values is then simply satisfied by nothing. */
  lemma CubesPartition(numCubes: nat, names: seq<string>, v: Valuation)
    ensures var cubes := CubeList(numCubes, |names|);
            var j := CubeIndex(numCubes, names, v);
            && j < |cubes|
            && forall i :: 0 <= i < |cubes| ==> (CubeHolds(cubes[i], names, v) <==> i == j)
  {
    if |names| != 0 && numCubes > 1 {
      var width := SplitWidth(numCubes, |names|);
      BitsValueBound(Projection(names, width, v));
      forall i | 0 <= i < Pow2(width)
        ensures CubeHolds(CubeOf(i, width), names, v) <==> i == CubeIndex(numCubes, names, v)
      {
        CubeHoldsIffIndex(i, width, names, v);
      }
    }
  }

  /** Requesting more cubes than the variables can separate never yields a duplicate. */
  lemma CubesDistinct(numCubes: nat, numVars: nat)
    ensures var cubes := CubeList(numCubes, numVars);
            forall i, j :: 0 <= i < j < |cubes| ==> cubes[i] != cubes[j]
  {
    var cubes := CubeList(numCubes, numVars);
    forall i, j | 0 <= i < j < |cubes|
      ensures cubes[i] != cubes[j]
    {
      var width := SplitWidth(numCubes, numVars);
      DistinctIndicesDifferentCubes(i, j, width);
    }
  }

  lemma DistinctIndicesDifferentCubes(i: nat, j: nat, width: nat)
    requires i != j && i < Pow2(width) && j < Pow2(width)
    ensures CubeOf(i, width) != CubeOf(j, width)
  {
    var b := seq(width, t requires 0 <= t < width => ShiftRight(i, t) % 2 == 1);
    BitsDetermineValue(i, b);
    BitsDetermineValue(j, b);
    var t :| 0 <= t < width && (ShiftRight(j, t) % 2 == 1) != b[t];
    assert CubeOf(i, width)[t] != CubeOf(j, width)[t];
  }

  /** Every generated literal names a declared variable, so no worker has to give up on an
      out-of-range index. */
  lemma CubeIndicesInRange(numCubes: nat, numVars: nat)
    ensures forall i, k :: 0 <= i < |CubeList(numCubes, numVars)| && 0 <= k < |CubeList(numCubes, numVars)[i]|
              ==> CubeList(numCubes, numVars)[i][k].index < numVars
  {
  }
}
