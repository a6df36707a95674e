/** Declared sorts, the assignments they allow, and how many there are (model_counter.rs). */
module ModelSpace {
  import opened Prelude
  import opened Cubes
  import opened RustText

  datatype Sort = BoolSort | IntSort | RealSort | BitVecSort(width: nat) | OtherSort

  datatype Value = BoolValue(b: bool) | IntValue(i: int) | RealValue(r: real) | BitVecValue(width: nat, n: nat)
    | OtherValue(id: nat)

  /** A declared constant, identified by its name and the name of its sort. */
  datatype Decl = Decl(name: string, sort: string)

  /** A total assignment to the declared constants. */
  type Model = map<Decl, Value>

  const U128_LIMIT: nat := 0x1_0000_0000_0000_0000_0000_0000_0000_0000

  /** "(_ BitVec n)" with a 32-bit n. */
  function BitVecWidth(sortName: string): Option<nat> {
    match StripPrefix(sortName, "(_ BitVec ")
    case None => None
    case Some(rest) =>
      match StripSuffix(rest, ")")
      case None => None
      case Some(width) => ParseNat(Trim(width), U32_BOUND)
  }

  function SortOf(sortName: string): Sort {
    if sortName == "Bool" then BoolSort
    else if sortName == "Int" then IntSort
    else if sortName == "Real" then RealSort
    else match BitVecWidth(sortName) case Some(w) => BitVecSort(w) case None => OtherSort
  }

  predicate HasSort(v: Value, s: Sort) {
    match s
    case BoolSort => v.BoolValue?
    case IntSort => v.IntValue?
    case RealSort => v.RealValue?
    case BitVecSort(w) => v.BitVecValue? && v.width == w && v.n < Pow2(w)
    case OtherSort => v.OtherValue?
  }

  ghost function DeclSet(decls: seq<Decl>): set<Decl> {
    set d | d in decls
  }

  ghost predicate WellTyped(decls: set<Decl>, m: Model) {
    m.Keys == decls && forall d :: d in decls ==> HasSort(m[d], SortOf(d.sort))
  }

  // ================================================================ the number of assignments

  predicate Finite(s: Sort) { s.BoolSort? || s.BitVecSort? }

  /** The values of a finite sort, each once. */
  function DomainOf(s: Sort): (vs: seq<Value>)
    requires Finite(s)
  {
    match s
    case BoolSort => [BoolValue(false), BoolValue(true)]
    case BitVecSort(w) => seq(Pow2(w), n requires 0 <= n < Pow2(w) => BitVecValue(w, n))
  }

  lemma DomainExact(s: Sort)
    requires Finite(s)
    ensures forall v :: v in DomainOf(s) <==> HasSort(v, s)
    ensures forall i, j :: 0 <= i < j < |DomainOf(s)| ==> DomainOf(s)[i] != DomainOf(s)[j]
    ensures |DomainOf(s)| >= 1
  {
    forall v | HasSort(v, s)
      ensures v in DomainOf(s)
    {
      if s.BitVecSort? {
        assert DomainOf(s)[v.n] == v;
      } else {
        assert DomainOf(s)[if v.b then 1 else 0] == v;
      }
    }
  }

  predicate AllFinite(decls: seq<Decl>) {
    forall i :: 0 <= i < |decls| ==> Finite(SortOf(decls[i].sort))
  }

  ghost function Image(models: set<Model>, d: Decl, v: Value): set<Model> {
    set m | m in models :: m[d := v]
  }

  ghost function Extend(models: set<Model>, d: Decl, values: seq<Value>): set<Model> {
    if values == [] then {} else Image(models, d, values[0]) + Extend(models, d, values[1..])
  }

  /** All assignments over the listed constants. */
  ghost function Assignments(decls: seq<Decl>): set<Model>
    requires AllFinite(decls)
  {
    if decls == [] then {map[]}
    else
      var n := |decls| - 1;
      Extend(Assignments(decls[..n]), decls[n], DomainOf(SortOf(decls[n].sort)))
  }

  /** The number of values of a finite sort. */
  function SortSize(s: Sort): nat
    requires Finite(s)
  {
    |DomainOf(s)|
  }

  function Sizes(decls: seq<Decl>): (ns: seq<nat>)
    requires AllFinite(decls)
    ensures |ns| == |decls|
  {
    seq(|decls|, i requires 0 <= i < |decls| => SortSize(SortOf(decls[i].sort)))
  }

  function Product(ns: seq<nat>): nat {
    if ns == [] then 1 else ns[|ns| - 1] * Product(ns[..|ns| - 1])
  }

  function DomainProduct(decls: seq<Decl>): nat
    requires AllFinite(decls)
  {
    Product(Sizes(decls))
  }

  ghost predicate Lacks(models: set<Model>, d: Decl) {
    forall m :: m in models ==> d !in m
  }

  lemma ImageMember(models: set<Model>, d: Decl, v: Value, m: Model)
    requires Lacks(models, d)
    ensures m in Image(models, d, v) <==> d in m && m[d] == v && m - {d} in models
  {
    if d in m && m[d] == v && m - {d} in models {
      assert (m - {d})[d := v] == m;
    }
    if m in Image(models, d, v) {
      var m' :| m' in models && m == m'[d := v];
      assert m - {d} == m';
    }
  }

  lemma {:induction false} ImageSize(models: set<Model>, d: Decl, v: Value)
    requires Lacks(models, d)
    ensures |Image(models, d, v)| == |models|
  {
    if models == {} {
      assert Image(models, d, v) == {};
    } else {
      var m :| m in models;
      var rest := models - {m};
      ImageSize(rest, d, v);
      ImageMember(rest, d, v, m[d := v]);
      assert m[d := v] - {d} == m;
      forall x: Model
        ensures x in Image(models, d, v) <==> x in Image(rest, d, v) + {m[d := v]}
      {
        ImageMember(models, d, v, x);
        ImageMember(rest, d, v, x);
        ImageMember({m}, d, v, x);
      }
      assert Image(models, d, v) == Image(rest, d, v) + {m[d := v]};
    }
  }

  lemma {:induction false} ExtendMember(models: set<Model>, d: Decl, values: seq<Value>, m: Model)
    requires Lacks(models, d)
    ensures m in Extend(models, d, values) <==> d in m && m[d] in values && m - {d} in models
    decreases |values|
  {
    if values != [] {
      ImageMember(models, d, values[0], m);
      ExtendMember(models, d, values[1..], m);
      assert d in m ==> (m[d] in values <==> m[d] == values[0] || m[d] in values[1..]);
    }
  }

  lemma {:induction false} ExtendSize(models: set<Model>, d: Decl, values: seq<Value>)
    requires Lacks(models, d)
    requires forall i, j :: 0 <= i < j < |values| ==> values[i] != values[j]
    ensures |Extend(models, d, values)| == |values| * |models|
    decreases |values|
  {
    if values != [] {
      var image, rest := Image(models, d, values[0]), Extend(models, d, values[1..]);
      ImageSize(models, d, values[0]);
      ExtendSize(models, d, values[1..]);
      forall m | m in image
        ensures m !in rest
      {
        ImageMember(models, d, values[0], m);
        ExtendMember(models, d, values[1..], m);
      }
      assert image !! rest;
      assert |image + rest| == |image| + |rest|;
      TimesSucc(|values| - 1, |models|);
    }
  }

  lemma TimesSucc(a: nat, b: nat)
    ensures b + a * b == (a + 1) * b
  {
  }

  ghost predicate Distinct(decls: seq<Decl>) {
    forall i, j :: 0 <= i < j < |decls| ==> decls[i] != decls[j]
  }

  lemma {:induction false} AssignmentsMember(decls: seq<Decl>, m: Model)
    requires AllFinite(decls) && Distinct(decls)
    ensures m in Assignments(decls) <==> WellTyped(DeclSet(decls), m)
    decreases |decls|, 0
  {
    if decls == [] {
      assert m.Keys == {} ==> m == map[];
    } else {
      var n := |decls| - 1;
      var d, rest := decls[n], decls[..n];
      AssignmentsMember(rest, m - {d});
      DomainExact(SortOf(d.sort));
      AssignmentsLack(rest, d);
      ExtendMember(Assignments(rest), d, DomainOf(SortOf(d.sort)), m);
      WellTypedSplit(decls, m);
    }
  }

  lemma {:induction false} AssignmentsLack(decls: seq<Decl>, d: Decl)
    requires AllFinite(decls) && Distinct(decls) && d !in decls
    ensures Lacks(Assignments(decls), d)
    decreases |decls|, 1
  {
    forall m | m in Assignments(decls)
      ensures d !in m
    {
      AssignmentsMember(decls, m);
    }
  }

  lemma {:induction false} AssignmentsCount(decls: seq<Decl>)
    requires AllFinite(decls) && Distinct(decls)
    ensures |Assignments(decls)| == DomainProduct(decls)
  {
    if decls != [] {
      var n := |decls| - 1;
      AssignmentsCount(decls[..n]);
      DomainExact(SortOf(decls[n].sort));
      AssignmentsLack(decls[..n], decls[n]);
      ExtendSize(Assignments(decls[..n]), decls[n], DomainOf(SortOf(decls[n].sort)));
      ProductLast(decls);
    }
  }

  lemma ProductLast(decls: seq<Decl>)
    requires AllFinite(decls) && decls != []
    ensures var n := |decls| - 1;
            DomainProduct(decls) == SortSize(SortOf(decls[n].sort)) * DomainProduct(decls[..n])
  {
    assert Sizes(decls)[..|decls| - 1] == Sizes(decls[..|decls| - 1]);
  }

  lemma WellTypedSplit(decls: seq<Decl>, m: Model)
    requires decls != [] && decls[|decls| - 1] !in decls[..|decls| - 1]
    ensures var d, rest := decls[|decls| - 1], decls[..|decls| - 1];
            WellTyped(DeclSet(decls), m)
            <==> d in m && HasSort(m[d], SortOf(d.sort)) && WellTyped(DeclSet(rest), m - {d})
  {
    var d, rest := decls[|decls| - 1], decls[..|decls| - 1];
    assert DeclSet(decls) == {d} + DeclSet(rest);
    if d in m {
      assert m.Keys == (m - {d}).Keys + {d};
      assert forall e :: e in DeclSet(rest) && e in m ==> (m - {d})[e] == m[e];
    }
  }

  // ================================================================ the computation

  /** 1u128.checked_shl(width) */
  function CheckedShiftLeft(width: nat): Option<nat> {
    if width < 128 then Some(Pow2(width)) else None
  }

  /** u128::checked_mul */
  function CheckedMul(a: nat, b: nat): Option<nat> {
    if a * b < U128_LIMIT then Some(a * b) else None
  }

  lemma {:induction false} Pow2Monotone(a: nat, b: nat)
    requires a <= b
    ensures Pow2(a) <= Pow2(b)
    decreases b
  {
    if a < b {
      Pow2Monotone(a, b - 1);
    }
  }

  lemma WideIsHuge(width: nat)
    requires width >= 128
    ensures Pow2(width) >= U128_LIMIT
  {
    assert Pow2(4) == 16;
    Pow2Sum(4, 4);
    assert Pow2(8) == 0x100;
    Pow2Sum(8, 8);
    assert Pow2(16) == 0x1_0000;
    Pow2Sum(16, 16);
    assert Pow2(32) == 0x1_0000_0000;
    Pow2Sum(32, 32);
    assert Pow2(64) == 0x1_0000_0000_0000_0000;
    Pow2Sum(64, 64);
    Pow2Monotone(128, width);
  }

  lemma {:induction false} Pow2Sum(a: nat, b: nat)
    ensures Pow2(a + b) == Pow2(a) * Pow2(b)
    decreases a
  {
    if a > 0 {
      Pow2Sum(a - 1, b);
      assert Pow2(a + b) == 2 * Pow2(a - 1 + b);
    }
  }

  /** The exact number of assignments when every sort is finite and the number fits 128 bits. */
  ghost function DomainSize(decls: seq<Decl>): Option<nat> {
    if AllFinite(decls) && DomainProduct(decls) < U128_LIMIT then Some(DomainProduct(decls)) else None
  }

  /** The product so far, extended by one more domain. */
  lemma ProductStep(decls: seq<Decl>, i: nat)
    requires i < |decls| && AllFinite(decls[..i + 1])
    ensures AllFinite(decls[..i]) && Finite(SortOf(decls[i].sort))
    ensures DomainProduct(decls[..i + 1]) == SortSize(SortOf(decls[i].sort)) * DomainProduct(decls[..i])
  {
    var front := decls[..i + 1];
    assert front[i] == decls[i] && front[..i] == decls[..i];
    assert forall j :: 0 <= j < i ==> decls[..i][j] == front[j];
    assert Sizes(front)[..i] == Sizes(decls[..i]);
  }

  /** Factors are positive, so a product never shrinks. */
  lemma {:induction false} ProductGrows(ns: seq<nat>, i: nat)
    requires i <= |ns| && forall j :: 0 <= j < |ns| ==> ns[j] >= 1
    ensures 1 <= Product(ns[..i]) <= Product(ns)
  {
    if ns == [] {
      assert ns[..i] == [];
    } else {
      var n := |ns| - 1;
      ProductGrows(ns[..n], if i <= n then i else n);
      assert i <= n ==> ns[..n][..i] == ns[..i];
      assert i > n ==> ns[..i] == ns;
      assert ns[..n][..n] == ns[..n];
      ProductAtLeast(ns[n], Product(ns[..n]));
    }
  }

  lemma PartialProductBound(decls: seq<Decl>, i: nat)
    requires i <= |decls| && AllFinite(decls)
    ensures AllFinite(decls[..i]) && 1 <= DomainProduct(decls[..i]) <= DomainProduct(decls)
  {
    forall j | 0 <= j < |decls|
      ensures Sizes(decls)[j] >= 1
    {
      DomainExact(SortOf(decls[j].sort));
    }
    assert Sizes(decls)[..i] == Sizes(decls[..i]);
    ProductGrows(Sizes(decls), i);
  }

  lemma ProductAtLeast(a: nat, b: nat)
    requires a >= 1 && b >= 1
    ensures a * b >= a && a * b >= b
  {
  }

  lemma NoSizeBeyond(decls: seq<Decl>, i: nat)
    requires i < |decls|
    requires AllFinite(decls[..i + 1]) ==> DomainProduct(decls[..i + 1]) >= U128_LIMIT
    ensures DomainSize(decls) == None
  {
    if AllFinite(decls) {
      PartialProductBound(decls, i + 1);
    }
  }

  /** The number of values of one sort, if it is finite and fits 128 bits. */
  method SortDomain(sortName: string) returns (domain: Option<nat>)
    ensures domain.Some? ==> Finite(SortOf(sortName)) && domain.value == SortSize(SortOf(sortName))
    ensures domain.None? ==> Finite(SortOf(sortName)) ==> SortSize(SortOf(sortName)) >= U128_LIMIT
  {
    if sortName == "Bool" {
      return Some(2);
    }
    var width := BitVecWidth(sortName);
    assert width.Some? ==> sortName[0] == '(';
    if width.None? {
      return None;
    }
    if width.value >= 128 {
      WideIsHuge(width.value);
    }
    domain := CheckedShiftLeft(width.value);
  }

  method EnumerableDomainSize(decls: seq<Decl>) returns (size: Option<nat>)
    ensures size == DomainSize(decls)
  {
    var total := 1;
    for i := 0 to |decls|
      invariant AllFinite(decls[..i]) && total == DomainProduct(decls[..i]) < U128_LIMIT
    {
      var domain := SortDomain(decls[i].sort);
      if domain.None? {
        HugeFactor(decls, i);
        return None;
      }
      FiniteStep(decls, i);
      ProductStep(decls, i);
      var product := CheckedMul(domain.value, total);
      if product.None? {
        NoSizeBeyond(decls, i);
        return None;
      }
      total := product.value;
    }
    assert decls[..|decls|] == decls;
    size := Some(total);
  }

  lemma FiniteStep(decls: seq<Decl>, i: nat)
    requires i < |decls| && AllFinite(decls[..i]) && Finite(SortOf(decls[i].sort))
    ensures AllFinite(decls[..i + 1])
  {
    assert forall j :: 0 <= j < i ==> decls[..i + 1][j] == decls[..i][j];
  }

  lemma HugeFactor(decls: seq<Decl>, i: nat)
    requires i < |decls| && (Finite(SortOf(decls[i].sort)) ==> SortSize(SortOf(decls[i].sort)) >= U128_LIMIT)
    ensures DomainSize(decls) == None
  {
    if AllFinite(decls[..i + 1]) {
      ProductStep(decls, i);
      PartialProductBound(decls[..i], i);
      ProductAtLeast(SortSize(SortOf(decls[i].sort)), DomainProduct(decls[..i]));
    }
    NoSizeBeyond(decls, i);
  }
}
