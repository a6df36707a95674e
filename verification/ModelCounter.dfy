/** Counting and enumeration with blocking clauses (model_counter.rs, main.rs). */
module ModelCounter {
  import opened Prelude
  import opened Cubes
  import opened ModelSpace

  // ================================================================ the solver

  /** An assertion: one of the script's own, or a blocking clause, the negation of a conjunction
      of equalities. */
  datatype Fact = Given(id: nat) | Blocked(equalities: seq<Equality>)

  datatype Equality = Equality(decl: Decl, value: Value)

  /** One line of a model: what its printed value parses to, and what the solver evaluates the
      constant to if it was really assigned. */
  datatype Entry = Entry(decl: Decl, parsed: Option<Value>, pinned: Option<Value>)

  /** Sat may come without a model. */
  datatype Response = RespSat(model: Option<seq<Entry>>) | RespUnsat | RespUnknown

  /** The script: its constants, and which models its own assertions allow. */
  datatype Script = Script(decls: set<Decl>, allows: (nat, Model) -> bool)

  ghost predicate Extends(m: Model, equalities: seq<Equality>) {
    forall i :: 0 <= i < |equalities| ==> equalities[i].decl in m && m[equalities[i].decl] == equalities[i].value
  }

  ghost predicate FactHolds(s: Script, m: Model, f: Fact) {
    match f
    case Given(id) => s.allows(id, m)
    case Blocked(equalities) => !Extends(m, equalities)
  }

  ghost predicate IsModel(s: Script, facts: seq<Fact>, m: Model) {
    WellTyped(s.decls, m) && forall i :: 0 <= i < |facts| ==> FactHolds(s, m, facts[i])
  }

  /** The entries describe m: every constant once, and nothing said about it is wrong. */
  ghost predicate Describes(s: Script, entries: seq<Entry>, m: Model) {
    && (forall d :: d in s.decls <==> exists i :: 0 <= i < |entries| && entries[i].decl == d)
    && (forall i, j :: 0 <= i < j < |entries| ==> entries[i].decl != entries[j].decl)
    && (forall i :: 0 <= i < |entries| && entries[i].decl in m ==>
          && (entries[i].parsed.Some? ==> m[entries[i].decl] == entries[i].parsed.value)
          && (entries[i].pinned.Some? ==> m[entries[i].decl] == entries[i].pinned.value))
  }

  ghost predicate RightResponse(s: Script, facts: seq<Fact>, r: Response) {
    match r
    case RespSat(None) => exists m :: IsModel(s, facts, m)
    case RespSat(Some(entries)) => exists m :: IsModel(s, facts, m) && Describes(s, entries, m)
    case RespUnsat => !exists m :: IsModel(s, facts, m)
    case RespUnknown => true
  }

  ghost predicate SoundSolver(s: Script, oracle: (nat, seq<Fact>) -> Response) {
    forall tick, facts :: RightResponse(s, facts, oracle(tick, facts))
  }

  class Context {
    const oracle: (nat, seq<Fact>) -> Response
    var facts: seq<Fact>
    var marks: seq<nat>
    var tick: nat

    ghost predicate Valid()
      reads this
    {
      forall i :: 0 <= i < |marks| ==> marks[i] <= |facts|
    }

    constructor (oracle: (nat, seq<Fact>) -> Response, facts: seq<Fact>)
      ensures Valid() && this.oracle == oracle && this.facts == facts && marks == []
    {
      this.oracle, this.facts, marks, tick := oracle, facts, [], 0;
    }

    method Push()
      requires Valid()
      modifies this
      ensures Valid() && facts == old(facts) && marks == old(marks) + [|facts|]
    {
      marks := marks + [|facts|];
    }

    /** Back to the facts of the matching push. */
    method Pop()
      requires Valid() && marks != []
      requires forall i :: 0 <= i < |marks| - 1 ==> marks[i] <= marks[|marks| - 1]
      modifies this
      ensures Valid() && facts == old(facts)[..old(marks)[|old(marks)| - 1]] && marks == old(marks)[..|old(marks)| - 1]
    {
      facts := facts[..marks[|marks| - 1]];
      marks := marks[..|marks| - 1];
    }

    method Assert(f: Fact)
      requires Valid()
      modifies this
      ensures Valid() && facts == old(facts) + [f] && marks == old(marks)
    {
      facts := facts + [f];
    }

    method CheckSat() returns (r: Response)
      requires Valid()
      modifies this
      ensures Valid() && facts == old(facts) && marks == old(marks) && r == oracle(old(tick), facts)
    {
      r := oracle(tick, facts);
      tick := tick + 1;
    }
  }

  // ================================================================ blocking

  /** A model with every constant spelled out. */
  ghost predicate SpellsOut(s: Script, equalities: seq<Equality>, m: Model) {
    && WellTyped(s.decls, m)
    && (forall d :: d in s.decls ==> exists i :: 0 <= i < |equalities| && equalities[i].decl == d)
    && Extends(m, equalities)
  }

  lemma OnlyOneExtends(s: Script, equalities: seq<Equality>, m: Model, m': Model)
    requires SpellsOut(s, equalities, m) && WellTyped(s.decls, m')
    ensures Extends(m', equalities) <==> m' == m
  {
    if Extends(m', equalities) {
      forall d | d in s.decls
        ensures m'[d] == m[d]
      {
        var i :| 0 <= i < |equalities| && equalities[i].decl == d;
      }
      assert m'.Keys == m.Keys;
    }
  }

  /** Every model of base is either among found or still allowed by the current facts, never both. */
  ghost predicate Separated(s: Script, base: seq<Fact>, facts: seq<Fact>, found: set<Model>) {
    && (forall m :: m in found ==> IsModel(s, base, m))
    && (forall m :: IsModel(s, facts, m) <==> IsModel(s, base, m) && m !in found)
  }

  lemma SeparateOne(s: Script, base: seq<Fact>, facts: seq<Fact>, found: set<Model>, equalities: seq<Equality>,
                    m: Model)
    requires Separated(s, base, facts, found) && IsModel(s, facts, m) && SpellsOut(s, equalities, m)
    ensures Separated(s, base, facts + [Blocked(equalities)], found + {m})
  {
    var facts' := facts + [Blocked(equalities)];
    forall x
      ensures IsModel(s, facts', x) <==> IsModel(s, base, x) && x !in found + {m}
    {
      if WellTyped(s.decls, x) {
        OnlyOneExtends(s, equalities, m, x);
        assert facts'[|facts|] == Blocked(equalities);
        assert forall i :: 0 <= i < |facts| ==> facts'[i] == facts[i];
        assert IsModel(s, facts', x) <==> IsModel(s, facts, x) && FactHolds(s, x, Blocked(equalities));
      }
    }
  }

  datatype Outcome = Outcome(found: nat, exhausted: bool, hitUnknown: bool, hitClock: bool, error: bool)

  /** Sorts from which the variable's term can be rebuilt. */
  predicate Rebuildable(d: Decl) {
    SortOf(d.sort) != OtherSort
  }

  /** The equalities for all entries, or None at the first constant that cannot be spelled out. */
  method BuildEqualities(entries: seq<Entry>) returns (equalities: Option<seq<Equality>>)
    ensures equalities.Some? ==>
              && |equalities.value| == |entries|
              && forall i :: 0 <= i < |entries| ==>
                   entries[i].parsed.Some? && equalities.value[i] == Equality(entries[i].decl, entries[i].parsed.value)
    ensures equalities.None? ==>
              exists i :: 0 <= i < |entries| && (!Rebuildable(entries[i].decl) || entries[i].parsed.None?)
  {
    equalities := BuildWhile(Rebuildable, entries);
  }

  method BuildWhile(rebuildable: Decl -> bool, entries: seq<Entry>) returns (equalities: Option<seq<Equality>>)
    ensures equalities.Some? ==>
              && |equalities.value| == |entries|
              && forall i :: 0 <= i < |entries| ==>
                   entries[i].parsed.Some? && equalities.value[i] == Equality(entries[i].decl, entries[i].parsed.value)
    ensures equalities.None? ==>
              exists i :: 0 <= i < |entries| && (!rebuildable(entries[i].decl) || entries[i].parsed.None?)
  {
    var built: seq<Equality> := [];
    for i := 0 to |entries|
      invariant |built| == i
      invariant forall j :: 0 <= j < i ==>
        entries[j].parsed.Some? && built[j] == Equality(entries[j].decl, entries[j].parsed.value)
    {
      if !rebuildable(entries[i].decl) || entries[i].parsed.None? {
        return None;
      }
      built := built + [Equality(entries[i].decl, entries[i].parsed.value)];
    }
    equalities := Some(built);
  }

  lemma FullEqualitiesSpellOut(s: Script, entries: seq<Entry>, equalities: seq<Equality>, m: Model)
    requires WellTyped(s.decls, m) && Describes(s, entries, m) && |equalities| == |entries|
    requires forall i :: 0 <= i < |entries| ==>
      entries[i].parsed.Some? && equalities[i] == Equality(entries[i].decl, entries[i].parsed.value)
    ensures SpellsOut(s, equalities, m)
  {
    forall i | 0 <= i < |equalities|
      ensures equalities[i].decl in m && m[equalities[i].decl] == equalities[i].value
    {
      assert entries[i].decl in s.decls;
    }
    forall d | d in s.decls
      ensures exists i :: 0 <= i < |equalities| && equalities[i].decl == d
    {
      var i :| 0 <= i < |entries| && entries[i].decl == d;
      assert equalities[i].decl == d;
    }
  }

  function DeclsOf(entries: seq<Entry>): (ds: seq<Decl>)
    ensures |ds| == |entries|
  {
    seq(|entries|, i requires 0 <= i < |entries| => entries[i].decl)
  }

  /** found distinct models out of a domain of that size are all the models. */
  lemma DomainExhausted(s: Script, base: seq<Fact>, found: set<Model>, decls: seq<Decl>)
    requires Distinct(decls) && DeclSet(decls) == s.decls && DomainSize(decls) == Some(|found|)
    requires forall m :: m in found ==> IsModel(s, base, m)
    ensures forall m :: WellTyped(s.decls, m) ==> m in found
  {
    AssignmentsCount(decls);
    forall m: Model
      ensures m in Assignments(decls) <==> WellTyped(s.decls, m)
    {
      AssignmentsMember(decls, m);
    }
    SubsetOfSameSize(found, Assignments(decls));
  }

  lemma {:induction false} SubsetOfSameSize(a: set<Model>, b: set<Model>)
    requires a <= b && |a| == |b|
    ensures a == b
  {
    if x :| x in b && x !in a {
      assert a <= b - {x};
      SubsetSize(a, b - {x});
    }
  }

  /** What is known about the number of assignments, and the cap that follows from it. */
  ghost predicate CapFits(s: Script, decls: seq<Decl>, domainSize: Option<nat>, effectiveCap: nat, cap: nat) {
    match domainSize
    case None => effectiveCap == cap
    case Some(size) =>
      && Distinct(decls) && DeclSet(decls) == s.decls && DomainSize(decls) == Some(size)
      && effectiveCap == if size < cap then size else cap
  }

  /** Once a model shows the sorts, a finite domain tightens the cap. */
  method TightenCap(ghost s: Script, ghost m: Model, entries: seq<Entry>, domainSizeIn: Option<nat>,
                    effectiveCapIn: nat, ghost declsIn: seq<Decl>, ghost cap: nat)
    returns (domainSize: Option<nat>, effectiveCap: nat, ghost decls: seq<Decl>)
    requires Describes(s, entries, m) && CapFits(s, declsIn, domainSizeIn, effectiveCapIn, cap)
    ensures CapFits(s, decls, domainSize, effectiveCap, cap)
  {
    domainSize, effectiveCap, decls := domainSizeIn, effectiveCapIn, declsIn;
    if domainSize.None? {
      decls := DeclsOf(entries);
      domainSize := EnumerableDomainSize(DeclsOf(entries));
      DeclsComplete(s, entries, m);
      if domainSize.Some? && domainSize.value < effectiveCap {
        effectiveCap := domainSize.value;
      }
    }
  }

  /** Assert the negation of the model's equalities, if every constant can be spelled out. */
  method BlockModel(ctx: Context, ghost s: Script, ghost base: seq<Fact>, ghost found: set<Model>, ghost m: Model,
                    entries: seq<Entry>)
    returns (blocked: bool)
    requires ctx.Valid() && Separated(s, base, ctx.facts, found)
    requires IsModel(s, ctx.facts, m) && Describes(s, entries, m)
    modifies ctx
    ensures ctx.Valid() && ctx.marks == old(ctx.marks) && old(ctx.facts) <= ctx.facts
    ensures blocked ==> Separated(s, base, ctx.facts, found + {m})
  {
    var equalities := BuildEqualities(entries);
    if equalities.None? {
      return false;
    }
    FullEqualitiesSpellOut(s, entries, equalities.value, m);
    SeparateOne(s, base, ctx.facts, found, equalities.value, m);
    ctx.Assert(Blocked(equalities.value));
    blocked := true;
  }

  /** A bounded enumeration pass. Whatever stops it, the models found are that many different
      models of the assertions; if it says exhausted, there are no others. */
  method EnumerateModelsBounded(ctx: Context, ghost s: Script, cap: nat, clockExpired: nat -> bool)
    returns (o: Outcome, ghost found: set<Model>)
    requires ctx.Valid() && SoundSolver(s, ctx.oracle)
    modifies ctx
    ensures ctx.Valid() && ctx.marks == old(ctx.marks) && old(ctx.facts) <= ctx.facts
    ensures |found| == o.found <= cap && AreModels(s, old(ctx.facts), found)
    ensures o.exhausted ==> !o.error && AreAllModels(s, old(ctx.facts), found)
  {
    found := {};
    var count := 0;
    var domainSize: Option<nat> := None;
    var effectiveCap := cap;
    ghost var base, decls := ctx.facts, [];
    while true
      invariant ctx.Valid() && ctx.marks == old(ctx.marks) && base <= ctx.facts
      invariant |found| == count <= cap && Separated(s, base, ctx.facts, found)
      invariant CapFits(s, decls, domainSize, effectiveCap, cap)
      invariant s.decls == {} ==> count == 0
      decreases cap - count
    {
      if domainSize.None? && clockExpired(count) {
        return Outcome(count, false, false, true, false), found;
      }
      if count >= effectiveCap {
        var exhaustedByDomain := domainSize == Some(count);
        if exhaustedByDomain {
          DomainExhausted(s, base, found, decls);
        }
        return Outcome(count, exhaustedByDomain, false, false, false), found;
      }
      var response := ctx.CheckSat();
      assert RightResponse(s, ctx.facts, response);
      match response
      case RespUnsat => return Outcome(count, true, false, false, false), found;
      case RespUnknown => return Outcome(count, false, true, false, false), found;
      case RespSat(None) => return Outcome(count, false, false, false, true), found;
      case RespSat(Some(entries)) =>
        ghost var m: Model :| IsModel(s, ctx.facts, m) && Describes(s, entries, m);
        NewModel(s, base, ctx.facts, found, m);
        if entries == [] {
          NoConstants(s, entries, base, m);
          return Outcome(count + 1, true, false, false, false), found + {m};
        }
        assert entries[0].decl in s.decls;
        domainSize, effectiveCap, decls := TightenCap(s, m, entries, domainSize, effectiveCap, decls, cap);
        var blocked := BlockModel(ctx, s, base, found, m, entries);
        count := count + 1;
        found := found + {m};
        if !blocked {
          return Outcome(count, false, false, false, true), found;
        }
    }
  }

  ghost predicate AreModels(s: Script, facts: seq<Fact>, found: set<Model>) {
    forall m :: m in found ==> IsModel(s, facts, m)
  }

  ghost predicate AreAllModels(s: Script, facts: seq<Fact>, found: set<Model>) {
    forall m :: IsModel(s, facts, m) <==> m in found
  }

  lemma NewModel(s: Script, base: seq<Fact>, facts: seq<Fact>, found: set<Model>, m: Model)
    requires Separated(s, base, facts, found) && IsModel(s, facts, m)
    ensures m !in found && |found + {m}| == |found| + 1 && AreModels(s, base, found + {m})
  {
  }

  /** Without constants the only assignment is the empty one. */
  lemma NoConstants(s: Script, entries: seq<Entry>, base: seq<Fact>, m: Model)
    requires entries == [] && Describes(s, entries, m) && WellTyped(s.decls, m)
    ensures s.decls == {} && forall m' :: IsModel(s, base, m') ==> m' == m
  {
    assert s.decls == {};
    forall m' | IsModel(s, base, m')
      ensures m' == m
    {
      assert m'.Keys == {} == m.Keys;
    }
  }

  lemma DeclsComplete(s: Script, entries: seq<Entry>, m: Model)
    requires Describes(s, entries, m)
    ensures Distinct(DeclsOf(entries)) && DeclSet(DeclsOf(entries)) == s.decls
  {
    forall d
      ensures d in DeclSet(DeclsOf(entries)) <==> d in s.decls
    {
      if d in s.decls {
        var i :| 0 <= i < |entries| && entries[i].decl == d;
        assert DeclsOf(entries)[i] == d;
      }
    }
  }

  // ================================================================ counting

  ghost predicate HasExactly(s: Script, facts: seq<Fact>, n: nat) {
    exists found :: |found| == n && AreAllModels(s, facts, found)
  }

  ghost predicate HasAtLeast(s: Script, facts: seq<Fact>, n: nat) {
    exists found :: |found| == n && AreModels(s, facts, found)
  }

  lemma NothingFound(s: Script, facts: seq<Fact>)
    ensures HasAtLeast(s, facts, 0)
  {
    var none: set<Model> := {};
    assert |none| == 0 && AreModels(s, facts, none);
  }

  datatype Status = Exact | LowerBoundCapped | UnknownStatus | ErrorStatus

  /** upperBound is None when it is infinite. */
  datatype CountResult = CountResult(estimate: nat, lowerBound: nat, upperBound: Option<nat>, isExact: bool,
                                     capped: bool, status: Status)

  function ErrorResult(): CountResult {
    CountResult(0, 0, Some(0), false, false, ErrorStatus)
  }

  function ExactCount(n: nat): CountResult {
    CountResult(n, n, Some(n), true, false, Exact)
  }

  /** A result is honest about a script: the lower bound is reached by different models, an exact
      result is the number of models, and a result that is neither exact nor an error claims no
      upper bound. */
  ghost predicate Honest(s: Script, facts: seq<Fact>, r: CountResult) {
    && HasAtLeast(s, facts, r.lowerBound)
    && (r.isExact <==> r.status == Exact)
    && (r.isExact ==>
          HasExactly(s, facts, r.estimate) && r.lowerBound == r.estimate && r.upperBound == Some(r.estimate))
    && (r.status == LowerBoundCapped || r.status == UnknownStatus ==>
          r.upperBound == None && r.lowerBound == r.estimate)
    && (r.capped <==> r.status == LowerBoundCapped)
  }

  function ResultFromEnumeration(o: Outcome): CountResult {
    if o.error then ErrorResult()
    else if o.exhausted then ExactCount(o.found)
    else if o.hitUnknown then CountResult(o.found, o.found, None, false, false, UnknownStatus)
    else CountResult(o.found, o.found, None, false, true, LowerBoundCapped)
  }

  lemma EnumerationHonest(s: Script, facts: seq<Fact>, o: Outcome, found: set<Model>)
    requires |found| == o.found && AreModels(s, facts, found)
    requires o.exhausted ==> !o.error && AreAllModels(s, facts, found)
    ensures Honest(s, facts, ResultFromEnumeration(o))
  {
    NothingFound(s, facts);
  }

  /** Enumerate inside a push/pop pair, leaving the assertions as they were. */
  method EnumerateScoped(ctx: Context, ghost s: Script, cap: nat, clockExpired: nat -> bool) returns (o: Outcome)
    requires ctx.Valid() && SoundSolver(s, ctx.oracle)
    modifies ctx
    ensures ctx.Valid() && ctx.facts == old(ctx.facts) && ctx.marks == old(ctx.marks)
    ensures Honest(s, old(ctx.facts), ResultFromEnumeration(o))
  {
    ghost var found: set<Model>;
    ctx.Push();
    o, found := EnumerateModelsBounded(ctx, s, cap, clockExpired);
    ctx.Pop();
    EnumerationHonest(s, ctx.facts, o, found);
  }

  method CountExact(ctx: Context, ghost s: Script, loaded: bool, samples: nat, clockExpired: nat -> bool)
    returns (r: CountResult)
    requires ctx.Valid() && SoundSolver(s, ctx.oracle)
    modifies ctx
    ensures ctx.Valid() && ctx.facts == old(ctx.facts) && ctx.marks == old(ctx.marks)
    ensures Honest(s, ctx.facts, r)
  {
    if !loaded {
      NothingFound(s, ctx.facts);
      return ErrorResult();
    }
    var cap := if samples >= 1 then samples else 1;
    var o := EnumerateScoped(ctx, s, cap, clockExpired);
    r := ResultFromEnumeration(o);
  }

  const HASH_MIN_VARS: nat := 10

  predicate AllBool(entries: seq<Entry>) {
    forall i :: 0 <= i < |entries| ==> entries[i].decl.sort == "Bool"
  }

  /** None stands for the hashing route, which only estimates. */
  method CountApproximate(ctx: Context, ghost s: Script, loaded: bool, samples: nat, clockExpired: nat -> bool)
    returns (r: Option<CountResult>)
    requires ctx.Valid() && SoundSolver(s, ctx.oracle)
    modifies ctx
    ensures ctx.Valid() && ctx.facts == old(ctx.facts) && ctx.marks == old(ctx.marks)
    ensures r.Some? ==> Honest(s, ctx.facts, r.value)
  {
    NothingFound(s, ctx.facts);
    if !loaded {
      return Some(ErrorResult());
    }
    var response := ctx.CheckSat();
    assert RightResponse(s, ctx.facts, response);
    match response
    case RespUnsat =>
      assert AreAllModels(s, ctx.facts, {});
      return Some(ExactCount(0));
    case RespUnknown => return Some(CountResult(0, 0, None, false, false, UnknownStatus));
    case RespSat(None) => return Some(ErrorResult());
    case RespSat(Some(entries)) =>
      if entries == [] {
        ghost var m: Model :| IsModel(s, ctx.facts, m) && Describes(s, entries, m);
        NoConstants(s, entries, ctx.facts, m);
        assert |{m}| == 1 && AreAllModels(s, ctx.facts, {m}) && AreModels(s, ctx.facts, {m});
        return Some(ExactCount(1));
      }
      var cap := if samples >= 1 then samples else 1;
      var spaceTooBig := |entries| >= 128 || Pow2(|entries|) > cap;
      if AllBool(entries) && |entries| >= HASH_MIN_VARS && spaceTooBig {
        return None;
      }
      var o := EnumerateScoped(ctx, s, cap, clockExpired);
      return Some(ResultFromEnumeration(o));
  }

  // ================================================================ enumeration for display

  const UNLIMITED_ENUMERATION_SAFETY_CAP: nat := 1000

  datatype Stop = NoModel | Limit | Clock | Vacuous | Complete | Undecided

  /** The equalities of the constants that are really assigned and can be rebuilt. */
  function PinnedEqualities(entries: seq<Entry>): seq<Equality> {
    if entries == [] then []
    else
      var last := entries[|entries| - 1];
      PinnedEqualities(entries[..|entries| - 1])
      + (if Rebuildable(last.decl) && last.pinned.Some? then [Equality(last.decl, last.pinned.value)] else [])
  }

  lemma {:induction false} PinnedExtended(s: Script, entries: seq<Entry>, m: Model)
    requires WellTyped(s.decls, m)
    requires forall i :: 0 <= i < |entries| ==>
      entries[i].decl in m && (entries[i].pinned.Some? ==> m[entries[i].decl] == entries[i].pinned.value)
    ensures Extends(m, PinnedEqualities(entries))
  {
    if entries != [] {
      PinnedExtended(s, entries[..|entries| - 1], m);
    }
  }

  /** The model behind a description extends its pinned equalities. */
  lemma DescribedExtendsPinned(s: Script, entries: seq<Entry>, m: Model)
    requires WellTyped(s.decls, m) && Describes(s, entries, m)
    ensures Extends(m, PinnedEqualities(entries))
  {
    forall i | 0 <= i < |entries|
      ensures entries[i].decl in m
    {
      assert entries[i].decl in s.decls;
    }
    PinnedExtended(s, entries, m);
  }

  method CollectPinned(entries: seq<Entry>) returns (equalities: seq<Equality>)
    ensures equalities == PinnedEqualities(entries)
  {
    equalities := [];
    for i := 0 to |entries|
      invariant equalities == PinnedEqualities(entries[..i])
    {
      assert entries[..i + 1][..i] == entries[..i];
      if Rebuildable(entries[i].decl) && entries[i].pinned.Some? {
        equalities := equalities + [Equality(entries[i].decl, entries[i].pinned.value)];
      }
    }
    assert entries[..|entries|] == entries;
  }

  /** facts is base followed by the blocking clauses of the partial assignments blocked. */
  ghost predicate BlocksOnly(base: seq<Fact>, facts: seq<Fact>, blocked: seq<seq<Equality>>) {
    facts == base + seq(|blocked|, i requires 0 <= i < |blocked| => Blocked(blocked[i]))
  }

  ghost predicate ExtendsSome(m: Model, blocked: seq<seq<Equality>>) {
    exists i :: 0 <= i < |blocked| && Extends(m, blocked[i])
  }

  lemma BlockedModels(s: Script, base: seq<Fact>, facts: seq<Fact>, blocked: seq<seq<Equality>>, m: Model)
    requires BlocksOnly(base, facts, blocked)
    ensures IsModel(s, facts, m) <==> IsModel(s, base, m) && !ExtendsSome(m, blocked)
  {
    if IsModel(s, facts, m) {
      forall i | 0 <= i < |base|
        ensures FactHolds(s, m, base[i])
      {
        assert facts[i] == base[i];
      }
      forall i | 0 <= i < |blocked|
        ensures !Extends(m, blocked[i])
      {
        assert facts[|base| + i] == Blocked(blocked[i]);
      }
    }
    if IsModel(s, base, m) && !ExtendsSome(m, blocked) {
      forall i | 0 <= i < |facts|
        ensures FactHolds(s, m, facts[i])
      {
        assert i >= |base| ==> facts[i] == Blocked(blocked[i - |base|]);
      }
    }
  }

  /** Every model found so far but the current one extends a blocked assignment. */
  ghost predicate Progress(s: Script, base: seq<Fact>, counted: set<Model>, current: Model,
                           blocked: seq<seq<Equality>>) {
    && AreModels(s, base, counted)
    && forall m :: m in counted && m != current ==> ExtendsSome(m, blocked)
  }

  ghost predicate AllExtendSome(s: Script, base: seq<Fact>, blocked: seq<seq<Equality>>) {
    forall m :: IsModel(s, base, m) ==> ExtendsSome(m, blocked)
  }

  // ---------------------------------------------------------------- what the blocks leave

  /** Model number i extends block number i and none before it. */
  ghost predicate Listed(s: Script, base: seq<Fact>, found: seq<Model>, blocked: seq<seq<Equality>>, i: nat)
    requires i < |found| && i < |blocked|
  {
    IsModel(s, base, found[i]) && Extends(found[i], blocked[i]) && !ExtendsSome(found[i], blocked[..i])
  }

  ghost predicate AllListed(s: Script, base: seq<Fact>, found: seq<Model>, blocked: seq<seq<Equality>>) {
    |found| >= |blocked| && forall i :: 0 <= i < |blocked| ==> Listed(s, base, found, blocked, i)
  }

  /** Of the models that were left when block number i was made, it fits one alone. */
  ghost predicate FitsOne(s: Script, base: seq<Fact>, blocked: seq<seq<Equality>>, i: nat)
    requires i < |blocked|
  {
    forall m, m' :: Fits(s, base, blocked, i, m) && Fits(s, base, blocked, i, m') ==> m == m'
  }

  ghost predicate Fits(s: Script, base: seq<Fact>, blocked: seq<seq<Equality>>, i: nat, m: Model)
    requires i < |blocked|
  {
    IsModel(s, base, m) && Extends(m, blocked[i]) && !ExtendsSome(m, blocked[..i])
  }

  lemma ListedOnce(s: Script, base: seq<Fact>, found: seq<Model>, blocked: seq<seq<Equality>>, i: nat, j: nat)
    requires |found| == |blocked| && AllListed(s, base, found, blocked) && i < j < |found|
    ensures found[i] != found[j]
  {
    assert Listed(s, base, found, blocked, i) && Listed(s, base, found, blocked, j);
    assert blocked[..j][i] == blocked[i];
  }

  lemma {:induction false} MembersCount(found: seq<Model>) returns (members: set<Model>)
    requires forall i, j :: 0 <= i < j < |found| ==> found[i] != found[j]
    ensures |members| == |found| && forall m :: m in members <==> m in found
  {
    if found == [] {
      members := {};
    } else {
      var init, last := found[..|found| - 1], found[|found| - 1];
      members := MembersCount(init);
      assert found == init + [last];
      members := members + {last};
    }
  }

  /** The first block a model extends. */
  lemma {:induction false} FirstBlock(m: Model, blocked: seq<seq<Equality>>) returns (i: nat)
    requires ExtendsSome(m, blocked)
    ensures i < |blocked| && Extends(m, blocked[i]) && !ExtendsSome(m, blocked[..i])
  {
    var init := blocked[..|blocked| - 1];
    if ExtendsSome(m, init) {
      i := FirstBlock(m, init);
      assert init[..i] == blocked[..i];
    } else {
      i := |blocked| - 1;
    }
  }

  lemma FoundFits(s: Script, base: seq<Fact>, found: seq<Model>, blocked: seq<seq<Equality>>, i: nat, m: Model)
    requires |found| == |blocked| && AllListed(s, base, found, blocked) && i < |blocked|
    requires m in found && Fits(s, base, blocked, i, m)
    ensures m == found[i]
  {
    var j :| 0 <= j < |found| && found[j] == m;
    assert Listed(s, base, found, blocked, j);
    NotBefore(m, blocked, i, j);
    NotBefore(m, blocked, j, i);
  }

  lemma NotBefore(m: Model, blocked: seq<seq<Equality>>, i: nat, j: nat)
    requires i < |blocked| && j < |blocked| && Extends(m, blocked[j])
    ensures j < i ==> ExtendsSome(m, blocked[..i])
  {
    if j < i {
      assert blocked[..i][j] == blocked[j];
    }
  }

  /** When every model extends some block, the number of blocks is the number of models if and only
      if each block fits one of the models that were left. */
  lemma ExactIffFitsOne(s: Script, base: seq<Fact>, found: seq<Model>, blocked: seq<seq<Equality>>)
    requires |found| == |blocked| && AllListed(s, base, found, blocked) && AllExtendSome(s, base, blocked)
    ensures HasExactly(s, base, |blocked|) <==> forall i :: 0 <= i < |blocked| ==> FitsOne(s, base, blocked, i)
  {
    forall i, j | 0 <= i < j < |found|
      ensures found[i] != found[j]
    {
      ListedOnce(s, base, found, blocked, i, j);
    }
    var members := MembersCount(found);
    forall m | m in members
      ensures IsModel(s, base, m)
    {
      var i :| 0 <= i < |found| && found[i] == m;
      assert Listed(s, base, found, blocked, i);
    }
    if HasExactly(s, base, |blocked|) {
      var all :| |all| == |blocked| && AreAllModels(s, base, all);
      SubsetSame(members, all);
      forall i | 0 <= i < |blocked|
        ensures FitsOne(s, base, blocked, i)
      {
        forall m, m' | Fits(s, base, blocked, i, m) && Fits(s, base, blocked, i, m')
          ensures m == m'
        {
          FoundFits(s, base, found, blocked, i, m);
          FoundFits(s, base, found, blocked, i, m');
        }
      }
    }
    if forall i :: 0 <= i < |blocked| ==> FitsOne(s, base, blocked, i) {
      forall m | IsModel(s, base, m)
        ensures m in members
      {
        var i := FirstBlock(m, blocked);
        assert Listed(s, base, found, blocked, i) && FitsOne(s, base, blocked, i);
        assert Fits(s, base, blocked, i, m) && Fits(s, base, blocked, i, found[i]);
      }
      assert AreAllModels(s, base, members);
    }
  }

  /** The block gives every declared constant a value. */
  ghost predicate Full(s: Script, block: seq<Equality>) {
    forall d :: d in s.decls ==> Mentions(block, d)
  }

  lemma FullFitsOne(s: Script, base: seq<Fact>, blocked: seq<seq<Equality>>, i: nat)
    requires i < |blocked| && Full(s, blocked[i])
    ensures FitsOne(s, base, blocked, i)
  {
    forall m, m' | Fits(s, base, blocked, i, m) && Fits(s, base, blocked, i, m')
      ensures m == m'
    {
      forall d | d in s.decls
        ensures d in m && d in m' && m[d] == m'[d]
      {
        assert Mentions(blocked[i], d);
        var j :| 0 <= j < |blocked[i]| && blocked[i][j].decl == d;
      }
    }
  }

  /** What a caller can see: with full blocks alone their number is the number of models. */
  lemma ExactIfFull(s: Script, base: seq<Fact>, found: seq<Model>, blocked: seq<seq<Equality>>)
    requires |found| == |blocked| && AllListed(s, base, found, blocked) && AllExtendSome(s, base, blocked)
    requires forall i :: 0 <= i < |blocked| ==> Full(s, blocked[i])
    ensures HasExactly(s, base, |blocked|)
  {
    forall i | 0 <= i < |blocked|
      ensures FitsOne(s, base, blocked, i)
    {
      FullFitsOne(s, base, blocked, i);
    }
    ExactIffFitsOne(s, base, found, blocked);
  }

  ghost predicate Mentions(block: seq<Equality>, d: Decl) {
    exists j :: 0 <= j < |block| && block[j].decl == d
  }

  lemma MentionsAppend(a: seq<Equality>, b: seq<Equality>, d: Decl)
    ensures Mentions(a + b, d) <==> Mentions(a, d) || Mentions(b, d)
  {
    assert forall j :: 0 <= j < |a| ==> (a + b)[j] == a[j];
    assert forall j :: 0 <= j < |b| ==> (a + b)[|a| + j] == b[j];
  }

  /** The entry gives this constant a value that can be rebuilt. */
  predicate Pins(e: Entry, d: Decl) { e.decl == d && Rebuildable(d) && e.pinned.Some? }

  ghost predicate SomePins(entries: seq<Entry>, d: Decl) {
    exists i :: 0 <= i < |entries| && Pins(entries[i], d)
  }

  lemma SomePinsMore(entries: seq<Entry>, last: Entry, d: Decl)
    ensures SomePins(entries + [last], d) <==> SomePins(entries, d) || Pins(last, d)
  {
    assert forall i :: 0 <= i < |entries| ==> (entries + [last])[i] == entries[i];
    assert (entries + [last])[|entries|] == last;
  }

  lemma MentionsOne(e: Entry, d: Decl)
    ensures Mentions(if Rebuildable(e.decl) && e.pinned.Some? then [Equality(e.decl, e.pinned.value)] else [], d)
       <==> Pins(e, d)
  {
    if Pins(e, d) {
      assert [Equality(e.decl, e.pinned.value)][0].decl == d;
    }
  }

  lemma {:induction false} PinnedHas(entries: seq<Entry>, d: Decl)
    ensures Mentions(PinnedEqualities(entries), d) <==> SomePins(entries, d)
  {
    if entries != [] {
      var init, last := entries[..|entries| - 1], entries[|entries| - 1];
      var more := if Rebuildable(last.decl) && last.pinned.Some? then [Equality(last.decl, last.pinned.value)] else [];
      PinnedHas(init, d);
      MentionsAppend(PinnedEqualities(init), more, d);
      MentionsOne(last, d);
      SomePinsMore(init, last, d);
      assert entries == init + [last];
    }
  }

  lemma FullEntry(s: Script, entries: seq<Entry>, m: Model, i: nat)
    requires Describes(s, entries, m) && Full(s, PinnedEqualities(entries)) && i < |entries|
    ensures Rebuildable(entries[i].decl) && entries[i].pinned.Some?
  {
    PinnedHas(entries, entries[i].decl);
    assert entries[i].decl in s.decls;
    var k :| 0 <= k < |entries| && Pins(entries[k], entries[i].decl);
    assert k == i || k < i || i < k;
  }

  lemma AllEntriesFull(s: Script, entries: seq<Entry>, m: Model)
    requires Describes(s, entries, m)
    requires forall i :: 0 <= i < |entries| ==> Rebuildable(entries[i].decl) && entries[i].pinned.Some?
    ensures Full(s, PinnedEqualities(entries))
  {
    forall d | d in s.decls
      ensures Mentions(PinnedEqualities(entries), d)
    {
      PinnedHas(entries, d);
      var i :| 0 <= i < |entries| && entries[i].decl == d;
      assert Pins(entries[i], d);
    }
  }

  /** A block is full exactly when every constant the model names has a value that can be rebuilt. */
  lemma PinnedFullIff(s: Script, entries: seq<Entry>, m: Model)
    requires Describes(s, entries, m)
    ensures Full(s, PinnedEqualities(entries))
       <==> forall i :: 0 <= i < |entries| ==> Rebuildable(entries[i].decl) && entries[i].pinned.Some?
  {
    if Full(s, PinnedEqualities(entries)) {
      forall i | 0 <= i < |entries|
        ensures Rebuildable(entries[i].decl) && entries[i].pinned.Some?
      {
        FullEntry(s, entries, m, i);
      }
    } else if forall i :: 0 <= i < |entries| ==> Rebuildable(entries[i].decl) && entries[i].pinned.Some? {
      AllEntriesFull(s, entries, m);
    }
  }

  lemma SubsetSame(a: set<Model>, b: set<Model>)
    requires |a| == |b| && forall m :: m in a ==> m in b
    ensures a == b
  {
    if m :| m in b && m !in a {
      SubsetSize(a, b - {m});
    }
  }

  /** Block the current model's pinned equalities and ask again. */
  method BlockAndCheck(ctx: Context, ghost s: Script, ghost base: seq<Fact>, ghost counted: set<Model>,
                       ghost current: Model, ghost blocked: seq<seq<Equality>>, equalities: seq<Equality>)
    returns (response: Response, ghost next: Model)
    requires ctx.Valid() && SoundSolver(s, ctx.oracle)
    requires BlocksOnly(base, ctx.facts, blocked) && Progress(s, base, counted, current, blocked)
    requires Extends(current, equalities)
    modifies ctx
    ensures ctx.Valid() && ctx.marks == old(ctx.marks) && BlocksOnly(base, ctx.facts, blocked + [equalities])
    ensures response.RespSat? ==>
              && IsModel(s, ctx.facts, next) && (response.model.Some? ==> Describes(s, response.model.value, next))
              && |counted + {next}| == |counted| + 1
              && Progress(s, base, counted + {next}, next, blocked + [equalities])
    ensures response.RespUnsat? ==> AllExtendSome(s, base, blocked + [equalities])
  {
    ghost var blocked' := blocked + [equalities];
    BlockStep(s, base, counted, current, blocked, equalities);
    ctx.Assert(Blocked(equalities));
    assert BlocksOnly(base, ctx.facts, blocked');
    response := ctx.CheckSat();
    assert RightResponse(s, ctx.facts, response);
    next := current;
    match response
    case RespSat(answer) =>
      next := Described(s, ctx.facts, answer);
      BlockedModels(s, base, ctx.facts, blocked', next);
    case RespUnsat =>
      forall m | IsModel(s, base, m)
        ensures ExtendsSome(m, blocked')
      {
        BlockedModels(s, base, ctx.facts, blocked', m);
      }
    case RespUnknown =>
  }

  /** Ghost state of the display enumeration. */
  datatype Search = Search(counted: set<Model>, current: Model, blocked: seq<seq<Equality>>, found: seq<Model>)

  ghost predicate Searching(s: Script, base: seq<Fact>, facts: seq<Fact>, g: Search, answer: Option<seq<Entry>>) {
    && BlocksOnly(base, facts, g.blocked) && Progress(s, base, g.counted, g.current, g.blocked)
    && IsModel(s, facts, g.current) && (answer.Some? ==> Describes(s, answer.value, g.current))
    && AllListed(s, base, g.found, g.blocked) && |g.found| == |g.blocked| + 1 == |g.counted|
    && g.found[|g.blocked|] == g.current
  }

  /** What the loop may rely on when it stops. */
  ghost predicate Searched(s: Script, base: seq<Fact>, facts: seq<Fact>, g: Search, stop: Stop) {
    && BlocksOnly(base, facts, g.blocked) && AreModels(s, base, g.counted)
    && (stop == Complete ==>
          && AllExtendSome(s, base, g.blocked)
          && AllListed(s, base, g.found, g.blocked) && |g.found| == |g.blocked| == |g.counted|)
  }

  /** Once blocked, the current model is listed. */
  lemma BlockListed(s: Script, base: seq<Fact>, facts: seq<Fact>, g: Search, equalities: seq<Equality>)
    requires BlocksOnly(base, facts, g.blocked) && IsModel(s, facts, g.current) && Extends(g.current, equalities)
    requires AllListed(s, base, g.found, g.blocked) && |g.found| == |g.blocked| + 1
    requires g.found[|g.blocked|] == g.current
    ensures AllListed(s, base, g.found, g.blocked + [equalities])
  {
    var blocked' := g.blocked + [equalities];
    BlockedModels(s, base, facts, g.blocked, g.current);
    forall i | 0 <= i < |blocked'|
      ensures Listed(s, base, g.found, blocked', i)
    {
      if i < |g.blocked| {
        assert Listed(s, base, g.found, g.blocked, i);
        assert blocked'[..i] == g.blocked[..i];
      } else {
        assert blocked'[..i] == g.blocked;
      }
    }
  }

  lemma ListedMore(s: Script, base: seq<Fact>, found: seq<Model>, blocked: seq<seq<Equality>>, m: Model)
    requires AllListed(s, base, found, blocked)
    ensures AllListed(s, base, found + [m], blocked)
  {
    forall i | 0 <= i < |blocked|
      ensures Listed(s, base, found + [m], blocked, i)
    {
      assert Listed(s, base, found, blocked, i);
    }
  }

  /** One turn of the loop below: block the current model and ask again. */
  method SearchTurn(ctx: Context, ghost s: Script, ghost base: seq<Fact>, ghost g: Search, answer: seq<Entry>)
    returns (next: Option<Option<seq<Entry>>>, stop: Stop, ghost g': Search)
    requires ctx.Valid() && SoundSolver(s, ctx.oracle) && Searching(s, base, ctx.facts, g, Some(answer))
    modifies ctx
    ensures ctx.Valid() && ctx.marks == old(ctx.marks)
    ensures next.Some? ==> Searching(s, base, ctx.facts, g', next.value) && |g'.counted| == |g.counted| + 1
    ensures next.None? ==> Searched(s, base, ctx.facts, g', stop) && g'.counted == g.counted
  {
    var equalities := CollectPinned(answer);
    if equalities == [] {
      return None, Vacuous, g;
    }
    DescribedExtendsPinned(s, answer, g.current);
    BlockListed(s, base, ctx.facts, g, equalities);
    var response: Response;
    ghost var m: Model;
    response, m := BlockAndCheck(ctx, s, base, g.counted, g.current, g.blocked, equalities);
    match response
    case RespSat(found) =>
      ListedMore(s, base, g.found, g.blocked + [equalities], m);
      return Some(found), Limit, Search(g.counted + {m}, m, g.blocked + [equalities], g.found + [m]);
    case RespUnsat => return None, Complete, Search(g.counted, m, g.blocked + [equalities], g.found);
    case RespUnknown => return None, Undecided, Search(g.counted, m, g.blocked + [equalities], g.found);
  }

  method BlockAndSearch(ctx: Context, ghost s: Script, requestedCap: nat, clockExpired: nat -> bool,
                        firstAnswer: Option<seq<Entry>>)
    returns (count: nat, stop: Stop, ghost g: Search)
    requires ctx.Valid() && SoundSolver(s, ctx.oracle) && requestedCap > 1
    requires RightResponse(s, ctx.facts, RespSat(firstAnswer))
    modifies ctx
    ensures ctx.Valid() && ctx.marks == old(ctx.marks) && Searched(s, old(ctx.facts), ctx.facts, g, stop)
    ensures |g.counted| == count <= requestedCap
  {
    ghost var base := ctx.facts;
    var answer := firstAnswer;
    ghost var first: Model := Described(s, ctx.facts, answer);
    count, stop, g := 1, Limit, Search({first}, first, [], [first]);
    assert BlocksOnly(base, ctx.facts, []);
    while count < requestedCap
      invariant ctx.Valid() && ctx.marks == old(ctx.marks) && |g.counted| == count <= requestedCap
      invariant Searching(s, base, ctx.facts, g, answer) && stop == Limit
      decreases requestedCap - count
    {
      if clockExpired(count) {
        return count, Clock, g;
      }
      if answer.None? {
        return count, NoModel, g;
      }
      var next: Option<Option<seq<Entry>>>;
      next, stop, g := SearchTurn(ctx, s, base, g, answer.value);
      if next.None? {
        return;
      }
      stop := Limit;
      count := count + 1;
      answer := next.value;
    }
  }

  lemma BlockStep(s: Script, base: seq<Fact>, counted: set<Model>, current: Model, blocked: seq<seq<Equality>>,
                  equalities: seq<Equality>)
    requires Progress(s, base, counted, current, blocked) && Extends(current, equalities)
    ensures forall m :: m in counted ==> ExtendsSome(m, blocked + [equalities])
  {
    forall m | m in counted
      ensures ExtendsSome(m, blocked + [equalities])
    {
      if m == current {
        assert (blocked + [equalities])[|blocked|] == equalities;
      } else {
        var i :| 0 <= i < |blocked| && Extends(m, blocked[i]);
        assert (blocked + [equalities])[i] == blocked[i];
      }
    }
  }

  lemma Described(s: Script, facts: seq<Fact>, answer: Option<seq<Entry>>) returns (m: Model)
    requires RightResponse(s, facts, RespSat(answer))
    ensures IsModel(s, facts, m) && (answer.Some? ==> Describes(s, answer.value, m))
  {
    if answer.Some? {
      m :| IsModel(s, facts, m) && Describes(s, answer.value, m);
    } else {
      m :| IsModel(s, facts, m);
    }
  }

  /** Display enumeration on a context whose last answer was sat: the number reported never
      exceeds the number of models, "complete" means every model extends a blocked partial
      assignment and is the exact number if and only if each of these fits one of the models that
      were left, and the assertions end up as they were. */
  method EnumerateAdditionalModels(ctx: Context, ghost s: Script, maxModels: nat, clockExpired: nat -> bool,
                                   shown: Option<seq<Entry>>)
    returns (count: nat, stop: Stop, ghost blocked: seq<seq<Equality>>)
    requires ctx.Valid() && SoundSolver(s, ctx.oracle)
    requires RightResponse(s, ctx.facts, RespSat(shown))
    modifies ctx
    ensures ctx.Valid() && ctx.facts == old(ctx.facts) && ctx.marks == old(ctx.marks)
    ensures HasAtLeast(s, ctx.facts, count)
    ensures stop == Complete ==> AllExtendSome(s, ctx.facts, blocked) && |blocked| == count
    ensures stop == Complete ==>
              (HasExactly(s, ctx.facts, count) <==> forall i :: 0 <= i < count ==> FitsOne(s, ctx.facts, blocked, i))
    ensures stop == Complete && (forall i :: 0 <= i < count ==> Full(s, blocked[i])) ==> HasExactly(s, ctx.facts, count)
    ensures count <= (if maxModels == 0 then UNLIMITED_ENUMERATION_SAFETY_CAP else maxModels)
  {
    var requestedCap := if maxModels == 0 then UNLIMITED_ENUMERATION_SAFETY_CAP else maxModels;
    blocked := [];
    ghost var m0 := Described(s, ctx.facts, shown);
    NothingFound(s, ctx.facts);
    assert |{m0}| == 1 && AreModels(s, ctx.facts, {m0});
    if shown.None? {
      return 0, NoModel, [];
    }
    if requestedCap <= 1 {
      return 1, Limit, [];
    }
    ctx.Push();
    var again := ctx.CheckSat();
    if !again.RespSat? {
      ctx.Pop();
      return 1, NoModel, [];
    }
    assert RightResponse(s, ctx.facts, again);
    ghost var g: Search;
    count, stop, g := BlockAndSearch(ctx, s, requestedCap, clockExpired, again.model);
    blocked := g.blocked;
    ctx.Pop();
    assert ctx.facts == old(ctx.facts);
    if stop == Complete {
      ExactIffFitsOne(s, ctx.facts, g.found, blocked);
      forall i | 0 <= i < |blocked| && Full(s, blocked[i])
        ensures FitsOne(s, ctx.facts, blocked, i)
      {
        FullFitsOne(s, ctx.facts, blocked, i);
      }
    }
  }

  // ---------------------------------------------------------------- "complete", but not all

  function BoolDecl(name: string): Decl { Decl(name, "Bool") }

  /** Two Boolean constants, of which the script asserts the first. */
  function FreeChoice(): Script {
    Script({BoolDecl("a"), BoolDecl("b")}, (id, m) => BoolDecl("a") in m && m[BoolDecl("a")] == BoolValue(true))
  }

  function Choice(b: bool): Model {
    map[BoolDecl("a") := BoolValue(true), BoolDecl("b") := BoolValue(b)]
  }

  /** The solver assigns the first constant alone. */
  function FirstOnly(): seq<Entry> {
    [Entry(BoolDecl("a"), Some(BoolValue(true)), Some(BoolValue(true))), Entry(BoolDecl("b"), None, None)]
  }

  lemma ChoiceModels(m: Model)
    ensures IsModel(FreeChoice(), [Given(0)], m) <==> m == Choice(true) || m == Choice(false)
  {
    var s := FreeChoice();
    assert [Given(0)][0] == Given(0) && SortOf("Bool") == BoolSort;
    assert BoolDecl("a") != BoolDecl("b");
    if IsModel(s, [Given(0)], m) {
      assert FactHolds(s, m, [Given(0)][0]);
      assert HasSort(m[BoolDecl("b")], BoolSort);
      assert m == Choice(m[BoolDecl("b")].b);
    }
  }

  lemma TwoChoices()
    ensures HasExactly(FreeChoice(), [Given(0)], 2) && !HasExactly(FreeChoice(), [Given(0)], 1)
  {
    var s, base, both := FreeChoice(), [Given(0)], {Choice(true), Choice(false)};
    forall m
      ensures IsModel(s, base, m) <==> m in both
    {
      ChoiceModels(m);
    }
    assert Choice(true)[BoolDecl("b")] != Choice(false)[BoolDecl("b")];
    assert AreAllModels(s, base, both) && |both| == 2;
    if HasExactly(s, base, 1) {
      var all :| |all| == 1 && AreAllModels(s, base, all);
      SubsetSize(both, all);
    }
  }

  lemma NoneLeft(block: seq<Equality>, m: Model)
    requires block == [Equality(BoolDecl("a"), BoolValue(true))]
    ensures !IsModel(FreeChoice(), [Given(0)] + [Blocked(block)], m)
  {
    var s, facts := FreeChoice(), [Given(0)] + [Blocked(block)];
    assert facts[0] == Given(0) && facts[1] == Blocked(block);
    assert FactHolds(s, m, facts[0]) ==> Extends(m, block);
  }

  /** After one model, blocked by a == true alone, the solver rightly says unsat: "complete: 1 model(s)
      total" is printed, and there are two. */
  lemma PartialBlockUndercounts()
    ensures var s, base, block := FreeChoice(), [Given(0)], [Equality(BoolDecl("a"), BoolValue(true))];
            && IsModel(s, base, Choice(true)) && Describes(s, FirstOnly(), Choice(true))
            && PinnedEqualities(FirstOnly()) == block && RightResponse(s, base + [Blocked(block)], RespUnsat)
            && HasExactly(s, base, 2) && !HasExactly(s, base, 1)
  {
    ChoiceModels(Choice(true));
    DescribedFirst();
    TwoChoices();
    var block := [Equality(BoolDecl("a"), BoolValue(true))];
    forall m
      ensures !IsModel(FreeChoice(), [Given(0)] + [Blocked(block)], m)
    {
      NoneLeft(block, m);
    }
  }

  lemma DescribedFirst()
    ensures Describes(FreeChoice(), FirstOnly(), Choice(true))
    ensures PinnedEqualities(FirstOnly()) == [Equality(BoolDecl("a"), BoolValue(true))]
  {
    var entries, s := FirstOnly(), FreeChoice();
    assert entries[0].decl == BoolDecl("a") && entries[1].decl == BoolDecl("b");
    assert BoolDecl("a") != BoolDecl("b") && SortOf("Bool") == BoolSort;
    assert entries[..1] == [entries[0]] && [entries[0]][..0] == [];
    assert PinnedEqualities([entries[0]]) == [] + [Equality(BoolDecl("a"), BoolValue(true))];
  }
}
