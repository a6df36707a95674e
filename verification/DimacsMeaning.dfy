/** A CNF and its script, and a quantified CNF and its script, mean the same. */
module DimacsMeaning {
  import opened RustText
  import opened SmtLib
  import opened Dimacs
  import opened DimacsText
  import opened DimacsRoundTrip
  import opened DimacsSmt

  // ================================================================ meaning of clauses

  type Assignment = int -> bool

  predicate LiteralTrue(a: Assignment, literal: int) {
    if literal > 0 then a(literal) else !a(-literal)
  }

  predicate ClauseTrue(a: Assignment, clause: seq<int>) {
    exists i :: 0 <= i < |clause| && LiteralTrue(a, clause[i])
  }

  predicate CnfTrue(a: Assignment, clauses: seq<seq<int>>) {
    forall i :: 0 <= i < |clauses| ==> ClauseTrue(a, clauses[i])
  }

  ghost predicate CnfSatisfiable(clauses: seq<seq<int>>) {
    exists a: Assignment :: CnfTrue(a, clauses)
  }

  // ================================================================ meaning of scripts

  /** Interpretation of the Boolean constants; bound variables shadow them. */
  type Env = string -> bool

  function Set(env: Env, x: string, b: bool): Env { y => if y == x then b else env(y) }

  function NameOf(binder: Sexp): string {
    if binder.List? && binder.items != [] && binder.items[0].Sym? then binder.items[0].name else ""
  }

  ghost predicate Holds(env: Env, s: Sexp)
    decreases s, 0, 0
  {
    match s
    case Sym(x) => if x == "true" then true else if x == "false" then false else env(x)
    case Num(_) => false
    case List(items) =>
      if |items| == 2 && items[0] == Sym("not") then !Holds(env, items[1])
      else if items != [] && items[0] == Sym("and") then forall i :: 0 < i < |items| ==> Holds(env, items[i])
      else if items != [] && items[0] == Sym("or") then exists i :: 0 < i < |items| && Holds(env, items[i])
      else if |items| == 3 && items[0] == Sym("forall") && items[1].List? then
        HoldsBound(env, true, items[1].items, items[2])
      else if |items| == 3 && items[0] == Sym("exists") && items[1].List? then
        HoldsBound(env, false, items[1].items, items[2])
      else false
  }

  ghost predicate HoldsBound(env: Env, universal: bool, binders: seq<Sexp>, body: Sexp)
    decreases body, 1, |binders|
  {
    if binders == [] then Holds(env, body)
    else if universal then forall b: bool :: HoldsBound(Set(env, NameOf(binders[0]), b), universal, binders[1..], body)
    else exists b: bool :: HoldsBound(Set(env, NameOf(binders[0]), b), universal, binders[1..], body)
  }

  ghost predicate AllHold(env: Env, assertions: seq<Sexp>) {
    forall i :: 0 <= i < |assertions| ==> Holds(env, assertions[i])
  }

  ghost predicate ScriptSatisfiable(assertions: seq<Sexp>) {
    exists env: Env :: AllHold(env, assertions)
  }

  // ================================================================ variables and names

  lemma VarNameInjective(i: nat, j: nat)
    requires VarName(i) == VarName(j)
    ensures i == j
  {
    assert VarName(i)[1..] == FormatNat(i) && VarName(j)[1..] == FormatNat(j);
    FormatNatInjective(i, j);
  }

  lemma VarNamePlain(i: int)
    ensures VarName(i) != "true" && VarName(i) != "false"
  {
    assert VarName(i)[0] == 'v';
  }

  /** The constant that stands for variable v in clauses: 2147483648 is only ever negated, by the least
      32-bit integer, which is its own negation. */
  function ConstantOf(v: nat): string {
    if v == I32_BOUND then VarName(-I32_BOUND) else VarName(v)
  }

  lemma MinusDiffers(k: nat)
    ensures VarName(-I32_BOUND) != VarName(k)
  {
    assert VarName(-I32_BOUND)[1] == '-';
    assert VarName(k)[1] == FormatNat(k)[0] && IsDigit(FormatNat(k)[0]);
  }

  lemma ConstantOfInjective(i: nat, j: nat)
    requires ConstantOf(i) == ConstantOf(j)
    ensures i == j
  {
    MinusDiffers(i);
    MinusDiffers(j);
    if i != I32_BOUND && j != I32_BOUND {
      VarNameInjective(i, j);
    }
  }

  /** The interpretation gives every variable's constant the variable's value. */
  ghost predicate Matches(env: Env, a: Assignment) {
    forall i: nat {:trigger ConstantOf(i)} :: env(ConstantOf(i)) == a(i)
  }

  function AssignmentOf(env: Env): Assignment { (i: int) => i >= 0 && env(ConstantOf(i)) }

  ghost predicate NamesTrue(a: Assignment, x: string) {
    exists i: nat :: ConstantOf(i) == x && a(i)
  }

  ghost function EnvOf(a: Assignment): Env { x => NamesTrue(a, x) }

  lemma EnvMatches(a: Assignment)
    ensures Matches(EnvOf(a), a)
  {
    forall i: nat
      ensures EnvOf(a)(ConstantOf(i)) == a(i)
    {
      forall j: nat | ConstantOf(j) == ConstantOf(i)
        ensures i == j
      {
        ConstantOfInjective(i, j);
      }
    }
  }

  lemma MatchesSet(env: Env, a: Assignment, v: nat, b: bool)
    requires Matches(env, a) && v < I32_BOUND
    ensures Matches(Set(env, VarName(v), b), Assign(a, v, b))
  {
    forall i: nat
      ensures Set(env, VarName(v), b)(ConstantOf(i)) == Assign(a, v, b)(i)
    {
      assert VarName(v) == ConstantOf(v);
      if ConstantOf(i) == ConstantOf(v) {
        ConstantOfInjective(i, v);
      }
    }
  }

  function Assign(a: Assignment, v: int, b: bool): Assignment { u => if u == v then b else a(u) }

  // ================================================================ CNF to SMT-LIB

  lemma LiteralMeaning(env: Env, a: Assignment, literal: int)
    requires Matches(env, a) && InRange(literal)
    ensures Holds(env, LiteralSexp(literal)) == LiteralTrue(a, literal)
  {
    var v: nat := if literal > 0 then literal else -literal;
    var name := if literal > 0 then VarName(literal) else VarName(Negated32(literal));
    assert name == ConstantOf(v);
    VarNamePlain(if literal > 0 then literal else Negated32(literal));
    assert env(ConstantOf(v)) == a(v);
    NotMeaning(env, Sym(name));
  }

  lemma NotMeaning(env: Env, s: Sexp)
    ensures Holds(env, App("not", [s])) == !Holds(env, s)
  {
    var items := App("not", [s]).items;
    assert |items| == 2 && items[0] == Sym("not") && items[1] == s;
  }

  lemma AppMeaning(env: Env, args: seq<Sexp>)
    ensures Holds(env, App("and", args)) <==> forall i :: 0 <= i < |args| ==> Holds(env, args[i])
    ensures Holds(env, App("or", args)) <==> exists i :: 0 <= i < |args| && Holds(env, args[i])
  {
    ShiftedAll(env, App("and", args).items, args);
    ShiftedSome(env, App("or", args).items, args);
  }

  lemma ShiftedAll(env: Env, items: seq<Sexp>, args: seq<Sexp>)
    requires items == [Sym("and")] + args
    ensures Holds(env, List(items)) <==> forall i :: 0 <= i < |args| ==> Holds(env, args[i])
  {
    assert forall i :: 0 <= i < |args| ==> items[i + 1] == args[i];
    assert forall i :: 0 < i < |items| ==> items[i] == args[i - 1];
  }

  lemma ShiftedSome(env: Env, items: seq<Sexp>, args: seq<Sexp>)
    requires items == [Sym("or")] + args
    ensures Holds(env, List(items)) <==> exists i :: 0 <= i < |args| && Holds(env, args[i])
  {
    assert forall i :: 0 <= i < |args| ==> items[i + 1] == args[i];
    assert forall i :: 0 < i < |items| ==> items[i] == args[i - 1];
  }

  lemma ClauseMeaning(env: Env, a: Assignment, clause: seq<int>)
    requires Matches(env, a) && AllInRange(clause)
    ensures Holds(env, ClauseSexp(clause)) == ClauseTrue(a, clause)
  {
    forall i | 0 <= i < |clause|
      ensures Holds(env, LiteralSexp(clause[i])) == LiteralTrue(a, clause[i])
    {
      LiteralMeaning(env, a, clause[i]);
    }
    if |clause| == 1 {
      assert ClauseTrue(a, clause) <==> LiteralTrue(a, clause[0]);
    } else if |clause| > 1 {
      AppMeaning(env, LiteralSexps(clause));
      SameSome(env, a, LiteralSexps(clause), clause);
    }
  }

  lemma SameSome(env: Env, a: Assignment, ss: seq<Sexp>, clause: seq<int>)
    requires |ss| == |clause| && forall i :: 0 <= i < |ss| ==> Holds(env, ss[i]) == LiteralTrue(a, clause[i])
    ensures (exists i :: 0 <= i < |ss| && Holds(env, ss[i])) <==> ClauseTrue(a, clause)
  {
  }

  lemma CnfMeaning(env: Env, a: Assignment, clauses: seq<seq<int>>)
    requires Matches(env, a) && ClausesInRange(clauses)
    ensures AllHold(env, ClauseSexps(clauses)) == CnfTrue(a, clauses)
    ensures Holds(env, MatrixSexp(clauses)) == CnfTrue(a, clauses)
  {
    var ss := ClauseSexps(clauses);
    forall i | 0 <= i < |clauses|
      ensures Holds(env, ss[i]) == ClauseTrue(a, clauses[i])
    {
      ClauseMeaning(env, a, clauses[i]);
    }
    if |clauses| == 1 {
      assert CnfTrue(a, clauses) <==> ClauseTrue(a, clauses[0]);
      assert ss[0] == MatrixSexp(clauses);
    } else if |clauses| > 1 {
      AppMeaning(env, ss);
    }
  }

  /** The script's assertions are satisfiable exactly when the CNF is. */
  lemma ScriptSatisfiableIff(clauses: seq<seq<int>>)
    requires ClausesInRange(clauses)
    ensures ScriptSatisfiable(ClauseSexps(clauses)) <==> CnfSatisfiable(clauses)
  {
    if ScriptSatisfiable(ClauseSexps(clauses)) {
      var env: Env :| AllHold(env, ClauseSexps(clauses));
      CnfMeaning(env, AssignmentOf(env), clauses);
    }
    if CnfSatisfiable(clauses) {
      var a: Assignment :| CnfTrue(a, clauses);
      EnvMatches(a);
      CnfMeaning(EnvOf(a), a, clauses);
    }
  }

  // ================================================================ declared symbols

  predicate NameDeclared(x: string, numVars: nat) {
    exists i :: 1 <= i <= numVars && x == VarName(i)
  }

  function NameIn(literal: int): string {
    VarName(if literal > 0 then literal else Negated32(literal))
  }

  lemma NegativeName(literal: int, numVars: nat)
    requires literal < 0
    ensures !NameDeclared(VarName(literal), numVars)
  {
    forall i | 1 <= i <= numVars
      ensures VarName(literal) != VarName(i)
    {
      assert VarName(literal)[1] == '-';
      assert VarName(i)[1] == FormatNat(i)[0] && IsDigit(FormatNat(i)[0]);
    }
  }

  /** Every literal of a problem with declared variables names a declared constant, except the least
      32-bit integer: its constant is never declared. */
  lemma LiteralDeclaredIff(literal: int, numVars: nat)
    requires literal != 0 && Magnitude(literal) <= numVars
    ensures NameDeclared(NameIn(literal), numVars) <==> literal != -I32_BOUND
    ensures LiteralSexp(literal)
         == if literal > 0 then Sym(NameIn(literal)) else App("not", [Sym(NameIn(literal))])
  {
    if literal != -I32_BOUND {
      assert NameIn(literal) == VarName(Magnitude(literal));
    } else {
      NegativeName(literal, numVars);
    }
  }

  // ================================================================ quantified formulas

  /** Truth of a quantified CNF under an assignment of its free variables. */
  ghost predicate Qbf(a: Assignment, blocks: seq<Block>, clauses: seq<seq<int>>)
    decreases |blocks|, 0
  {
    if blocks == [] then CnfTrue(a, clauses)
    else QbfBlock(a, blocks[0].universal, blocks[0].variables, blocks[1..], clauses)
  }

  ghost predicate QbfBlock(a: Assignment, universal: bool, vs: seq<nat>, rest: seq<Block>, clauses: seq<seq<int>>)
    decreases |rest|, |vs| + 1
  {
    if vs == [] then Qbf(a, rest, clauses)
    else if universal then forall b: bool :: QbfBlock(Assign(a, vs[0], b), universal, vs[1..], rest, clauses)
    else exists b: bool :: QbfBlock(Assign(a, vs[0], b), universal, vs[1..], rest, clauses)
  }

  /** Quantified variables are read as 32-bit integers. */
  predicate BlocksInRange(blocks: seq<Block>) {
    forall i :: 0 <= i < |blocks| ==> AllBelow(blocks[i].variables, I32_BOUND)
  }

  lemma {:induction false} QbfMeaning(env: Env, a: Assignment, blocks: seq<Block>, clauses: seq<seq<int>>)
    requires Matches(env, a) && ClausesInRange(clauses) && BlocksInRange(blocks)
    ensures Holds(env, FormulaSexp(blocks, MatrixSexp(clauses))) == Qbf(a, blocks, clauses)
    decreases |blocks|, 0
  {
    if blocks == [] {
      CnfMeaning(env, a, clauses);
    } else {
      var block := blocks[0];
      BlockMeaning(env, a, block.universal, block.variables, blocks[1..], clauses);
      BoundMeaning(env, block, FormulaSexp(blocks[1..], MatrixSexp(clauses)));
    }
  }

  lemma BoundMeaning(env: Env, block: Block, body: Sexp)
    ensures Holds(env, BlockSexp(block, body))
        <==> HoldsBound(env, block.universal, BinderSexps(block.variables), body)
  {
    var binders := BinderSexps(block.variables);
    var items := [Sym(Quantifier(block.universal)), List(binders), body];
    assert items[1].items == binders && items[2] == body;
  }

  lemma {:induction false} BlockMeaning(env: Env, a: Assignment, universal: bool, vs: seq<nat>,
                                        rest: seq<Block>, clauses: seq<seq<int>>)
    requires Matches(env, a) && ClausesInRange(clauses) && BlocksInRange(rest) && AllBelow(vs, I32_BOUND)
    ensures HoldsBound(env, universal, BinderSexps(vs), FormulaSexp(rest, MatrixSexp(clauses)))
        <==> QbfBlock(a, universal, vs, rest, clauses)
    decreases |rest|, |vs| + 1
  {
    var binders, body := BinderSexps(vs), FormulaSexp(rest, MatrixSexp(clauses));
    if vs == [] {
      QbfMeaning(env, a, rest, clauses);
    } else {
      assert binders[0] == BinderSexp(vs[0]) && NameOf(binders[0]) == VarName(vs[0]);
      TailBinders(vs);
      forall b: bool
        ensures HoldsBound(Set(env, VarName(vs[0]), b), universal, binders[1..], body)
            <==> QbfBlock(Assign(a, vs[0], b), universal, vs[1..], rest, clauses)
      {
        MatchesSet(env, a, vs[0], b);
        BlockMeaning(Set(env, VarName(vs[0]), b), Assign(a, vs[0], b), universal, vs[1..], rest, clauses);
      }
    }
  }

  lemma TailBinders(vs: seq<nat>)
    requires vs != []
    ensures BinderSexps(vs)[1..] == BinderSexps(vs[1..])
  {
    var all, tail := BinderSexps(vs), BinderSexps(vs[1..]);
    assert forall i :: 0 <= i < |tail| ==> all[1..][i] == tail[i];
  }

  // ================================================================ unlisted variables

  predicate Listed(blocks: seq<Block>, v: nat) {
    exists i :: 0 <= i < |blocks| && v in blocks[i].variables
  }

  /** Every variable of the clauses is in vars or quantified. */
  predicate Covered(vars: set<nat>, blocks: seq<Block>, clauses: seq<seq<int>>) {
    forall i, j :: 0 <= i < |clauses| && 0 <= j < |clauses[i]| ==>
      Magnitude(clauses[i][j]) in vars || Listed(blocks, Magnitude(clauses[i][j]))
  }

  predicate Agree(a: Assignment, b: Assignment, vars: set<nat>) {
    forall v :: v in vars ==> a(v) == b(v)
  }

  lemma CnfAgrees(a: Assignment, b: Assignment, vars: set<nat>, clauses: seq<seq<int>>)
    requires Agree(a, b, vars) && Covered(vars, [], clauses)
    ensures CnfTrue(a, clauses) == CnfTrue(b, clauses)
  {
    forall i | 0 <= i < |clauses|
      ensures ClauseTrue(a, clauses[i]) == ClauseTrue(b, clauses[i])
    {
      forall j | 0 <= j < |clauses[i]|
        ensures LiteralTrue(a, clauses[i][j]) == LiteralTrue(b, clauses[i][j])
      {
        assert Magnitude(clauses[i][j]) in vars;
      }
    }
  }

  /** Only the free variables matter. */
  lemma {:induction false} QbfAgrees(a: Assignment, b: Assignment, vars: set<nat>, blocks: seq<Block>,
                                     clauses: seq<seq<int>>)
    requires Agree(a, b, vars) && Covered(vars, blocks, clauses)
    ensures Qbf(a, blocks, clauses) == Qbf(b, blocks, clauses)
    decreases |blocks|, 0
  {
    if blocks == [] {
      CnfAgrees(a, b, vars, clauses);
    } else {
      var vs := blocks[0].variables;
      CoveredMore(vars, vs, blocks, clauses);
      BlockAgrees(a, b, vars, blocks[0].universal, vs, blocks[1..], clauses);
    }
  }

  function Members(vs: seq<nat>): set<nat> { set v | v in vs }

  lemma CoveredMore(vars: set<nat>, vs: seq<nat>, blocks: seq<Block>, clauses: seq<seq<int>>)
    requires blocks != [] && vs == blocks[0].variables && Covered(vars, blocks, clauses)
    ensures Covered(vars + Members(vs), blocks[1..], clauses)
  {
    forall i, j | 0 <= i < |clauses| && 0 <= j < |clauses[i]|
      ensures Magnitude(clauses[i][j]) in vars + Members(vs) || Listed(blocks[1..], Magnitude(clauses[i][j]))
    {
      var v := Magnitude(clauses[i][j]);
      if v !in vars && v !in vs {
        var k :| 0 <= k < |blocks| && v in blocks[k].variables;
        assert blocks[1..][k - 1] == blocks[k];
      }
    }
  }

  lemma {:induction false} BlockAgrees(a: Assignment, b: Assignment, vars: set<nat>, universal: bool, vs: seq<nat>,
                                       rest: seq<Block>, clauses: seq<seq<int>>)
    requires Agree(a, b, vars) && Covered(vars + Members(vs), rest, clauses)
    ensures QbfBlock(a, universal, vs, rest, clauses) == QbfBlock(b, universal, vs, rest, clauses)
    decreases |rest|, |vs| + 1
  {
    if vs == [] {
      assert vars + Members(vs) == vars;
      QbfAgrees(a, b, vars, rest, clauses);
    } else {
      assert vars + {vs[0]} + Members(vs[1..]) == vars + Members(vs);
      forall c: bool
        ensures QbfBlock(Assign(a, vs[0], c), universal, vs[1..], rest, clauses)
             == QbfBlock(Assign(b, vs[0], c), universal, vs[1..], rest, clauses)
      {
        BlockAgrees(Assign(a, vs[0], c), Assign(b, vs[0], c), vars + {vs[0]}, universal, vs[1..], rest, clauses);
      }
    }
  }


  lemma {:induction false} ChosenStep(a: Assignment, c: Assignment, done: set<nat>, vs: seq<nat>,
                                      rest: seq<Block>, clauses: seq<seq<int>>)
    requires Agree(a, c, done) && Covered(done + Members(vs), rest, clauses) && Qbf(c, rest, clauses)
    ensures QbfBlock(a, false, vs, rest, clauses)
    decreases |vs|
  {
    if vs == [] {
      assert done + Members(vs) == done;
      QbfAgrees(a, c, done, rest, clauses);
    } else {
      assert done + {vs[0]} + Members(vs[1..]) == done + Members(vs);
      ChosenStep(Assign(a, vs[0], c(vs[0])), c, done + {vs[0]}, vs[1..], rest, clauses);
    }
  }

  lemma {:induction false} OutermostChosen(a: Assignment, vs: seq<nat>, rest: seq<Block>, clauses: seq<seq<int>>)
    requires QbfBlock(a, false, vs, rest, clauses)
    ensures exists c: Assignment :: Qbf(c, rest, clauses)
    decreases |vs|
  {
    if vs != [] {
      var b: bool :| QbfBlock(Assign(a, vs[0], b), false, vs[1..], rest, clauses);
      OutermostChosen(Assign(a, vs[0], b), vs[1..], rest, clauses);
    }
  }

  /** The variables no block quantifies. */
  function Unlisted(blocks: seq<Block>, numVars: nat): (vs: seq<nat>)
    ensures forall v: nat :: v in vs <==> 1 <= v <= numVars && !Listed(blocks, v)
  {
    if numVars == 0 then []
    else Unlisted(blocks, numVars - 1) + (if Listed(blocks, numVars) then [] else [numVars])
  }

  /** The script of a QDIMACS problem is satisfiable exactly when the formula with its unlisted variables
      quantified existentially outermost is true; as a sentence it is true or false whatever `a` is. */
  lemma QScriptSatisfiableIff(x: QCnf, a: Assignment)
    requires AllDeclared(x.clauses, x.numVars) && ClausesInRange(x.clauses) && BlocksInRange(x.blocks)
    ensures ScriptSatisfiable([FormulaSexp(x.blocks, MatrixSexp(x.clauses))])
        <==> Qbf(a, [Block(false, Unlisted(x.blocks, x.numVars))] + x.blocks, x.clauses)
  {
    var formula := FormulaSexp(x.blocks, MatrixSexp(x.clauses));
    var free := Unlisted(x.blocks, x.numVars);
    var closed := [Block(false, free)] + x.blocks;
    assert closed[1..] == x.blocks;
    assert Qbf(a, closed, x.clauses) == QbfBlock(a, false, free, x.blocks, x.clauses);
    if ScriptSatisfiable([formula]) {
      var env: Env :| AllHold(env, [formula]);
      assert Holds(env, [formula][0]);
      QbfMeaning(env, AssignmentOf(env), x.blocks, x.clauses);
      FreeCovered(x);
      ChosenStep(a, AssignmentOf(env), {}, free, x.blocks, x.clauses);
    }
    if QbfBlock(a, false, free, x.blocks, x.clauses) {
      OutermostChosen(a, free, x.blocks, x.clauses);
      var c: Assignment :| Qbf(c, x.blocks, x.clauses);
      EnvMatches(c);
      QbfMeaning(EnvOf(c), c, x.blocks, x.clauses);
      assert AllHold(EnvOf(c), [formula]);
    }
  }

  lemma FreeCovered(x: QCnf)
    requires AllDeclared(x.clauses, x.numVars)
    ensures Covered({} + Members(Unlisted(x.blocks, x.numVars)), x.blocks, x.clauses)
  {
    var free := Unlisted(x.blocks, x.numVars);
    forall i, j | 0 <= i < |x.clauses| && 0 <= j < |x.clauses[i]|
      ensures Magnitude(x.clauses[i][j]) in Members(free) || Listed(x.blocks, Magnitude(x.clauses[i][j]))
    {
      assert Declared(x.clauses[i], x.numVars);
      var v: nat := Magnitude(x.clauses[i][j]);
      assert 1 <= v <= x.numVars;
      assert v in free <==> !Listed(x.blocks, v);
    }
  }
}
