/** From a TPTP problem to an SMT-LIB script (tptp.rs, TptpProblem::to_smtlib2). */
module TptpProblem {
  import opened TptpSyntax
  import opened SmtLib
  import opened TptpSmt
  import opened TptpWalks

  datatype Role = Axiom | Hypothesis | Conjecture | NegatedConjecture | Lemma | Definition | Type | Unknown

  datatype Statement = Statement(name: string, role: Role, formula: Formula)

  datatype Problem = Problem(statements: seq<Statement>, comments: seq<string>)

  predicate IsGoal(r: Role) { r == Conjecture || r == NegatedConjecture }

  function RoleName(r: Role): string {
    match r
    case Axiom => "axiom"
    case Hypothesis => "hypothesis"
    case Conjecture => "conjecture"
    case NegatedConjecture => "negated_conjecture"
    case Lemma => "lemma"
    case Definition => "definition"
    case Type => "type"
    case Unknown => "unknown"
  }

  function FormulasOf(ss: seq<Statement>): (fs: seq<Formula>)
    ensures |fs| == |ss| && forall i :: 0 <= i < |ss| ==> fs[i] == ss[i].formula
  {
    seq(|ss|, i requires 0 <= i < |ss| => ss[i].formula)
  }

  /** The free variables of the (negated) conjectures, declared as constants. */
  function SkolemNames(ss: seq<Statement>): set<string> {
    if ss == [] then {}
    else (
      var last := ss[|ss| - 1];
      SkolemNames(ss[..|ss| - 1]) + (if IsGoal(last.role) then FreeVars(last.formula) else {})
    )
  }

  /** A script as emitted: declarations in emission order, then one assertion per statement. */
  datatype Script = Script(functions: seq<Use>, skolems: seq<string>, predicates: seq<Use>, assertions: seq<Sexp>)

  // ================================================================ text

  function UList(n: nat): string {
    if n == 0 then "" else if n == 1 then "U" else "U " + UList(n - 1)
  }

  function DeclareText(u: Use, sort: string): string {
    if u.1 == 0 then "(declare-const " + u.0 + " " + sort + ")\n"
    else "(declare-fun " + u.0 + " (" + UList(u.1) + ") " + sort + ")\n"
  }

  function DeclareTexts(us: seq<Use>, sort: string): string {
    if us == [] then "" else DeclareTexts(us[..|us| - 1], sort) + DeclareText(us[|us| - 1], sort)
  }

  function SkolemTexts(xs: seq<string>): string {
    if xs == [] then "" else SkolemTexts(xs[..|xs| - 1]) + DeclareText((xs[|xs| - 1], 0), "U")
  }

  function CommentTexts(cs: seq<string>): string {
    if cs == [] then "" else CommentTexts(cs[..|cs| - 1]) + ("; " + cs[|cs| - 1] + "\n")
  }

  function AssertText(s: Statement, assertion: Sexp): string {
    "; " + s.name + " (" + RoleName(s.role) + ")\n(assert " + Print(assertion) + ")\n\n"
  }

  function AssertTexts(ss: seq<Statement>, assertions: seq<Sexp>): string
    requires |ss| == |assertions|
  {
    if ss == [] then ""
    else AssertTexts(ss[..|ss| - 1], assertions[..|ss| - 1]) + AssertText(ss[|ss| - 1], assertions[|ss| - 1])
  }

  function BlankIf(b: bool): string { if b then "\n" else "" }

  predicate HasGoal(ss: seq<Statement>) {
    ss != [] && (HasGoal(ss[..|ss| - 1]) || IsGoal(ss[|ss| - 1].role))
  }

  predicate HasConjecture(p: Problem) {
    HasGoal(p.statements)
  }

  function PreambleText(p: Problem): string {
    "(set-logic UF)\n\n" + (CommentTexts(p.comments) + BlankIf(p.comments != [])) + "(declare-sort U 0)\n\n"
  }

  function DeclarationsText(s: Script): string {
    DeclareTexts(s.functions, "U") + SkolemTexts(s.skolems) + BlankIf(s.functions != [] || s.skolems != [])
    + DeclareTexts(s.predicates, "Bool") + BlankIf(s.predicates != [])
  }

  const IF_UNSAT := " If unsat, the conjecture is a theorem"
  const IF_SAT := " If sat, the conjecture has a counter-example"

  function EpilogueText(p: Problem): string {
    "(check-sat)\n"
    + (if HasConjecture(p) then (";" + IF_UNSAT + "\n") + (";" + IF_SAT + "\n") else "")
  }

  function ScriptText(p: Problem, s: Script): string
    requires |s.assertions| == |p.statements|
  {
    PreambleText(p) + DeclarationsText(s) + AssertTexts(p.statements, s.assertions) + EpilogueText(p)
  }

  // ================================================================ content

  /** us lists every used name once, at one of the arities it is used at. */
  ghost predicate DeclaresUses(us: seq<Use>, uses: set<Use>) {
    && (forall i :: 0 <= i < |us| ==> us[i] in uses)
    && (forall u :: u in uses ==> Declares(us, u.0))
    && (forall i, j :: 0 <= i < j < |us| ==> us[i].0 != us[j].0)
  }

  ghost predicate Declares(us: seq<Use>, name: string) {
    exists i :: 0 <= i < |us| && us[i].0 == name
  }

  ghost predicate Lists(xs: seq<string>, names: set<string>) {
    && (forall x :: x in xs <==> x in names)
    && (forall i, j :: 0 <= i < j < |xs| ==> xs[i] != xs[j])
  }

  /** s is the universal closure of f over its own free variables, in order. */
  ghost predicate IsClosure(f: Formula, s: Sexp) {
    exists xs :: Lists(xs, FreeVars(f)) && Ordered(xs) && s == ClosureSexp(xs, f)
  }

  function ClosureSexp(xs: seq<string>, f: Formula): Sexp {
    if xs == [] then FormulaSexp(f) else Quantified("forall", xs, FormulaSexp(f))
  }

  ghost predicate IsAssertionOf(st: Statement, s: Sexp) {
    match st.role
    case Conjecture => s == App("not", [FormulaSexp(st.formula)])
    case NegatedConjecture => s == FormulaSexp(st.formula)
    case _ => IsClosure(st.formula, s)
  }

  ghost predicate IsScriptOf(p: Problem, s: Script) {
    && DeclaresUses(s.functions, FunctionUsesOfAll(FormulasOf(p.statements)))
    && DeclaresUses(s.predicates, PredicateUsesOfAll(FormulasOf(p.statements)))
    && Lists(s.skolems, SkolemNames(p.statements))
    && |s.assertions| == |p.statements|
    && AreAssertionsOf(p.statements, s.assertions)
  }

  /** Assertion i is that of statement i. */
  ghost predicate AreAssertionsOf(ss: seq<Statement>, assertions: seq<Sexp>) {
    |ss| == |assertions|
    && (ss == []
        || (AreAssertionsOf(ss[..|ss| - 1], assertions[..|ss| - 1])
          && IsAssertionOf(ss[|ss| - 1], assertions[|ss| - 1])))
  }

  lemma {:induction false} AssertionAt(ss: seq<Statement>, assertions: seq<Sexp>, i: nat)
    requires AreAssertionsOf(ss, assertions) && i < |ss|
    ensures IsAssertionOf(ss[i], assertions[i])
  {
    if i < |ss| - 1 {
      AssertionAt(ss[..|ss| - 1], assertions[..|ss| - 1], i);
    }
  }

  // ================================================================ emission

  predicate NameLess(a: string, b: string) {
    if b == "" then false else if a == "" then true else a[0] < b[0] || (a[0] == b[0] && NameLess(a[1..], b[1..]))
  }

  lemma {:induction false} NameLessTransitive(a: string, b: string, c: string)
    requires NameLess(a, b) && NameLess(b, c)
    ensures NameLess(a, c)
  {
    if a != "" && a[0] == b[0] == c[0] {
      NameLessTransitive(a[1..], b[1..], c[1..]);
    }
  }

  lemma {:induction false} NameLessTotal(a: string, b: string)
    ensures NameLess(a, b) || a == b || NameLess(b, a)
  {
    if a != "" && b != "" && a[0] == b[0] {
      NameLessTotal(a[1..], b[1..]);
      assert a == [a[0]] + a[1..] && b == [b[0]] + b[1..];
    }
  }

  ghost predicate Ordered(xs: seq<string>) {
    forall i, j :: 0 <= i < j < |xs| ==> NameLess(xs[i], xs[j])
  }

  lemma InsertedOrdered(xs: seq<string>, x: string, i: nat)
    requires Ordered(xs) && x !in xs && i <= |xs|
    requires (i < |xs| ==> NameLess(x, xs[i])) && forall j :: 0 <= j < i ==> !NameLess(x, xs[j])
    ensures Ordered(xs[..i] + [x] + xs[i..])
  {
    forall j | 0 <= j < |xs|
      ensures if j < i then NameLess(xs[j], x) else NameLess(x, xs[j])
    {
      NameLessTotal(xs[j], x);
      if j > i {
        NameLessTransitive(x, xs[i], xs[j]);
      }
    }
  }

  /** Insert x before the first greater name. */
  method InsertSorted(xs: seq<string>, x: string) returns (ys: seq<string>, ghost i: nat)
    ensures i <= |xs| && ys == xs[..i] + [x] + xs[i..]
    ensures (i < |xs| ==> NameLess(x, xs[i])) && forall j :: 0 <= j < i ==> !NameLess(x, xs[j])
  {
    var k := 0;
    while k < |xs| && !NameLess(x, xs[k])
      invariant k <= |xs| && forall j :: 0 <= j < k ==> !NameLess(x, xs[j])
    {
      k := k + 1;
    }
    ys, i := xs[..k] + [x] + xs[k..], k;
  }

  /** The names of a set in order. */
  method SortedNames(names: set<string>) returns (xs: seq<string>)
    ensures Lists(xs, names) && Ordered(xs)
  {
    xs := [];
    var left := names;
    while left != {}
      invariant left <= names && Lists(xs, names - left) && Ordered(xs)
    {
      var x :| x in left;
      ghost var shorter, i := xs, 0;
      xs, i := InsertSorted(xs, x);
      InsertedListed(shorter, x, i, names - left);
      InsertedOrdered(shorter, x, i);
      left := left - {x};
      assert names - left == (names - (left + {x})) + {x};
    }
  }

  lemma InsertedListed(xs: seq<string>, x: string, i: nat, names: set<string>)
    requires i <= |xs| && Lists(xs, names) && x !in names
    ensures Lists(xs[..i] + [x] + xs[i..], names + {x})
  {
    var ys := xs[..i] + [x] + xs[i..];
    forall y
      ensures y in ys <==> y in names + {x}
    {
      if y in xs {
        var k :| 0 <= k < |xs| && xs[k] == y;
        assert ys[if k < i then k else k + 1] == y;
      }
      assert ys[i] == x;
    }
  }

  method ClosedText(f: Formula) returns (text: string, ghost closure: Sexp)
    ensures text == Print(closure) && IsClosure(f, closure)
  {
    var names := FreeVariables(f);
    var body := FormulaToSmtlib2(f);
    var free := SortedNames(names);
    closure := ClosureSexp(free, f);
    if free == [] {
      return body, closure;
    }
    var bindings := BindingTexts(free);
    text := "(forall (" + bindings + ") " + body + ")";
    ForallText(free, FormulaSexp(f));
  }

  lemma ForallText(vars: seq<string>, body: Sexp)
    ensures Print(Quantified("forall", vars, body))
         == "(forall (" + PrintAll(Binders(vars)) + ") " + Print(body) + ")"
  {
    QuantifiedText("forall", vars, body);
    ForallRegroup(PrintAll(Binders(vars)), Print(body));
  }

  lemma ForallRegroup(binders: string, body: string)
    ensures ("(" + "forall" + " (" + binders + ") ") + (body + ")") == "(forall (" + binders + ") " + body + ")"
  {
  }

  /** Emit one declaration per entry of a symbol table, in the order the table is iterated. */
  method EmitDeclarations(table: map<string, nat>, sort: string, ghost uses: set<Use>)
    returns (text: string, ghost order: seq<Use>)
    requires Records(table, uses)
    ensures text == DeclareTexts(order, sort) && DeclaresUses(order, uses)
  {
    text, order := "", [];
    var left := table.Keys;
    while left != {}
      invariant text == DeclareTexts(order, sort) && DeclaredSoFar(table, left, order)
    {
      var name :| name in left;
      text := text + DeclareText((name, table[name]), sort);
      assert (order + [(name, table[name])])[..|order|] == order;
      DeclaredMore(table, left, order, name);
      order := order + [(name, table[name])];
      left := left - {name};
    }
    AllTableDeclared(table, uses, order);
  }

  /** The entries outside left, once each. */
  ghost predicate DeclaredSoFar(table: map<string, nat>, left: set<string>, order: seq<Use>) {
    && left <= table.Keys
    && (forall i :: 0 <= i < |order| ==> order[i].0 in table && order[i].0 !in left && order[i].1 == table[order[i].0])
    && (forall i, j :: 0 <= i < j < |order| ==> order[i].0 != order[j].0)
    && (forall n :: n in table && n !in left ==> (n, table[n]) in order)
  }

  lemma DeclaredMore(table: map<string, nat>, left: set<string>, order: seq<Use>, name: string)
    requires DeclaredSoFar(table, left, order) && name in left
    ensures DeclaredSoFar(table, left - {name}, order + [(name, table[name])])
  {
    var more := order + [(name, table[name])];
    assert forall u :: u in order ==> u in more;
    assert more[|order|] == (name, table[name]);
  }

  lemma AllTableDeclared(table: map<string, nat>, uses: set<Use>, order: seq<Use>)
    requires Records(table, uses) && DeclaredSoFar(table, {}, order)
    ensures DeclaresUses(order, uses)
  {
    forall u | u in uses
      ensures Declares(order, u.0)
    {
      var i :| 0 <= i < |order| && order[i] == (u.0, table[u.0]);
    }
  }

  method EmitSkolems(names: set<string>) returns (text: string, ghost order: seq<string>)
    ensures text == SkolemTexts(order) && Lists(order, names)
  {
    text, order := "", [];
    var left := names;
    while left != {}
      invariant left <= names && text == SkolemTexts(order)
      invariant forall i :: 0 <= i < |order| ==> order[i] in names && order[i] !in left
      invariant forall i, j :: 0 <= i < j < |order| ==> order[i] != order[j]
      invariant forall x :: x in names && x !in left ==> x in order
    {
      var name :| name in left;
      text := text + DeclareText((name, 0), "U");
      assert (order + [name])[..|order|] == order;
      order := order + [name];
      left := left - {name};
    }
  }

  lemma EmptyTable(table: map<string, nat>, uses: set<Use>, order: seq<Use>)
    requires Records(table, uses) && DeclaresUses(order, uses)
    ensures table == map[] <==> order == []
  {
    if order != [] {
      assert order[0] in uses;
    }
    if n :| n in table {
      assert Declares(order, (n, table[n]).0);
    }
  }

  lemma EmptyNames(names: set<string>, order: seq<string>)
    requires Lists(order, names)
    ensures names == {} <==> order == []
  {
    assert order != [] ==> order[0] in names;
  }

  lemma PrefixUses(ss: seq<Statement>, i: nat)
    requires i < |ss|
    ensures PredicateUsesOfAll(FormulasOf(ss[..i + 1]))
         == PredicateUsesOfAll(FormulasOf(ss[..i])) + PredicateUses(ss[i].formula)
    ensures FunctionUsesOfAll(FormulasOf(ss[..i + 1]))
         == FunctionUsesOfAll(FormulasOf(ss[..i])) + FunctionUses(ss[i].formula)
    ensures SkolemNames(ss[..i + 1])
         == SkolemNames(ss[..i]) + (if IsGoal(ss[i].role) then FreeVars(ss[i].formula) else {})
  {
    FormulasPop(FormulasOf(ss[..i + 1]));
    assert FormulasOf(ss[..i + 1])[..i] == FormulasOf(ss[..i]);
    assert ss[..i + 1][..i] == ss[..i];
  }

  method CollectSymbols(p: Problem)
    returns (predicates: map<string, nat>, functions: map<string, nat>, skolems: set<string>)
    ensures Records(predicates, PredicateUsesOfAll(FormulasOf(p.statements)))
    ensures Records(functions, FunctionUsesOfAll(FormulasOf(p.statements)))
    ensures skolems == SkolemNames(p.statements)
  {
    predicates, functions, skolems := map[], map[], {};
    for i := 0 to |p.statements|
      invariant Records(predicates, PredicateUsesOfAll(FormulasOf(p.statements[..i])))
      invariant Records(functions, FunctionUsesOfAll(FormulasOf(p.statements[..i])))
      invariant skolems == SkolemNames(p.statements[..i])
    {
      var stmt := p.statements[i];
      PrefixUses(p.statements, i);
      predicates := CollectPredicates(stmt.formula, predicates, PredicateUsesOfAll(FormulasOf(p.statements[..i])));
      functions := CollectFunctions(stmt.formula, functions, FunctionUsesOfAll(FormulasOf(p.statements[..i])));
      if IsGoal(stmt.role) {
        var free := FreeVariables(stmt.formula);
        skolems := skolems + free;
      }
    }
    assert p.statements[..|p.statements|] == p.statements;
  }

  method AssertionText(st: Statement) returns (text: string, ghost assertion: Sexp)
    ensures IsAssertionOf(st, assertion) && text == AssertText(st, assertion)
  {
    var formulaText: string;
    ghost var body: Sexp;
    if IsGoal(st.role) {
      formulaText := FormulaToSmtlib2(st.formula);
      body := FormulaSexp(st.formula);
    } else {
      formulaText, body := ClosedText(st.formula);
    }
    if st.role == Conjecture {
      NotText(body);
      assertion := App("not", [body]);
      text := "; " + st.name + " (" + RoleName(st.role) + ")\n(assert (not " + formulaText + "))\n\n";
    } else {
      assertion := body;
      text := "; " + st.name + " (" + RoleName(st.role) + ")\n(assert " + formulaText + ")\n\n";
    }
  }

  lemma AssertionsStep(ss: seq<Statement>, i: nat, assertions: seq<Sexp>, a: Sexp)
    requires i < |ss| && |assertions| == i && AreAssertionsOf(ss[..i], assertions) && IsAssertionOf(ss[i], a)
    ensures AreAssertionsOf(ss[..i + 1], assertions + [a])
    ensures AssertTexts(ss[..i + 1], assertions + [a]) == AssertTexts(ss[..i], assertions) + AssertText(ss[i], a)
  {
    assert ss[..i + 1][..i] == ss[..i] && (assertions + [a])[..i] == assertions;
  }

  /** One turn of the assertion loop. */
  method AppendAssertion(ss: seq<Statement>, i: nat, textIn: string, ghost assertionsIn: seq<Sexp>)
    returns (text: string, ghost assertions: seq<Sexp>)
    requires i < |ss| && AreAssertionsOf(ss[..i], assertionsIn) && textIn == AssertTexts(ss[..i], assertionsIn)
    ensures AreAssertionsOf(ss[..i + 1], assertions) && text == AssertTexts(ss[..i + 1], assertions)
  {
    ghost var assertion: Sexp;
    text, assertion := AssertionText(ss[i]);
    AssertionsStep(ss, i, assertionsIn, assertion);
    text := textIn + text;
    assertions := assertionsIn + [assertion];
  }

  lemma GoalStep(ss: seq<Statement>, i: nat)
    requires i < |ss|
    ensures HasGoal(ss[..i + 1]) == (HasGoal(ss[..i]) || IsGoal(ss[i].role))
  {
    assert ss[..i + 1][..i] == ss[..i];
  }

  method EmitAssertions(p: Problem) returns (text: string, hasConjecture: bool, ghost assertions: seq<Sexp>)
    ensures AreAssertionsOf(p.statements, assertions) && text == AssertTexts(p.statements, assertions)
    ensures hasConjecture == HasConjecture(p)
  {
    text, hasConjecture, assertions := "", false, [];
    for i := 0 to |p.statements|
      invariant AreAssertionsOf(p.statements[..i], assertions) && text == AssertTexts(p.statements[..i], assertions)
      invariant hasConjecture == HasGoal(p.statements[..i])
    {
      GoalStep(p.statements, i);
      text, assertions := AppendAssertion(p.statements, i, text, assertions);
      if IsGoal(p.statements[i].role) {
        hasConjecture := true;
      }
    }
    assert p.statements[..|p.statements|] == p.statements;
  }

  method EmitComments(cs: seq<string>) returns (text: string)
    ensures text == CommentTexts(cs) + BlankIf(cs != [])
  {
    text := "";
    for i := 0 to |cs|
      invariant text == CommentTexts(cs[..i])
    {
      assert cs[..i + 1][..i] == cs[..i];
      text := text + ("; " + cs[i] + "\n");
    }
    assert cs[..|cs|] == cs;
    if cs != [] {
      text := text + "\n";
    }
  }

  method EmitAllDeclarations(p: Problem, ghost assertions: seq<Sexp>) returns (text: string, ghost script: Script)
    ensures DeclaresUses(script.functions, FunctionUsesOfAll(FormulasOf(p.statements)))
    ensures DeclaresUses(script.predicates, PredicateUsesOfAll(FormulasOf(p.statements)))
    ensures Lists(script.skolems, SkolemNames(p.statements)) && script.assertions == assertions
    ensures text == DeclarationsText(script)
  {
    var predicates, functions, skolemVars := CollectSymbols(p);
    ghost var fnOrder: seq<Use>, skOrder: seq<string>, prOrder: seq<Use>;
    var fnText: string, skText: string, prText: string;
    fnText, fnOrder := EmitDeclarations(functions, "U", FunctionUsesOfAll(FormulasOf(p.statements)));
    skText, skOrder := EmitSkolems(skolemVars);
    prText, prOrder := EmitDeclarations(predicates, "Bool", PredicateUsesOfAll(FormulasOf(p.statements)));
    text := fnText + skText;
    EmptyTable(functions, FunctionUsesOfAll(FormulasOf(p.statements)), fnOrder);
    EmptyTable(predicates, PredicateUsesOfAll(FormulasOf(p.statements)), prOrder);
    EmptyNames(skolemVars, skOrder);
    if functions != map[] || skolemVars != {} {
      text := text + "\n";
    }
    text := text + prText;
    if predicates != map[] {
      text := text + "\n";
    }
    script := Script(fnOrder, skOrder, prOrder, assertions);
  }

  method EmitPreamble(p: Problem) returns (text: string)
    ensures text == PreambleText(p)
  {
    var commentText := EmitComments(p.comments);
    text := "(set-logic UF)\n\n" + commentText + "(declare-sort U 0)\n\n";
  }

  method EmitEpilogue(p: Problem, hasConjecture: bool) returns (text: string)
    requires hasConjecture == HasConjecture(p)
    ensures text == EpilogueText(p)
  {
    text := "(check-sat)\n";
    if hasConjecture {
      text := text + ((";" + IF_UNSAT + "\n") + (";" + IF_SAT + "\n"));
    }
  }

  /** The text of some script of the problem: names may be declared in any order. */
  ghost predicate IsTextFor(p: Problem, text: string) {
    exists script :: IsScriptOf(p, script) && text == ScriptText(p, script)
  }

  method ToSmtlib2(p: Problem) returns (output: string)
    ensures IsTextFor(p, output)
  {
    ghost var assertions: seq<Sexp>, script: Script;
    var assertText: string, hasConjecture: bool, declarations: string;
    var preamble := EmitPreamble(p);
    assertText, hasConjecture, assertions := EmitAssertions(p);
    declarations, script := EmitAllDeclarations(p, assertions);
    var epilogue := EmitEpilogue(p, hasConjecture);
    output := preamble + declarations + assertText + epilogue;
    assert IsScriptOf(p, script) && output == ScriptText(p, script);
  }
}
