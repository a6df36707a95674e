/** From CNF and QBF to SMT-LIB scripts (dimacs.rs:173-215, 511-598): the S-expressions, and the
    methods that emit their text. */
module DimacsSmt {
  import opened RustText
  import opened SmtLib
  import opened Dimacs

  // ================================================================ S-expressions

  /** i32 negation, wrapping at the least value. */
  function Negated32(literal: int): int {
    if literal == -I32_BOUND then literal else -literal
  }

  function VarName(i: int): string { "v" + FormatInt(i) }

  function LiteralSexp(literal: int): Sexp {
    if literal > 0 then Sym(VarName(literal)) else App("not", [Sym(VarName(Negated32(literal)))])
  }

  function SexpsOf<T>(sexp: T -> Sexp, xs: seq<T>): (ss: seq<Sexp>)
    ensures |ss| == |xs| && forall i :: 0 <= i < |ss| ==> ss[i] == sexp(xs[i])
  {
    if xs == [] then [] else SexpsOf(sexp, xs[..|xs| - 1]) + [sexp(xs[|xs| - 1])]
  }

  function LiteralSexps(clause: seq<int>): seq<Sexp> { SexpsOf(LiteralSexp, clause) }

  function ClauseSexp(clause: seq<int>): Sexp {
    if clause == [] then Sym("false")
    else if |clause| == 1 then LiteralSexp(clause[0])
    else App("or", LiteralSexps(clause))
  }

  function ClauseSexps(clauses: seq<seq<int>>): seq<Sexp> { SexpsOf(ClauseSexp, clauses) }

  function MatrixSexp(clauses: seq<seq<int>>): Sexp {
    if clauses == [] then Sym("true")
    else if |clauses| == 1 then ClauseSexp(clauses[0])
    else App("and", ClauseSexps(clauses))
  }

  function BinderSexp(v: nat): Sexp { List([Sym(VarName(v)), Sym("Bool")]) }

  function BinderSexps(vs: seq<nat>): seq<Sexp> { SexpsOf(BinderSexp, vs) }

  function Quantifier(universal: bool): string { if universal then "forall" else "exists" }

  function BlockSexp(block: Block, body: Sexp): Sexp {
    List([Sym(Quantifier(block.universal)), List(BinderSexps(block.variables)), body])
  }

  /** The blocks around the matrix, the first one outermost. */
  function FormulaSexp(blocks: seq<Block>, matrix: Sexp): Sexp {
    if blocks == [] then matrix else BlockSexp(blocks[0], FormulaSexp(blocks[1..], matrix))
  }

  // ================================================================ texts

  function DeclareLine(i: nat): string { "(declare-const " + VarName(i) + " Bool)\n" }

  /** v1 to vn. */
  function DeclareLines(n: nat): string {
    if n == 0 then "" else DeclareLines(n - 1) + DeclareLine(n)
  }

  function AssertLine(s: Sexp): string { "(assert " + Print(s) + ")\n" }

  function AssertLines(ss: seq<Sexp>): string {
    if ss == [] then "" else AssertLines(ss[..|ss| - 1]) + AssertLine(ss[|ss| - 1])
  }

  function CnfScript(x: Cnf): string {
    "(set-logic QF_UF)\n" + DeclareLines(x.numVars) + AssertLines(ClauseSexps(x.clauses)) + "(check-sat)\n"
  }

  function CommentBlock(comments: seq<string>): string {
    if comments == [] then "" else CommentBlock(comments[..|comments| - 1]) + ("; " + comments[|comments| - 1] + "\n")
  }

  function QCnfScript(x: QCnf): string {
    "(set-logic UF)\n\n" + (CommentBlock(x.comments) + (if x.comments == [] then "" else "\n"))
    + (DeclareLines(x.numVars) + "\n")
    + (AssertLine(FormulaSexp(x.blocks, MatrixSexp(x.clauses))) + "\n") + "(check-sat)\n"
  }

  // ================================================================ the serializers

  lemma PrintNot(s: Sexp)
    ensures Print(App("not", [s])) == "(not " + Print(s) + ")"
  {
    PrintApp("not", [s]);
    assert PrintTail([s][1..]) == "";
    assert "(" + "not" + (" " + Print(s) + "") + ")" == "(not " + Print(s) + ")";
  }

  method LiteralText(literal: int) returns (text: string)
    ensures text == Print(LiteralSexp(literal))
  {
    if literal > 0 {
      text := "v" + FormatInt(literal);
    } else {
      PrintNot(Sym(VarName(Negated32(literal))));
      text := "(not " + ("v" + FormatInt(Negated32(literal))) + ")";
    }
  }

  lemma PrintTailMore(ss: seq<Sexp>, s: Sexp)
    ensures PrintTail(ss + [s]) == PrintTail(ss) + " " + Print(s)
  {
    PrintTailAppend(ss, [s]);
    assert PrintTail([s][1..]) == "";
    assert PrintTail([s]) == " " + Print(s);
    assert PrintTail(ss) + (" " + Print(s)) == PrintTail(ss) + " " + Print(s);
  }

  lemma {:induction false} PrintTailAppend(a: seq<Sexp>, b: seq<Sexp>)
    ensures PrintTail(a + b) == PrintTail(a) + PrintTail(b)
    decreases |a|
  {
    if a == [] {
      assert a + b == b;
    } else {
      assert (a + b)[1..] == a[1..] + b;
      PrintTailAppend(a[1..], b);
      assert " " + Print(a[0]) + (PrintTail(a[1..]) + PrintTail(b))
        == " " + Print(a[0]) + PrintTail(a[1..]) + PrintTail(b);
    }
  }

  /** The arguments of a clause, each after a blank. */
  method LiteralsText(clause: seq<int>) returns (text: string)
    ensures text == PrintTail(LiteralSexps(clause))
  {
    text := "";
    for i := 0 to |clause|
      invariant text == PrintTail(LiteralSexps(clause[..i]))
    {
      assert clause[..i + 1][..i] == clause[..i];
      PrintTailMore(LiteralSexps(clause[..i]), LiteralSexp(clause[i]));
      var literal := LiteralText(clause[i]);
      text := text + " " + literal;
    }
    assert clause[..|clause|] == clause;
  }

  method ClauseText(clause: seq<int>) returns (text: string)
    ensures text == Print(ClauseSexp(clause))
  {
    if clause == [] {
      text := "false";
    } else if |clause| == 1 {
      text := LiteralText(clause[0]);
    } else {
      var literals := LiteralsText(clause);
      PrintApp("or", LiteralSexps(clause));
      text := "(" + "or" + literals + ")";
    }
  }

  method DeclareAll(n: nat) returns (text: string)
    ensures text == DeclareLines(n)
  {
    text := "";
    for i := 0 to n
      invariant text == DeclareLines(i)
    {
      text := text + DeclareLine(i + 1);
    }
  }

  method ToSmtlib2(x: Cnf) returns (text: string)
    ensures text == CnfScript(x)
  {
    var declarations := DeclareAll(x.numVars);
    text := "(set-logic QF_UF)\n" + declarations;
    ghost var preamble := text;
    for i := 0 to |x.clauses|
      invariant text == preamble + AssertLines(ClauseSexps(x.clauses[..i]))
    {
      assert x.clauses[..i + 1][..i] == x.clauses[..i];
      ghost var before := ClauseSexps(x.clauses[..i]);
      var clause := ClauseText(x.clauses[i]);
      AssertMore(before, ClauseSexp(x.clauses[i]));
      Grouped(preamble, AssertLines(before), "(assert " + clause + ")\n");
      text := text + ("(assert " + clause + ")\n");
    }
    assert x.clauses[..|x.clauses|] == x.clauses;
    text := text + "(check-sat)\n";
  }

  lemma AssertMore(ss: seq<Sexp>, s: Sexp)
    ensures AssertLines(ss + [s]) == AssertLines(ss) + AssertLine(s)
  {
    assert (ss + [s])[..|ss|] == ss;
  }

  lemma Grouped(a: string, b: string, c: string)
    ensures a + b + c == a + (b + c)
  {
  }

  method MatrixText(clauses: seq<seq<int>>) returns (text: string)
    ensures text == Print(MatrixSexp(clauses))
  {
    if clauses == [] {
      return "true";
    }
    var parts: seq<string> := [];
    for i := 0 to |clauses|
      invariant |parts| == i && forall k :: 0 <= k < i ==> parts[k] == Print(ClauseSexp(clauses[k]))
    {
      var part := ClauseText(clauses[i]);
      parts := parts + [part];
    }
    if |clauses| == 1 {
      return parts[0];
    }
    JoinPrints(ClauseSexps(clauses), parts);
    PrintTailNonempty(ClauseSexps(clauses));
    PrintApp("and", ClauseSexps(clauses));
    text := "(" + "and" + (" " + Join(parts, " ")) + ")";
  }

  lemma PrintBinder(v: nat)
    ensures Print(BinderSexp(v)) == "(" + VarName(v) + " Bool)"
  {
    var items := [Sym(VarName(v)), Sym("Bool")];
    assert items[1..] == [Sym("Bool")] && PrintAll([Sym("Bool")]) == Print(Sym("Bool"));
    assert PrintAll(items) == Print(items[0]) + " " + PrintAll(items[1..]);
    assert PrintAll(items) == VarName(v) + " " + "Bool";
    assert "(" + (VarName(v) + " " + "Bool") + ")" == "(" + VarName(v) + " Bool)";
  }

  lemma PrintBlock(block: Block, body: Sexp)
    ensures Print(BlockSexp(block, body))
         == "(" + Quantifier(block.universal) + " (" + PrintAll(BinderSexps(block.variables)) + ") " + Print(body) + ")"
  {
    var q, binders := Sym(Quantifier(block.universal)), List(BinderSexps(block.variables));
    var items := [q, binders, body];
    assert items[1..] == [binders, body] && [binders, body][1..] == [body] && PrintAll([body]) == Print(body);
    assert PrintAll([binders, body]) == Print(binders) + " " + PrintAll([binders, body][1..]);
    assert PrintAll(items) == Print(items[0]) + " " + PrintAll(items[1..]);
    assert PrintAll(items) == Print(q) + " " + (Print(binders) + " " + Print(body));
    Parenthesized(Print(q), PrintAll(BinderSexps(block.variables)), Print(body));
  }

  lemma Parenthesized(q: string, binders: string, body: string)
    ensures "(" + (q + " " + ("(" + binders + ")" + " " + body)) + ")" == "(" + q + " (" + binders + ") " + body + ")"
  {
  }

  method BlockText(block: Block, body: string, ghost s: Sexp) returns (text: string)
    requires body == Print(s)
    ensures text == Print(BlockSexp(block, s))
  {
    var parts: seq<string> := [];
    for i := 0 to |block.variables|
      invariant |parts| == i && forall k :: 0 <= k < i ==> parts[k] == Print(BinderSexp(block.variables[k]))
    {
      PrintBinder(block.variables[i]);
      parts := parts + ["(" + ("v" + FormatInt(block.variables[i])) + " Bool)"];
    }
    JoinPrints(BinderSexps(block.variables), parts);
    PrintBlock(block, s);
    text := "(" + Quantifier(block.universal) + " (" + Join(parts, " ") + ") " + body + ")";
  }

  method CommentsText(comments: seq<string>) returns (text: string)
    ensures text == CommentBlock(comments) + (if comments == [] then "" else "\n")
  {
    text := "";
    for i := 0 to |comments|
      invariant text == CommentBlock(comments[..i])
    {
      assert comments[..i + 1][..i] == comments[..i];
      text := text + ("; " + comments[i] + "\n");
    }
    assert comments[..|comments|] == comments;
    if comments != [] {
      text := text + "\n";
    }
  }

  /** Wraps the blocks around the matrix, the last one first. */
  method FormulaText(x: QCnf) returns (text: string)
    ensures text == Print(FormulaSexp(x.blocks, MatrixSexp(x.clauses)))
  {
    text := MatrixText(x.clauses);
    ghost var matrix := MatrixSexp(x.clauses);
    var i := |x.blocks|;
    while i > 0
      invariant 0 <= i <= |x.blocks| && text == Print(FormulaSexp(x.blocks[i..], matrix))
    {
      i := i - 1;
      assert x.blocks[i..][1..] == x.blocks[i + 1..];
      text := BlockText(x.blocks[i], text, FormulaSexp(x.blocks[i + 1..], matrix));
    }
    assert x.blocks[0..] == x.blocks;
  }

  method QToSmtlib2(x: QCnf) returns (text: string)
    ensures text == QCnfScript(x)
  {
    var comments := CommentsText(x.comments);
    var declarations := DeclareAll(x.numVars);
    var formula := FormulaText(x);
    text := "(set-logic UF)\n\n" + comments + (declarations + "\n") + ("(assert " + formula + ")\n" + "\n")
      + "(check-sat)\n";
  }
}
