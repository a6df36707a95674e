/** TPTP formulas as SMT-LIB S-expressions, and the iterative serializers (tptp.rs), which emit
    exactly the text of those S-expressions. */
module TptpSmt {
  import opened TptpSyntax
  import opened SmtLib

  // ================================================================ the recursive printer

  function TermSexp(t: Term): Sexp {
    match t
    case Variable(x) => Sym(x)
    case Constant(c) => Sym(c)
    case Function(f, args) => if args == [] then Sym(f) else App(f, TermSexps(args))
  }

  function TermSexps(ts: seq<Term>): (s: seq<Sexp>)
    ensures |s| == |ts|
    ensures forall i :: 0 <= i < |ts| ==> s[i] == TermSexp(ts[i])
  {
    if ts == [] then [] else [TermSexp(ts[0])] + TermSexps(ts[1..])
  }

  /** "(X U)" */
  function Binder(x: string): Sexp {
    List([Sym(x), Sym("U")])
  }

  function Binders(vars: seq<string>): (s: seq<Sexp>)
    ensures |s| == |vars|
    ensures forall i :: 0 <= i < |vars| ==> s[i] == Binder(vars[i])
  {
    seq(|vars|, i requires 0 <= i < |vars| => Binder(vars[i]))
  }

  function Quantified(head: string, vars: seq<string>, body: Sexp): Sexp {
    List([Sym(head), List(Binders(vars)), body])
  }

  /** An n-ary connective: its unit for no operands, the operand itself for one. */
  function Connective(head: string, unit: string, operands: seq<Sexp>): Sexp {
    if |operands| == 0 then Sym(unit) else if |operands| == 1 then operands[0] else App(head, operands)
  }

  function FormulaSexp(f: Formula): Sexp {
    match f
    case Atom(p, args) => if args == [] then Sym(p) else App(p, TermSexps(args))
    case Equality(a, b) => App("=", [TermSexp(a), TermSexp(b)])
    case Inequality(a, b) => App("not", [App("=", [TermSexp(a), TermSexp(b)])])
    case Not(g) => App("not", [FormulaSexp(g)])
    case And(fs) => Connective("and", "true", FormulaSexps(fs))
    case Or(fs) => Connective("or", "false", FormulaSexps(fs))
    case Implies(g, h) => App("=>", [FormulaSexp(g), FormulaSexp(h)])
    case Iff(g, h) => App("=", [FormulaSexp(g), FormulaSexp(h)])
    case Forall(vars, g) => Quantified("forall", vars, FormulaSexp(g))
    case Exists(vars, g) => Quantified("exists", vars, FormulaSexp(g))
    case True => Sym("true")
    case False => Sym("false")
  }

  function FormulaSexps(fs: seq<Formula>): (s: seq<Sexp>)
    ensures |s| == |fs|
    ensures forall i :: 0 <= i < |fs| ==> s[i] == FormulaSexp(fs[i])
  {
    if fs == [] then [] else [FormulaSexp(fs[0])] + FormulaSexps(fs[1..])
  }

  // ================================================================ the term serializer

  datatype TermEmit = EmitTerm(term: Term) | EmitText(text: string)

  function TermTaskText(task: TermEmit): string {
    match task
    case EmitTerm(t) => Print(TermSexp(t))
    case EmitText(text) => text
  }

  /** The text a stack of tasks still stands for, top first. */
  function TermStackText(stack: seq<TermEmit>): string {
    if stack == [] then "" else TermTaskText(stack[|stack| - 1]) + TermStackText(stack[..|stack| - 1])
  }

  function TermStackWeight(stack: seq<TermEmit>): nat {
    if stack == [] then 0
    else
      (match stack[|stack| - 1] case EmitTerm(t) => 3 * TermSize(t) - 1 case EmitText(_) => 1)
      + TermStackWeight(stack[..|stack| - 1])
  }

  lemma PushTerm(stack: seq<TermEmit>, task: TermEmit)
    ensures TermStackText(stack + [task]) == TermTaskText(task) + TermStackText(stack)
    ensures TermStackWeight(stack + [task])
            == TermStackWeight(stack) + (match task case EmitTerm(t) => 3 * TermSize(t) - 1 case EmitText(_) => 1)
  {
    assert (stack + [task])[..|stack|] == stack;
  }

  /** Push the arguments last to first, each below the blank that precedes it. */
  method PushArguments(stackIn: seq<TermEmit>, args: seq<Term>) returns (stack: seq<TermEmit>)
    ensures TermStackText(stack) == PrintTail(TermSexps(args)) + TermStackText(stackIn)
    ensures TermStackWeight(stack) == 3 * TermsSize(args) + TermStackWeight(stackIn)
  {
    stack := stackIn;
    assert args[|args|..] == [];
    for i := |args| downto 0
      invariant TermStackText(stack) == PrintTail(TermSexps(args[i..])) + TermStackText(stackIn)
      invariant TermStackWeight(stack) == 3 * TermsSize(args[i..]) + TermStackWeight(stackIn)
    {
      PushTerm(stack, EmitTerm(args[i]));
      PushTerm(stack + [EmitTerm(args[i])], EmitText(" "));
      assert args[i..][0] == args[i] && args[i..][1..] == args[i + 1..];
      assert TermSexps(args[i..])[1..] == TermSexps(args[i + 1..]);
      stack := stack + [EmitTerm(args[i])] + [EmitText(" ")];
    }
    assert args[0..] == args;
  }

  lemma EmitApp(out: string, name: string, tail: string, rest: string)
    ensures out + (("(" + name + tail + ")") + rest) == (out + "(" + name) + (tail + (")" + rest))
  {
    assert ("(" + name + tail + ")") + rest == ("(" + name) + (tail + (")" + rest));
    assert out + (("(" + name) + (tail + (")" + rest))) == (out + ("(" + name)) + (tail + (")" + rest));
    assert out + ("(" + name) == out + "(" + name;
  }

  /** One turn of the loop below. */
  method EmitTermTask(task: TermEmit, stackIn: seq<TermEmit>, outIn: string) returns (stack: seq<TermEmit>, out: string)
    ensures out + TermStackText(stack) == outIn + (TermTaskText(task) + TermStackText(stackIn))
    ensures TermStackWeight(stack) < TermStackWeight(stackIn + [task])
  {
    PushTerm(stackIn, task);
    stack, out := stackIn, outIn;
    match task
    case EmitText(text) => out := out + text;
    case EmitTerm(Variable(name)) => out := out + name;
    case EmitTerm(Constant(name)) => out := out + name;
    case EmitTerm(Function(name, args)) =>
      if args == [] {
        out := out + name;
      } else {
        PrintApp(name, TermSexps(args));
        EmitApp(out, name, PrintTail(TermSexps(args)), TermStackText(stack));
        PushTerm(stack, EmitText(")"));
        out := out + "(" + name;
        stack := PushArguments(stack + [EmitText(")")], args);
      }
  }

  method TermToSmtlib2(self: Term) returns (out: string)
    ensures out == Print(TermSexp(self))
  {
    out := "";
    var stack := [EmitTerm(self)];
    PushTerm([], EmitTerm(self));
    assert [] + [EmitTerm(self)] == stack;
    while stack != []
      invariant out + TermStackText(stack) == Print(TermSexp(self))
      decreases TermStackWeight(stack)
    {
      var task, rest := stack[|stack| - 1], stack[..|stack| - 1];
      assert stack == rest + [task];
      stack, out := EmitTermTask(task, rest, out);
    }
  }

  // ================================================================ the formula serializer

  datatype FormulaEmit = Emit(formula: Formula) | Text(text: string)

  function TaskText(task: FormulaEmit): string {
    match task
    case Emit(f) => Print(FormulaSexp(f))
    case Text(text) => text
  }

  function StackText(stack: seq<FormulaEmit>): string {
    if stack == [] then "" else TaskText(stack[|stack| - 1]) + StackText(stack[..|stack| - 1])
  }

  function TaskWeight(task: FormulaEmit): nat {
    match task
    case Emit(f) => 3 * FormulaSize(f) - 1
    case Text(_) => 1
  }

  function StackWeight(stack: seq<FormulaEmit>): nat {
    if stack == [] then 0 else TaskWeight(stack[|stack| - 1]) + StackWeight(stack[..|stack| - 1])
  }

  lemma PushTask(stack: seq<FormulaEmit>, task: FormulaEmit)
    ensures StackText(stack + [task]) == TaskText(task) + StackText(stack)
    ensures StackWeight(stack + [task]) == TaskWeight(task) + StackWeight(stack)
  {
    assert (stack + [task])[..|stack|] == stack;
  }

  method PushOperands(stackIn: seq<FormulaEmit>, fs: seq<Formula>) returns (stack: seq<FormulaEmit>)
    ensures StackText(stack) == PrintTail(FormulaSexps(fs)) + StackText(stackIn)
    ensures StackWeight(stack) == 3 * FormulasSize(fs) + StackWeight(stackIn)
  {
    stack := stackIn;
    assert fs[|fs|..] == [];
    for i := |fs| downto 0
      invariant StackText(stack) == PrintTail(FormulaSexps(fs[i..])) + StackText(stackIn)
      invariant StackWeight(stack) == 3 * FormulasSize(fs[i..]) + StackWeight(stackIn)
    {
      PushTask(stack, Emit(fs[i]));
      PushTask(stack + [Emit(fs[i])], Text(" "));
      assert fs[i..][0] == fs[i] && fs[i..][1..] == fs[i + 1..];
      assert FormulaSexps(fs[i..])[1..] == FormulaSexps(fs[i + 1..]);
      stack := stack + [Emit(fs[i])] + [Text(" ")];
    }
    assert fs[0..] == fs;
  }

  /** The arguments' texts joined by blanks. */
  method TermTexts(args: seq<Term>) returns (text: string)
    ensures text == PrintAll(TermSexps(args))
  {
    var parts := [];
    ghost var sexps := TermSexps(args);
    for i := 0 to |args|
      invariant |parts| == i
      invariant forall j :: 0 <= j < i ==> parts[j] == Print(sexps[j])
    {
      var part := TermToSmtlib2(args[i]);
      parts := parts + [part];
    }
    JoinPrints(sexps, parts);
    text := Join(parts, " ");
  }

  /** The texts of the bindings "(X U) (Y U)" joined by blanks. */
  method BindingTexts(vars: seq<string>) returns (text: string)
    ensures text == PrintAll(Binders(vars))
  {
    var parts := [];
    for i := 0 to |vars|
      invariant |parts| == i
      invariant forall j :: 0 <= j < i ==> parts[j] == Print(Binders(vars)[j])
    {
      BinderText(vars[i]);
      parts := parts + ["(" + vars[i] + " U)"];
    }
    JoinPrints(Binders(vars), parts);
    text := Join(parts, " ");
  }

  lemma BinderText(x: string)
    ensures Print(Binder(x)) == "(" + x + " U)"
  {
    assert PrintAll([Sym(x), Sym("U")]) == x + " " + PrintAll([Sym("U")]);
  }

  lemma QuantifiedText(head: string, vars: seq<string>, body: Sexp)
    ensures Print(Quantified(head, vars, body))
         == ("(" + head + " (" + PrintAll(Binders(vars)) + ") ") + (Print(body) + ")")
  {
    var binders := List(Binders(vars));
    var items := [Sym(head), binders, body];
    assert items[1..] == [binders, body] && [binders, body][1..] == [body];
    assert PrintAll([binders, body]) == Print(binders) + " " + Print(body);
    assert PrintAll(items) == head + " " + PrintAll([binders, body]);
  }

  lemma NotText(a: Sexp)
    ensures Print(App("not", [a])) == "(not " + (Print(a) + ")")
  {
    PrintApp("not", [a]);
    assert PrintTail([a]) == " " + Print(a) + PrintTail([]);
  }

  lemma BinaryText(head: string, a: Sexp, b: Sexp)
    ensures Print(App(head, [a, b])) == "(" + head + " " + Print(a) + " " + Print(b) + ")"
  {
    PrintApp(head, [a, b]);
    assert [a, b][1..] == [b] && [b][1..] == [];
    assert PrintTail([b]) == " " + Print(b) + PrintTail([]);
    assert PrintTail([a, b]) == " " + Print(a) + PrintTail([b]);
  }

  lemma UnaryRegroup(out: string, opening: string, p: string, rest: string)
    ensures out + ((opening + (p + ")")) + rest) == (out + opening) + (p + (")" + rest))
  {
    assert (opening + (p + ")")) + rest == opening + (p + (")" + rest));
  }

  lemma BinaryRegroup(out: string, head: string, p: string, q: string, rest: string)
    ensures out + (("(" + head + " " + p + " " + q + ")") + rest)
         == (out + "(" + head + " ") + (p + (" " + (q + (")" + rest))))
  {
    var opening := "(" + head + " ";
    assert ("(" + head + " " + p + " " + q + ")") + rest == opening + (p + (" " + (q + (")" + rest))));
    assert out + opening == out + "(" + head + " ";
  }

  lemma Regroup(out: string, text: string, rest: string)
    ensures out + (text + rest) == (out + text) + rest
  {
  }

  method EmitAtomic(formula: Formula) returns (text: string)
    requires formula.Atom? || formula.Equality? || formula.Inequality? || formula.True? || formula.False?
    ensures text == Print(FormulaSexp(formula))
  {
    match formula
    case Atom(name, args) =>
      if args == [] {
        text := name;
      } else {
        PrintApp(name, TermSexps(args));
        PrintTailNonempty(TermSexps(args));
        var argTexts := TermTexts(args);
        text := "(" + name + " " + argTexts + ")";
      }
    case Equality(t1, t2) =>
      BinaryText("=", TermSexp(t1), TermSexp(t2));
      var s1 := TermToSmtlib2(t1);
      var s2 := TermToSmtlib2(t2);
      text := "(= " + s1 + " " + s2 + ")";
    case Inequality(t1, t2) =>
      BinaryText("=", TermSexp(t1), TermSexp(t2));
      NotText(App("=", [TermSexp(t1), TermSexp(t2)]));
      var s1 := TermToSmtlib2(t1);
      var s2 := TermToSmtlib2(t2);
      text := "(not (= " + s1 + " " + s2 + "))";
    case True => text := "true";
    case False => text := "false";
  }

  method EmitConnective(head: string, unit: string, fs: seq<Formula>, stackIn: seq<FormulaEmit>, outIn: string)
    returns (stack: seq<FormulaEmit>, out: string)
    ensures out + StackText(stack) == outIn + (Print(Connective(head, unit, FormulaSexps(fs))) + StackText(stackIn))
    ensures StackWeight(stack) < 3 * FormulasSize(fs) + 2 + StackWeight(stackIn)
  {
    stack, out := stackIn, outIn;
    if fs == [] {
      out := out + unit;
    } else if |fs| == 1 {
      PushTask(stack, Emit(fs[0]));
      stack := stack + [Emit(fs[0])];
    } else {
      PrintApp(head, FormulaSexps(fs));
      EmitApp(out, head, PrintTail(FormulaSexps(fs)), StackText(stack));
      PushTask(stack, Text(")"));
      out := out + "(" + head;
      stack := PushOperands(stack + [Text(")")], fs);
    }
  }

  method EmitBinary(head: string, f1: Formula, f2: Formula, stackIn: seq<FormulaEmit>, outIn: string)
    returns (stack: seq<FormulaEmit>, out: string)
    ensures out + StackText(stack)
         == outIn + (Print(App(head, [FormulaSexp(f1), FormulaSexp(f2)])) + StackText(stackIn))
    ensures StackWeight(stack) < 3 * FormulaSize(f1) + 3 * FormulaSize(f2) + 2 + StackWeight(stackIn)
  {
    BinaryText(head, FormulaSexp(f1), FormulaSexp(f2));
    var s1 := stackIn + [Text(")")];
    var s2 := s1 + [Emit(f2)];
    var s3 := s2 + [Text(" ")];
    PushTask(stackIn, Text(")"));
    PushTask(s1, Emit(f2));
    PushTask(s2, Text(" "));
    PushTask(s3, Emit(f1));
    out := outIn + "(" + head + " ";
    stack := s3 + [Emit(f1)];
    BinaryRegroup(outIn, head, Print(FormulaSexp(f1)), Print(FormulaSexp(f2)), StackText(stackIn));
  }

  method EmitQuantified(head: string, vars: seq<string>, f: Formula, stackIn: seq<FormulaEmit>, outIn: string)
    returns (stack: seq<FormulaEmit>, out: string)
    ensures out + StackText(stack) == outIn + (Print(Quantified(head, vars, FormulaSexp(f))) + StackText(stackIn))
    ensures StackWeight(stack) < 3 * FormulaSize(f) + 2 + StackWeight(stackIn)
  {
    QuantifiedText(head, vars, FormulaSexp(f));
    var bindings := BindingTexts(vars);
    var opening := "(" + head + " (" + bindings + ") ";
    PushTask(stackIn, Text(")"));
    PushTask(stackIn + [Text(")")], Emit(f));
    out := outIn + opening;
    stack := stackIn + [Text(")")] + [Emit(f)];
    UnaryRegroup(outIn, opening, Print(FormulaSexp(f)), StackText(stackIn));
  }

  method EmitNegation(f: Formula, stackIn: seq<FormulaEmit>, outIn: string)
    returns (stack: seq<FormulaEmit>, out: string)
    ensures out + StackText(stack) == outIn + (Print(App("not", [FormulaSexp(f)])) + StackText(stackIn))
    ensures StackWeight(stack) < 3 * FormulaSize(f) + 2 + StackWeight(stackIn)
  {
    NotText(FormulaSexp(f));
    PushTask(stackIn, Text(")"));
    PushTask(stackIn + [Text(")")], Emit(f));
    out := outIn + "(not ";
    stack := stackIn + [Text(")")] + [Emit(f)];
    UnaryRegroup(outIn, "(not ", Print(FormulaSexp(f)), StackText(stackIn));
  }

  method EmitFormula(formula: Formula, stackIn: seq<FormulaEmit>, outIn: string)
    returns (stack: seq<FormulaEmit>, out: string)
    ensures out + StackText(stack) == outIn + (Print(FormulaSexp(formula)) + StackText(stackIn))
    ensures StackWeight(stack) < 3 * FormulaSize(formula) - 1 + StackWeight(stackIn)
  {
    match formula
    case Not(f) => stack, out := EmitNegation(f, stackIn, outIn);
    case And(fs) => stack, out := EmitConnective("and", "true", fs, stackIn, outIn);
    case Or(fs) => stack, out := EmitConnective("or", "false", fs, stackIn, outIn);
    case Implies(f1, f2) => stack, out := EmitBinary("=>", f1, f2, stackIn, outIn);
    case Iff(f1, f2) => stack, out := EmitBinary("=", f1, f2, stackIn, outIn);
    case Forall(vars, f) => stack, out := EmitQuantified("forall", vars, f, stackIn, outIn);
    case Exists(vars, f) => stack, out := EmitQuantified("exists", vars, f, stackIn, outIn);
    case _ =>
      var text := EmitAtomic(formula);
      Regroup(outIn, text, StackText(stackIn));
      stack, out := stackIn, outIn + text;
  }

  /** One turn of the loop below. */
  method EmitTask(task: FormulaEmit, stackIn: seq<FormulaEmit>, outIn: string)
    returns (stack: seq<FormulaEmit>, out: string)
    ensures out + StackText(stack) == outIn + (TaskText(task) + StackText(stackIn))
    ensures StackWeight(stack) < StackWeight(stackIn + [task])
  {
    PushTask(stackIn, task);
    match task
    case Text(text) =>
      Regroup(outIn, text, StackText(stackIn));
      stack, out := stackIn, outIn + text;
    case Emit(formula) => stack, out := EmitFormula(formula, stackIn, outIn);
  }

  method FormulaToSmtlib2(self: Formula) returns (out: string)
    ensures out == Print(FormulaSexp(self))
  {
    out := "";
    var stack := [Emit(self)];
    PushTask([], Emit(self));
    assert [] + [Emit(self)] == stack;
    while stack != []
      invariant out + StackText(stack) == Print(FormulaSexp(self))
      decreases StackWeight(stack)
    {
      var task, rest := stack[|stack| - 1], stack[..|stack| - 1];
      assert stack == rest + [task];
      stack, out := EmitTask(task, rest, out);
    }
  }
}
