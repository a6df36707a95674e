/** The pushdown parser of tptp.rs: a position field, and explicit stacks of what is still to be
    done. Each method returns exactly what the recursive-descent grammar gives. */
module TptpParser {
  import opened Prelude
  import opened RustText
  import opened TptpSyntax
  import opened TptpGrammar

  // ================================================================ pending term work

  datatype OpenCall = OpenCall(name: string, args: seq<Term>)

  /** What completing a term means for the open argument lists, innermost last. */
  function ResumeTerm(s: Source, limits: Limits, pending: seq<OpenCall>, value: Term, p: nat): (r: Parsed<Term>)
    requires p <= |s.text|
    ensures r.Ok? ==> p <= r.value.1 <= |s.text|
    decreases |pending|
  {
    if pending == [] then Ok((value, p))
    else
      var top := pending[|pending| - 1];
      match ArgumentsRest(s, limits, p, |pending|, top.args + [value])
      case Err(e) => Err(e)
      case Ok((args, q)) => ResumeTerm(s, limits, pending[..|pending| - 1], Function(top.name, args), q)
  }

  /** Read a term here, then resume. */
  function ReadTerm(s: Source, limits: Limits, pending: seq<OpenCall>, p: nat): (r: Parsed<Term>)
    requires p <= |s.text|
  {
    ThenTerm(s, limits, pending, TermAt(s, limits, p, |pending|))
  }

  function ThenTerm(s: Source, limits: Limits, pending: seq<OpenCall>, r: Parsed<Term>): Parsed<Term>
    requires r.Ok? ==> r.value.1 <= |s.text|
  {
    match r
    case Err(e) => Err(e)
    case Ok((t, q)) => ResumeTerm(s, limits, pending, t, q)
  }

  /** What the head of a term leaves to be computed; call names a call just opened. */
  function AfterHead(s: Source, limits: Limits, pending: seq<OpenCall>, r: Result<Term, ParseError>,
                     call: Option<string>, p: nat): Parsed<Term>
    requires p <= |s.text|
  {
    match r
    case Err(e) => Err(e)
    case Ok(t) =>
      if call.Some? then ReadTerm(s, limits, pending + [OpenCall(call.value, [])], p)
      else ResumeTerm(s, limits, pending, t, p)
  }

  /** A finished argument list makes a term. */
  function ThenCall(s: Source, limits: Limits, pending: seq<OpenCall>, name: string, r: Parsed<seq<Term>>): Parsed<Term>
    requires r.Ok? ==> r.value.1 <= |s.text|
  {
    match r
    case Err(e) => Err(e)
    case Ok((args, q)) => ResumeTerm(s, limits, pending, Function(name, args), q)
  }

  function ThenClose(s: Source, limits: Limits, pending: seq<OpenCall>, value: Term,
                     r: Result<nat, ParseError>): Parsed<Term>
    requires r.Ok? ==> r.value <= |s.text|
  {
    match r
    case Err(e) => Err(e)
    case Ok(q) => ResumeTerm(s, limits, pending, value, q)
  }

  /** An open parenthesis and a first argument. */
  lemma OpenArguments(s: Source, limits: Limits, pending: seq<OpenCall>, name: string, p: nat)
    requires p <= |s.text|
    ensures ReadTerm(s, limits, pending + [OpenCall(name, [])], p)
         == ThenCall(s, limits, pending, name, ArgumentsAt(s, limits, p, |pending| + 1, []))
  {
    var pending' := pending + [OpenCall(name, [])];
    assert pending'[..|pending'| - 1] == pending;
  }

  lemma ResumePending(s: Source, limits: Limits, pending: seq<OpenCall>, top: OpenCall, value: Term, p: nat)
    requires p <= |s.text|
    ensures ResumeTerm(s, limits, pending + [top], value, p)
         == ThenCall(s, limits, pending, top.name, ArgumentsRest(s, limits, p, |pending| + 1, top.args + [value]))
  {
    assert (pending + [top])[..|pending|] == pending;
  }

  /** A comma and a further argument. */
  lemma NextArgument(s: Source, limits: Limits, pending: seq<OpenCall>, top: OpenCall, value: Term, p0: nat)
    requires p0 <= |s.text|
    ensures var p := SkipSpace(s, p0);
            ResumeTerm(s, limits, pending + [top], value, p0)
            == if StartsWith(s, p, ",")
               then ReadTerm(s, limits, pending + [OpenCall(top.name, top.args + [value])], SkipSpace(s, p + 1))
               else ThenClose(s, limits, pending, Function(top.name, top.args + [value]), Consume(s, p, ')'))
  {
    var args := top.args + [value];
    var p := SkipSpace(s, p0);
    ResumePending(s, limits, pending, top, value, p0);
    if StartsWith(s, p, ",") {
      FurtherArgument(s, limits, pending, OpenCall(top.name, args), SkipSpace(s, p + 1));
    }
  }

  lemma FurtherArgument(s: Source, limits: Limits, pending: seq<OpenCall>, call: OpenCall, q: nat)
    requires q <= |s.text|
    ensures ReadTerm(s, limits, pending + [call], q)
         == ThenCall(s, limits, pending, call.name, ArgumentsAt(s, limits, q, |pending| + 1, call.args))
  {
    match TermAt(s, limits, q, |pending| + 1)
    case Err(_) =>
    case Ok((t, q1)) => ResumePending(s, limits, pending, call, t, q1);
  }

  // ================================================================ pending formula work

  datatype Pending<T> = Nothing | Operand(value: T, flag: bool)

  datatype Cont =
    | IffCont(left: Pending<Formula>)
    | ImpliesCont(left: Pending<Formula>)
    | OrCont(operands: seq<Formula>)
    | AndCont(operands: seq<Formula>)
    | NotCont
    | QuantifyCont(universal: bool, vars: seq<string>)
    | CloseParen

  function Combine(left: Pending<Formula>, value: Formula): Formula {
    match left
    case Nothing => value
    case Operand(l, exclusive) => if exclusive then Not(Iff(l, value)) else Iff(l, value)
  }

  /** What completing one operand means for the innermost pending step. */
  function Fold(s: Source, limits: Limits, cont: Cont, h: nat, value: Formula, p: nat): (r: Parsed<Formula>)
    requires p <= |s.text|
    ensures r.Ok? ==> p <= r.value.1 <= |s.text|
  {
    match cont
    case NotCont => Ok((Not(value), p))
    case QuantifyCont(universal, vars) => Ok((if universal then Forall(vars, value) else Exists(vars, value), p))
    case CloseParen =>
      (match Consume(s, SkipSpace(s, p), ')')
       case Err(e) => Err(e)
       case Ok(q) => Ok((value, q)))
    case AndCont(operands) => AndRest(s, limits, p, h, operands + [value])
    case OrCont(operands) => OrRest(s, limits, p, h, operands + [value])
    case ImpliesCont(Nothing) => ImpliesRest(s, limits, p, h, value)
    case ImpliesCont(Operand(left, reversed)) =>
      Ok((if reversed then Implies(value, left) else Implies(left, value), p))
    case IffCont(left) => IffRest(s, limits, p, h, Combine(left, value))
  }

  function Resume(s: Source, limits: Limits, conts: seq<Cont>, value: Formula, p: nat): (r: Parsed<Formula>)
    requires p <= |s.text|
    decreases |conts|
  {
    if conts == [] then Ok((value, p))
    else
      match Fold(s, limits, conts[|conts| - 1], |conts| - 1, value, p)
      case Err(e) => Err(e)
      case Ok((f, q)) => Resume(s, limits, conts[..|conts| - 1], f, q)
  }

  /** Read an operand here, then resume. */
  function Descend(s: Source, limits: Limits, conts: seq<Cont>, p: nat): (r: Parsed<Formula>)
    requires p <= |s.text|
  {
    match UnaryAt(s, limits, p, |conts|)
    case Err(e) => Err(e)
    case Ok((f, q)) => Resume(s, limits, conts, f, q)
  }

  /** Then: the result of a level, handed to what is pending. */
  function Then(s: Source, limits: Limits, conts: seq<Cont>, r: Parsed<Formula>): Parsed<Formula>
    requires r.Ok? ==> r.value.1 <= |s.text|
  {
    match r
    case Err(e) => Err(e)
    case Ok((f, q)) => Resume(s, limits, conts, f, q)
  }

  function ThenFold(s: Source, limits: Limits, conts: seq<Cont>, cont: Cont, r: Parsed<Formula>): Parsed<Formula>
    requires r.Ok? ==> r.value.1 <= |s.text|
  {
    match r
    case Err(e) => Err(e)
    case Ok((f, q)) => Then(s, limits, conts, Fold(s, limits, cont, |conts|, f, q))
  }

  lemma ResumePush(s: Source, limits: Limits, conts: seq<Cont>, cont: Cont, value: Formula, p: nat)
    requires p <= |s.text|
    ensures Resume(s, limits, conts + [cont], value, p)
         == Then(s, limits, conts, Fold(s, limits, cont, |conts|, value, p))
  {
    assert (conts + [cont])[..|conts|] == conts;
  }

  lemma ThenPush(s: Source, limits: Limits, conts: seq<Cont>, cont: Cont, r: Parsed<Formula>)
    requires r.Ok? ==> r.value.1 <= |s.text|
    ensures Then(s, limits, conts + [cont], r)
         == ThenFold(s, limits, conts, cont, r)
  {
    match r
    case Err(_) =>
    case Ok((f, q)) => ResumePush(s, limits, conts, cont, f, q);
  }

  // ---------------------------------------------------------------- scheduling levels

  function ImpliesLevels(): seq<Cont> { [ImpliesCont(Nothing), OrCont([]), AndCont([])] }

  function FormulaLevels(): seq<Cont> { [IffCont(Nothing), ImpliesCont(Nothing), OrCont([]), AndCont([])] }

  lemma DescendAnd(s: Source, limits: Limits, conts: seq<Cont>, p: nat)
    requires p <= |s.text|
    ensures Descend(s, limits, conts + [AndCont([])], p) == Then(s, limits, conts, AndAt(s, limits, p, |conts|))
  {
    ThenPush(s, limits, conts, AndCont([]), UnaryAt(s, limits, p, |conts| + 1));
    assert forall f: Formula :: [] + [f] == [f];
  }

  lemma DescendOr(s: Source, limits: Limits, conts: seq<Cont>, p: nat)
    requires p <= |s.text|
    ensures Descend(s, limits, conts + [OrCont([]), AndCont([])], p)
         == Then(s, limits, conts, OrAt(s, limits, p, |conts|))
  {
    assert conts + [OrCont([]), AndCont([])] == conts + [OrCont([])] + [AndCont([])];
    DescendAnd(s, limits, conts + [OrCont([])], p);
    ThenPush(s, limits, conts, OrCont([]), AndAt(s, limits, p, |conts| + 1));
    assert forall f: Formula :: [] + [f] == [f];
  }

  lemma DescendImplies(s: Source, limits: Limits, conts: seq<Cont>, p: nat)
    requires p <= |s.text|
    ensures Descend(s, limits, conts + ImpliesLevels(), p) == Then(s, limits, conts, ImpliesAt(s, limits, p, |conts|))
  {
    assert conts + ImpliesLevels() == conts + [ImpliesCont(Nothing)] + [OrCont([]), AndCont([])];
    DescendOr(s, limits, conts + [ImpliesCont(Nothing)], p);
    ThenPush(s, limits, conts, ImpliesCont(Nothing), OrAt(s, limits, p, |conts| + 1));
  }

  lemma DescendFormula(s: Source, limits: Limits, conts: seq<Cont>, p: nat)
    requires p <= |s.text|
    ensures Descend(s, limits, conts + FormulaLevels(), p) == Then(s, limits, conts, IffAt(s, limits, p, |conts|))
  {
    assert conts + FormulaLevels() == conts + [IffCont(Nothing)] + ImpliesLevels();
    DescendImplies(s, limits, conts + [IffCont(Nothing)], p);
    ThenPush(s, limits, conts, IffCont(Nothing), ImpliesAt(s, limits, p, |conts| + 1));
  }

  // ---------------------------------------------------------------- one fold step

  /** What the fold loop does with a pending step and a completed operand: either it goes back
      to reading operands with some steps pushed, or it has a larger completed formula. */
  datatype FoldStep =
    | Again(pushed: seq<Cont>, at: nat)
    | Done(value: Formula, at: nat)
    | Fail(error: ParseError)

  function FoldOnce(s: Source, cont: Cont, value: Formula, p0: nat): (r: FoldStep)
    requires p0 <= |s.text|
    ensures r.Again? ==> p0 < r.at <= |s.text| && |r.pushed| <= 4
    ensures r.Done? ==> p0 <= r.at <= |s.text|
  {
    var p := SkipSpace(s, p0);
    match cont
    case NotCont => Done(Not(value), p0)
    case QuantifyCont(universal, vars) => Done(if universal then Forall(vars, value) else Exists(vars, value), p0)
    case CloseParen => (match Consume(s, p, ')') case Err(e) => Fail(e) case Ok(q) => Done(value, q))
    case AndCont(operands) =>
      if StartsWith(s, p, "&") then Again([AndCont(operands + [value])], SkipSpace(s, p + 1))
      else Done(Collapse(operands + [value], true), p)
    case OrCont(operands) =>
      if StartsWith(s, p, "|") then Again([OrCont(operands + [value]), AndCont([])], SkipSpace(s, p + 1))
      else Done(Collapse(operands + [value], false), p)
    case ImpliesCont(Nothing) =>
      if StartsWith(s, p, "=>") then
        Again([ImpliesCont(Operand(value, false))] + ImpliesLevels(), SkipSpace(s, p + 2))
      else if StartsWith(s, p, "<=") && !StartsWith(s, p, "<=>") then
        Again([ImpliesCont(Operand(value, true))] + ImpliesLevels(), SkipSpace(s, p + 2))
      else Done(value, p)
    case ImpliesCont(Operand(left, reversed)) =>
      Done(if reversed then Implies(value, left) else Implies(left, value), p0)
    case IffCont(left) =>
      if StartsWith(s, p, "<=>") then
        Again([IffCont(Operand(Combine(left, value), false))] + ImpliesLevels(), SkipSpace(s, p + 3))
      else if StartsWith(s, p, "<~>") then
        Again([IffCont(Operand(Combine(left, value), true))] + ImpliesLevels(), SkipSpace(s, p + 3))
      else Done(Combine(left, value), p)
  }

  /** Folding one step at a time computes what the grammar computes in one go. */
  lemma FoldOnceRight(s: Source, limits: Limits, rest: seq<Cont>, cont: Cont, value: Formula, p: nat)
    requires p <= |s.text|
    ensures var step := FoldOnce(s, cont, value, p);
            && (step.Again?
              ==> Resume(s, limits, rest + [cont], value, p) == Descend(s, limits, rest + step.pushed, step.at))
            && (step.Done?
              ==> Resume(s, limits, rest + [cont], value, p) == Resume(s, limits, rest, step.value, step.at))
            && (step.Fail? ==> Resume(s, limits, rest + [cont], value, p) == Err(step.error))
  {
    ResumePush(s, limits, rest, cont, value, p);
    match FoldOnce(s, cont, value, p)
    case Again(pushed, at) => AgainRight(s, limits, rest, cont, value, p, pushed, at);
    case _ =>
  }

  lemma AgainRight(s: Source, limits: Limits, rest: seq<Cont>, cont: Cont, value: Formula, p: nat, pushed: seq<Cont>,
                   at: nat)
    requires p <= |s.text| && FoldOnce(s, cont, value, p) == Again(pushed, at)
    ensures Then(s, limits, rest, Fold(s, limits, cont, |rest|, value, p)) == Descend(s, limits, rest + pushed, at)
  {
    if cont.AndCont? {
      ThenPush(s, limits, rest, pushed[0], UnaryAt(s, limits, at, |rest| + 1));
    } else if cont.OrCont? {
      AgainOr(s, limits, rest, cont, value, p, pushed, at);
    } else {
      AgainImplies(s, limits, rest, cont, value, p, pushed, at);
    }
  }

  lemma AgainOr(s: Source, limits: Limits, rest: seq<Cont>, cont: Cont, value: Formula, p: nat, pushed: seq<Cont>,
                at: nat)
    requires p <= |s.text| && FoldOnce(s, cont, value, p) == Again(pushed, at) && cont.OrCont?
    ensures Then(s, limits, rest, Fold(s, limits, cont, |rest|, value, p)) == Descend(s, limits, rest + pushed, at)
  {
    assert rest + pushed == rest + [pushed[0]] + [AndCont([])];
    DescendAnd(s, limits, rest + [pushed[0]], at);
    ThenPush(s, limits, rest, pushed[0], AndAt(s, limits, at, |rest| + 1));
  }

  lemma AgainImplies(s: Source, limits: Limits, rest: seq<Cont>, cont: Cont, value: Formula, p: nat, pushed: seq<Cont>,
                     at: nat)
    requires p <= |s.text| && FoldOnce(s, cont, value, p) == Again(pushed, at) && !cont.OrCont? && !cont.AndCont?
    ensures Then(s, limits, rest, Fold(s, limits, cont, |rest|, value, p)) == Descend(s, limits, rest + pushed, at)
  {
    assert rest + pushed == rest + [pushed[0]] + ImpliesLevels();
    DescendImplies(s, limits, rest + [pushed[0]], at);
    ThenPush(s, limits, rest, pushed[0], ImpliesAt(s, limits, at, |rest| + 1));
  }

  // ---------------------------------------------------------------- one prefix

  lemma {:induction false} SkipSpaceTwice(s: Source, p: nat)
    ensures SkipSpace(s, SkipSpace(s, p)) == SkipSpace(s, p)
    decreases |s.text| - p
  {
    if p < |s.text| && IsSpace(s.text[p]) {
      SkipSpaceTwice(s, p + 1);
    }
  }

  /** Leading space does not matter to an operand. */
  lemma DescendSkip(s: Source, limits: Limits, conts: seq<Cont>, p: nat)
    requires p <= |s.text|
    ensures Descend(s, limits, conts, SkipSpace(s, p)) == Descend(s, limits, conts, p)
  {
    SkipSpaceTwice(s, p);
  }

  lemma DescendNot(s: Source, limits: Limits, conts: seq<Cont>, p: nat)
    requires SkipSpace(s, p) == p && |conts| <= limits.formula && KindAt(s, p) == Negation
    ensures Descend(s, limits, conts, p) == Descend(s, limits, conts + [NotCont], SkipSpace(s, p + 1))
  {
    assert UnaryAt(s, limits, p, |conts|) == PrimaryAt(s, limits, p, |conts|);
    ThenPush(s, limits, conts, NotCont, UnaryAt(s, limits, SkipSpace(s, p + 1), |conts| + 1));
  }

  lemma DescendQuantifier(s: Source, limits: Limits, conts: seq<Cont>, p: nat, universal: bool)
    requires SkipSpace(s, p) == p && |conts| <= limits.formula && KindAt(s, p) == Quantifier(universal)
    ensures var prefix := PrefixAt(s, p + 1);
            && (prefix.Err? ==> Descend(s, limits, conts, p) == Err(prefix.error))
            && (prefix.Ok? ==>
                  Descend(s, limits, conts, p)
                    == Descend(s, limits, conts + [QuantifyCont(universal, prefix.value.0)], prefix.value.1))
  {
    var prefix := PrefixAt(s, p + 1);
    assert UnaryAt(s, limits, p, |conts|) == PrimaryAt(s, limits, p, |conts|)
      == QuantifiedAt(s, limits, p + 1, |conts|, universal);
    if prefix.Ok? {
      QuantifierPush(s, limits, conts, p + 1, universal, prefix.value.0, prefix.value.1);
    }
  }

  lemma QuantifierPush(s: Source, limits: Limits, conts: seq<Cont>, p: nat, universal: bool, vars: seq<string>, q: nat)
    requires p <= |s.text| && PrefixAt(s, p) == Ok((vars, q))
    ensures q <= |s.text|
    ensures Then(s, limits, conts, QuantifiedAt(s, limits, p, |conts|, universal))
         == Descend(s, limits, conts + [QuantifyCont(universal, vars)], q)
  {
    ThenPush(s, limits, conts, QuantifyCont(universal, vars), UnaryAt(s, limits, q, |conts| + 1));
  }

  lemma DescendParen(s: Source, limits: Limits, conts: seq<Cont>, p: nat)
    requires SkipSpace(s, p) == p && |conts| <= limits.formula && KindAt(s, p) == Parenthesis
    ensures Descend(s, limits, conts, p) == Descend(s, limits, conts + ([CloseParen] + FormulaLevels()), p + 1)
  {
    assert UnaryAt(s, limits, p, |conts|) == PrimaryAt(s, limits, p, |conts|);
    assert conts + ([CloseParen] + FormulaLevels()) == conts + [CloseParen] + FormulaLevels();
    DescendFormula(s, limits, conts + [CloseParen], p + 1);
    ThenPush(s, limits, conts, CloseParen, IffAt(s, limits, p + 1, |conts| + 1));
  }

  lemma DescendRead(s: Source, limits: Limits, conts: seq<Cont>, p: nat)
    requires SkipSpace(s, p) == p && |conts| <= limits.formula
    ensures KindAt(s, p) == TrueLiteral ==> Descend(s, limits, conts, p) == Resume(s, limits, conts, True, p + 5)
    ensures KindAt(s, p) == FalseLiteral ==> Descend(s, limits, conts, p) == Resume(s, limits, conts, False, p + 6)
    ensures KindAt(s, p) == Atomic && p <= |s.text| ==>
              Descend(s, limits, conts, p) == Then(s, limits, conts, AtomicAt(s, limits, p))
  {
    if p <= |s.text| {
      assert UnaryAt(s, limits, p, |conts|) == PrimaryAt(s, limits, p, |conts|);
    }
  }

  // ================================================================ the parser

  /** The method's result and final position are those of the grammar. */
  ghost predicate Agrees<T>(r: Result<T, ParseError>, pos: nat, spec: Parsed<T>) {
    match spec
    case Ok((value, p)) => r == Ok(value) && pos == p
    case Err(e) => r == Err(e)
  }

  class Parser {
    const source: Source
    const limits: Limits
    var pos: nat

    constructor (text: string, chars: CharClass)
      ensures source == Source(text, chars) && pos == 0 && Valid()
      ensures limits == Limits(MAX_TPTP_DEPTH, MAX_TPTP_CONTINUATIONS)
    {
      source := Source(text, chars);
      limits := Limits(MAX_TPTP_DEPTH, MAX_TPTP_CONTINUATIONS);
      pos := 0;
    }

    ghost predicate Valid()
      reads this
    {
      pos <= |source.text|
    }

    method SkipWhitespace()
      requires Valid()
      modifies this
      ensures Valid() && pos == SkipSpace(source, old(pos))
    {
      while pos < |source.text| && IsSpace(source.text[pos])
        invariant Valid() && SkipSpace(source, pos) == SkipSpace(source, old(pos))
        decreases |source.text| - pos
      {
        pos := pos + 1;
      }
    }

    method TryConsume(token: string) returns (ok: bool)
      requires Valid()
      modifies this
      ensures Valid() && ok == StartsWith(source, old(pos), token)
      ensures pos == if ok then old(pos) + |token| else old(pos)
    {
      if pos + |token| <= |source.text| {
        for i := 0 to |token|
          invariant pos == old(pos) && source.text[pos..pos + i] == token[..i]
        {
          if source.text[pos + i] != token[i] {
            assert source.text[pos..pos + |token|][i] != token[i];
            return false;
          }
          assert source.text[pos..pos + (i + 1)] == source.text[pos..pos + i] + [source.text[pos + i]];
          assert token[..i + 1] == token[..i] + [token[i]];
        }
        assert token[..|token|] == token;
        pos := pos + |token|;
        ok := true;
      } else {
        ok := false;
      }
    }

    method ConsumeChar(expected: char) returns (r: Result<(), ParseError>)
      requires Valid()
      modifies this
      ensures Valid()
      ensures match Consume(source, old(pos), expected)
              case Ok(p) => r == Ok(()) && pos == p
              case Err(e) => r == Err(e) && pos == old(pos)
    {
      if Peek(source, pos) == Some(expected) {
        pos := pos + 1;
        r := Ok(());
      } else {
        r := Err(ExpectedChar(expected, pos, Peek(source, pos)));
      }
    }

    /** The rest of a quoted name, after its opening quote. */
    method ParseQuoted() returns (name: string)
      requires Valid()
      modifies this
      ensures Valid()
      ensures var q := QuoteEnd(source, old(pos));
              name == source.text[old(pos)..q] && pos == if q < |source.text| then q + 1 else q
    {
      ghost var start := pos;
      name := "";
      while pos < |source.text|
        invariant start <= pos <= |source.text| && name == source.text[start..pos]
        invariant QuoteEnd(source, pos) == QuoteEnd(source, start)
        decreases |source.text| - pos
      {
        if source.text[pos] == '\'' {
          var _ := ConsumeChar('\'');
          return;
        }
        name := name + [source.text[pos]];
        pos := pos + 1;
      }
    }

    method ParseIdentifier() returns (r: Result<string, ParseError>)
      requires Valid()
      modifies this
      ensures Valid() && Agrees(r, pos, Identifier(source, old(pos)))
    {
      SkipWhitespace();
      ghost var start := pos;
      if Peek(source, pos) == Some('\'') {
        var _ := ConsumeChar('\'');
        var quoted := ParseQuoted();
        return Ok(quoted);
      }
      var name := "";
      while pos < |source.text| && IsNameChar(source, source.text[pos])
        invariant start <= pos <= |source.text| && name == source.text[start..pos]
        invariant NameEnd(source, pos) == NameEnd(source, start)
        decreases |source.text| - pos
      {
        name := name + [source.text[pos]];
        pos := pos + 1;
      }
      if name == "" {
        r := Err(ExpectedIdentifier(pos, Peek(source, pos)));
      } else {
        r := Ok(name);
      }
    }

    method ParseVariable() returns (r: Result<string, ParseError>)
      requires Valid()
      modifies this
      ensures Valid() && Agrees(r, pos, VariableAt(source, old(pos)))
    {
      r := ParseIdentifier();
      if r.Ok? && !IsVariableName(source, r.value) {
        r := Err(ExpectedVariable(r.value));
      }
    }

    method SkipAnnotation() returns (r: Result<(), ParseError>)
      requires Valid()
      modifies this
      ensures Valid()
      ensures match AnnotationEnd(source, old(pos))
              case Ok(p) => r == Ok(()) && pos == p
              case Err(e) => r == Err(e)
    {
      if Peek(source, pos) == Some(':') && pos + 1 < |source.text| {
        var nextNonSpace := Peek(source, SkipSpace(source, pos + 1));
        if nextNonSpace != Some(']') && nextNonSpace != Some('(') {
          var _ := TryConsume(":");
          SkipWhitespace();
          var t := ParseIdentifier();
          if t.Err? {
            return Err(t.error);
          }
          SkipWhitespace();
        }
      }
      r := Ok(());
    }

    method ParseTypedVariable() returns (r: Result<string, ParseError>)
      requires Valid()
      modifies this
      ensures Valid() && Agrees(r, pos, TypedVariableAt(source, old(pos)))
    {
      r := ParseVariable();
      if r.Err? {
        return;
      }
      SkipWhitespace();
      var annotation := SkipAnnotation();
      if annotation.Err? {
        return Err(annotation.error);
      }
    }

    /** One turn of the loop below. */
    method ParseListedVariable(varsIn: seq<string>) returns (r: Result<bool, ParseError>, vars: seq<string>)
      requires Valid()
      modifies this
      ensures Valid() && (r.Ok? ==> pos > old(pos))
      ensures VariablesAt(source, old(pos), varsIn)
           == if r.Err? then Err(r.error) else if r.value then VariablesAt(source, pos, vars) else Ok((vars, pos))
    {
      vars := varsIn;
      assert VariablesAt(source, pos, vars) == AfterVariable(source, pos, vars, TypedVariableAt(source, pos));
      var v := ParseTypedVariable();
      if v.Err? {
        return Err(v.error), vars;
      }
      vars := vars + [v.value];
      var more := SkipComma();
      r := Ok(more);
    }

    method SkipComma() returns (more: bool)
      requires Valid()
      modifies this
      ensures Valid() && more == StartsWith(source, old(pos), ",")
      ensures pos == if more then SkipSpace(source, old(pos) + 1) else old(pos)
    {
      more := TryConsume(",");
      if more {
        SkipWhitespace();
      }
    }

    method ParseVariableList() returns (r: Result<seq<string>, ParseError>)
      requires Valid()
      modifies this
      ensures Valid() && Agrees(r, pos, VariablesAt(source, old(pos), []))
    {
      var vars := [];
      while true
        invariant Valid() && VariablesAt(source, pos, vars) == VariablesAt(source, old(pos), [])
        decreases |source.text| - pos
      {
        var turn: Result<bool, ParseError>;
        turn, vars := ParseListedVariable(vars);
        if turn.Err? {
          return Err(turn.error);
        }
        if !turn.value {
          return Ok(vars);
        }
      }
    }

    method ParseQuantifierVars() returns (r: Result<seq<string>, ParseError>)
      requires Valid()
      modifies this
      ensures Valid() && Agrees(r, pos, PrefixAt(source, old(pos)))
    {
      SkipWhitespace();
      var open := ConsumeChar('[');
      if open.Err? {
        return Err(open.error);
      }
      SkipWhitespace();
      r := ParseVariableList();
      if r.Err? {
        return;
      }
      var close := ConsumeChar(']');
      if close.Err? {
        return Err(close.error);
      }
      SkipWhitespace();
      var _ := TryConsume(":");
      SkipWhitespace();
    }

    // -------------------------------------------------------------- terms

    /** The beginning of a term: either complete, or a call whose arguments follow. */
    method ParseTermHead(ghost pending: seq<OpenCall>) returns (r: Result<Term, ParseError>, call: Option<string>)
      requires Valid() && |pending| <= limits.term
      modifies this
      ensures Valid() && (r.Ok? ==> pos > old(pos))
      ensures ReadTerm(source, limits, pending, old(pos)) == AfterHead(source, limits, pending, r, call, pos)
    {
      SkipWhitespace();
      var name := ParseIdentifier();
      if name.Err? {
        return Err(name.error), None;
      }
      SkipWhitespace();
      r, call := ParseAfterName(name.value, pending);
    }

    method ParseAfterName(name: string, ghost pending: seq<OpenCall>)
      returns (r: Result<Term, ParseError>, call: Option<string>)
      requires Valid()
      modifies this
      ensures Valid() && (r.Ok? ==> pos >= old(pos))
      ensures ThenTerm(source, limits, pending, AfterName(source, limits, name, old(pos), |pending|))
           == AfterHead(source, limits, pending, r, call, pos)
    {
      call := None;
      if Peek(source, pos) == Some('(') {
        var _ := ConsumeChar('(');
        SkipWhitespace();
        if Peek(source, pos) != Some(')') {
          OpenArguments(source, limits, pending, name, pos);
          return Ok(Constant(name)), Some(name);
        }
        var _ := ConsumeChar(')');
        r := Ok(Function(name, []));
      } else if IsVariableName(source, name) {
        r := Ok(Variable(name));
      } else {
        r := Ok(Constant(name));
      }
    }

    /** Behind an argument of the innermost open call: another one follows, or the call is closed. */
    method AfterArgument(ghost rest: seq<OpenCall>, ghost top: OpenCall, ghost value: Term)
      returns (more: Result<bool, ParseError>)
      requires Valid()
      modifies this
      ensures Valid() && pos >= old(pos)
      ensures more.Err? ==> ResumeTerm(source, limits, rest + [top], value, old(pos)) == Err(more.error)
      ensures more.Ok? && more.value ==>
                pos > old(pos) && ResumeTerm(source, limits, rest + [top], value, old(pos))
                == ReadTerm(source, limits, rest + [OpenCall(top.name, top.args + [value])], pos)
      ensures more.Ok? && !more.value ==>
                ResumeTerm(source, limits, rest + [top], value, old(pos))
                == ResumeTerm(source, limits, rest, Function(top.name, top.args + [value]), pos)
    {
      NextArgument(source, limits, rest, top, value, pos);
      SkipWhitespace();
      var comma := TryConsume(",");
      if comma {
        SkipWhitespace();
        return Ok(true);
      }
      var close := ConsumeChar(')');
      more := if close.Err? then Err(close.error) else Ok(false);
    }

    /** Close finished argument lists; stop at a comma or when nothing is open. */
    method CloseCalls(pendingIn: seq<OpenCall>, valueIn: Term)
      returns (r: Result<Option<Term>, ParseError>, pending: seq<OpenCall>)
      requires Valid()
      modifies this
      ensures Valid() && pos >= old(pos) && |pending| <= |pendingIn|
      ensures r.Err? ==> ResumeTerm(source, limits, pendingIn, valueIn, old(pos)) == Err(r.error)
      ensures r.Ok? && r.value.Some? ==>
                ResumeTerm(source, limits, pendingIn, valueIn, old(pos)) == Ok((r.value.value, pos))
      ensures r.Ok? && r.value.None? ==>
                pos > old(pos)
                  && ResumeTerm(source, limits, pendingIn, valueIn, old(pos)) == ReadTerm(source, limits, pending, pos)
    {
      var value := valueIn;
      pending := pendingIn;
      while pending != []
        invariant Valid() && pos >= old(pos) && |pending| <= |pendingIn|
        invariant ResumeTerm(source, limits, pending, value, pos)
             == ResumeTerm(source, limits, pendingIn, valueIn, old(pos))
        decreases |pending|
      {
        var top := pending[|pending| - 1];
        var rest := pending[..|pending| - 1];
        assert pending == rest + [top];
        var more := AfterArgument(rest, top, value);
        if more.Err? {
          return Err(more.error), rest;
        }
        if more.value {
          return Ok(None), rest + [OpenCall(top.name, top.args + [value])];
        }
        value := Function(top.name, top.args + [value]);
        pending := rest;
      }
      r := Ok(Some(value));
    }

    method ParseTerm() returns (r: Result<Term, ParseError>)
      requires Valid()
      modifies this
      ensures Valid() && Agrees(r, pos, TermAt(source, limits, old(pos), 0))
    {
      var pending: seq<OpenCall> := [];
      while true
        invariant Valid()
        invariant ReadTerm(source, limits, pending, pos) == TermAt(source, limits, old(pos), 0)
        decreases |source.text| - pos
      {
        if |pending| > limits.term {
          return Err(TermTooDeep);
        }
        var head, call := ParseTermHead(pending);
        if head.Err? {
          return Err(head.error);
        }
        if call.Some? {
          pending := pending + [OpenCall(call.value, [])];
        } else {
          var closed: Result<Option<Term>, ParseError>;
          closed, pending := CloseCalls(pending, head.value);
          if closed.Err? {
            return Err(closed.error);
          }
          if closed.value.Some? {
            return Ok(closed.value.value);
          }
        }
      }
    }

    method ParseSecondTerm() returns (r: Result<Term, ParseError>)
      requires Valid()
      modifies this
      ensures Valid() && Agrees(r, pos, TermAt(source, limits, SkipSpace(source, old(pos)), 0))
    {
      SkipWhitespace();
      r := ParseTerm();
    }

    /** != before = , and = only if it does not begin => . */
    method TryRelation() returns (negated: Option<bool>)
      requires Valid()
      modifies this
      ensures Valid() && negated == RelationAt(source, old(pos))
      ensures pos == old(pos) + (if negated == None then 0 else if negated.value then 2 else 1)
    {
      var unequal := TryConsume("!=");
      if unequal {
        return Some(true);
      }
      if Peek(source, pos) == Some('=') && Peek(source, pos + 1) != Some('>') {
        var _ := TryConsume("=");
        return Some(false);
      }
      negated := None;
    }

    method ParseRelationRest(first: Term) returns (r: Result<Formula, ParseError>)
      requires Valid()
      modifies this
      ensures Valid() && Agrees(r, pos, RelationRest(source, limits, first, old(pos)))
    {
      SkipWhitespace();
      var negated := TryRelation();
      if negated == None {
        return Ok(AtomOf(first));
      }
      var second := ParseSecondTerm();
      if second.Err? {
        return Err(second.error);
      }
      r := Ok(if negated.value then Inequality(first, second.value) else Equality(first, second.value));
    }

    method ParseAtomicRelation() returns (r: Result<Formula, ParseError>)
      requires Valid()
      modifies this
      ensures Valid() && Agrees(r, pos, AtomicAt(source, limits, old(pos)))
    {
      var first := ParseTerm();
      if first.Err? {
        return Err(first.error);
      }
      r := ParseRelationRest(first.value);
    }

    // -------------------------------------------------------------- formulas

    /** Prefix operators and open parentheses, then an atomic formula. peak is the greatest
        height the stack reached. */
    method ReadOperand(contsIn: seq<Cont>) returns (r: Result<Formula, ParseError>, conts: seq<Cont>, ghost peak: nat)
      requires Valid()
      modifies this
      ensures Valid()
      ensures r.Err? ==> Descend(source, limits, contsIn, old(pos)) == Err(r.error)
      ensures r.Ok? ==>
                pos > old(pos)
                  && Descend(source, limits, contsIn, old(pos)) == Resume(source, limits, conts, r.value, pos)
      ensures r.Ok? ==> |conts| <= limits.formula
      ensures |contsIn| <= peak && (|contsIn| <= limits.formula + 5 ==> peak <= limits.formula + 5)
    {
      conts, peak := contsIn, |contsIn|;
      while true
        invariant Valid() && pos >= old(pos) && |contsIn| <= peak && |conts| <= peak
        invariant |contsIn| <= limits.formula + 5 ==> |conts| <= limits.formula + 5 && peak <= limits.formula + 5
        invariant Descend(source, limits, conts, pos) == Descend(source, limits, contsIn, old(pos))
        decreases |source.text| - pos
      {
        if |conts| > limits.formula {
          return Err(FormulaTooDeep), conts, peak;
        }
        DescendSkip(source, limits, conts, pos);
        SkipSpaceTwice(source, pos);
        SkipWhitespace();
        var step := ReadPrefix(conts);
        if step.Err? {
          return Err(step.error), conts, peak;
        }
        match step.value
        case Pushed(more) =>
          conts := conts + more;
          peak := if |conts| > peak then |conts| else peak;
        case Read(value) =>
          return Ok(value), conts, peak;
      }
    }

    /** One turn of the loop above, at a position that is not blank. */
    method ReadPrefix(ghost conts: seq<Cont>) returns (r: Result<PrefixStep, ParseError>)
      requires Valid() && SkipSpace(source, pos) == pos && |conts| <= limits.formula
      modifies this
      ensures Valid() && (r.Ok? ==> pos > old(pos) && (r.value.Pushed? ==> |r.value.more| <= 5))
      ensures Descend(source, limits, conts, old(pos)) == AfterPrefix(source, limits, conts, r, pos)
    {
      var negation := TryConsume("~");
      if negation {
        DescendNot(source, limits, conts, old(pos));
        SkipWhitespace();
        return Ok(Pushed([NotCont]));
      }
      var universal := TryConsume("!");
      if universal {
        DescendQuantifier(source, limits, conts, old(pos), true);
        var vars := ParseQuantifierVars();
        return if vars.Ok? then Ok(Pushed([QuantifyCont(true, vars.value)])) else Err(vars.error);
      }
      var existential := TryConsume("?");
      if existential {
        DescendQuantifier(source, limits, conts, old(pos), false);
        var vars := ParseQuantifierVars();
        return if vars.Ok? then Ok(Pushed([QuantifyCont(false, vars.value)])) else Err(vars.error);
      }
      r := ReadPrimary(conts);
    }

    /** A literal, an open parenthesis or an atomic relation. */
    method ReadPrimary(ghost conts: seq<Cont>) returns (r: Result<PrefixStep, ParseError>)
      requires Valid() && SkipSpace(source, pos) == pos && |conts| <= limits.formula
      requires KindAt(source, pos) != Negation && !KindAt(source, pos).Quantifier?
      modifies this
      ensures Valid() && (r.Ok? ==> pos > old(pos) && (r.value.Pushed? ==> |r.value.more| <= 5))
      ensures Descend(source, limits, conts, old(pos)) == AfterPrefix(source, limits, conts, r, pos)
    {
      DescendRead(source, limits, conts, pos);
      var isTrue := TryConsume("$true");
      if isTrue {
        return Ok(Read(True));
      }
      var isFalse := TryConsume("$false");
      if isFalse {
        return Ok(Read(False));
      }
      if Peek(source, pos) == Some('(') {
        DescendParen(source, limits, conts, pos);
        var _ := ConsumeChar('(');
        return Ok(Pushed([CloseParen] + FormulaLevels()));
      }
      var atomic := ParseAtomicRelation();
      r := if atomic.Ok? then Ok(Read(atomic.value)) else Err(atomic.error);
    }

    /** Complete the innermost pending step with a value, or find that it wants more operands. */
    method FoldTop(cont: Cont, value: Formula) returns (step: FoldStep)
      requires Valid()
      modifies this
      ensures Valid() && step == FoldOnce(source, cont, value, old(pos))
      ensures !step.Fail? ==> pos == step.at
    {
      match cont
      case NotCont => step := Done(Not(value), pos);
      case QuantifyCont(universal, vars) =>
        step := Done(if universal then Forall(vars, value) else Exists(vars, value), pos);
      case CloseParen =>
        SkipWhitespace();
        var close := ConsumeChar(')');
        step := if close.Ok? then Done(value, pos) else Fail(close.error);
      case AndCont(operands) =>
        SkipWhitespace();
        var more := TryConsume("&");
        if more {
          SkipWhitespace();
          step := Again([AndCont(operands + [value])], pos);
        } else {
          step := Done(Collapse(operands + [value], true), pos);
        }
      case OrCont(operands) =>
        SkipWhitespace();
        var more := TryConsume("|");
        if more {
          SkipWhitespace();
          step := Again([OrCont(operands + [value]), AndCont([])], pos);
        } else {
          step := Done(Collapse(operands + [value], false), pos);
        }
      case ImpliesCont(Nothing) => step := FoldImplication(value);
      case ImpliesCont(Operand(left, reversed)) =>
        step := Done(if reversed then Implies(value, left) else Implies(left, value), pos);
      case IffCont(left) => step := FoldEquivalence(Combine(left, value), left, value);
    }

    method FoldImplication(left: Formula) returns (step: FoldStep)
      requires Valid()
      modifies this
      ensures Valid() && step == FoldOnce(source, ImpliesCont(Nothing), left, old(pos))
      ensures !step.Fail? ==> pos == step.at
    {
      SkipWhitespace();
      var implies := TryConsume("=>");
      if implies {
        SkipWhitespace();
        return Again([ImpliesCont(Operand(left, false))] + ImpliesLevels(), pos);
      }
      if StartsWith(source, pos, "<=") && !StartsWith(source, pos, "<=>") {
        var _ := TryConsume("<=");
        SkipWhitespace();
        return Again([ImpliesCont(Operand(left, true))] + ImpliesLevels(), pos);
      }
      step := Done(left, pos);
    }

    method FoldEquivalence(combined: Formula, ghost left: Pending<Formula>, ghost value: Formula)
      returns (step: FoldStep)
      requires Valid() && combined == Combine(left, value)
      modifies this
      ensures Valid() && step == FoldOnce(source, IffCont(left), value, old(pos))
      ensures !step.Fail? ==> pos == step.at
    {
      SkipWhitespace();
      var iff := TryConsume("<=>");
      if iff {
        SkipWhitespace();
        return Again([IffCont(Operand(combined, false))] + ImpliesLevels(), pos);
      }
      var xor := TryConsume("<~>");
      if xor {
        SkipWhitespace();
        return Again([IffCont(Operand(combined, true))] + ImpliesLevels(), pos);
      }
      step := Done(combined, pos);
    }

    /** Fold a completed value through the pending steps until one wants another operand (the
        result is None) or none is left. */
    method FoldPending(contsIn: seq<Cont>, valueIn: Formula)
      returns (r: Result<Option<Formula>, ParseError>, conts: seq<Cont>)
      requires Valid()
      modifies this
      ensures Valid() && (r.Ok? ==> pos >= old(pos)) && |conts| <= |contsIn| + 3
      ensures r.Err? ==> Resume(source, limits, contsIn, valueIn, old(pos)) == Err(r.error)
      ensures r.Ok? && r.value.Some? ==> Resume(source, limits, contsIn, valueIn, old(pos)) == Ok((r.value.value, pos))
      ensures r.Ok? && r.value.None? ==>
                Resume(source, limits, contsIn, valueIn, old(pos)) == Descend(source, limits, conts, pos)
    {
      var value := valueIn;
      conts := contsIn;
      while conts != []
        invariant Valid() && pos >= old(pos) && |conts| <= |contsIn|
        invariant Resume(source, limits, conts, value, pos) == Resume(source, limits, contsIn, valueIn, old(pos))
        decreases |conts|
      {
        var cont, rest := conts[|conts| - 1], conts[..|conts| - 1];
        assert conts == rest + [cont];
        FoldOnceRight(source, limits, rest, cont, value, pos);
        var step := FoldTop(cont, value);
        conts := rest;
        match step
        case Fail(e) => return Err(e), conts;
        case Again(pushed, _) =>
          return Ok(None), rest + pushed;
        case Done(f, _) => value := f;
      }
      r := Ok(Some(value));
    }

    /** The pushdown parser returns what the grammar returns, and its stack never grows by more
        than five entries beyond the limit. */
    method ParseFormula() returns (r: Result<Formula, ParseError>, ghost peak: nat)
      requires Valid()
      modifies this
      ensures Valid() && Agrees(r, pos, IffAt(source, limits, old(pos), 0))
      ensures peak <= limits.formula + 5
    {
      var conts := FormulaLevels();
      peak := |conts|;
      assert [] + FormulaLevels() == FormulaLevels();
      DescendFormula(source, limits, [], pos);
      while true
        invariant Valid() && |conts| <= limits.formula + 5 && peak <= limits.formula + 5
        invariant Descend(source, limits, conts, pos) == IffAt(source, limits, old(pos), 0)
        decreases |source.text| - pos
      {
        ghost var height: nat;
        var operand: Result<Formula, ParseError>;
        operand, conts, height := ReadOperand(conts);
        peak := if height > peak then height else peak;
        if operand.Err? {
          return Err(operand.error), peak;
        }
        var folded: Result<Option<Formula>, ParseError>;
        folded, conts := FoldPending(conts, operand.value);
        peak := if |conts| > peak then |conts| else peak;
        if folded.Err? {
          return Err(folded.error), peak;
        }
        if folded.value.Some? {
          return Ok(folded.value.value), peak;
        }
      }
    }
  }

  /** What a turn of the prefix loop leaves to be computed. */
  ghost function AfterPrefix(s: Source, limits: Limits, conts: seq<Cont>, r: Result<PrefixStep, ParseError>,
                             p: nat): Parsed<Formula>
    requires p <= |s.text|
  {
    match r
    case Err(e) => Err(e)
    case Ok(Pushed(more)) => Descend(s, limits, conts + more, p)
    case Ok(Read(value)) => Resume(s, limits, conts, value, p)
  }

  datatype PrefixStep = Pushed(more: seq<Cont>) | Read(value: Formula)
}
