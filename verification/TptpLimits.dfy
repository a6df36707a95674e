/** The depth limits are the only way in which the parser departs from the plain grammar: one lemma for
    each function of the grammar says that its limited result is the unlimited one or a depth error, and
    that without limits there is no depth error. */
module TptpLimits {
  import opened Prelude
  import opened TptpSyntax
  import opened TptpGrammar

  /** Limits no construct of the input can reach: every open construct took a character. */
  function Unlimited(s: Source): Limits {
    Limits(|s.text|, 5 * |s.text| + 4)
  }

  predicate TooDeep(e: ParseError) {
    e == FormulaTooDeep || e == TermTooDeep
  }

  /** full, the unlimited result, is no depth error, and r is the same or a depth error. */
  ghost predicate Fits<T>(r: Parsed<T>, full: Parsed<T>) {
    && (full.Err? ==> !TooDeep(full.error))
    && (r == full || (r.Err? && TooDeep(r.error)))
  }

  lemma LexicalErrors(s: Source, p: nat)
    requires p <= |s.text|
    ensures Identifier(s, p).Err? ==> !TooDeep(Identifier(s, p).error)
  {
  }

  lemma TypedVariableErrors(s: Source, p: nat)
    requires p <= |s.text|
    ensures TypedVariableAt(s, p).Err? ==> !TooDeep(TypedVariableAt(s, p).error)
  {
  }

  lemma {:induction false} VariablesErrors(s: Source, p: nat, vars: seq<string>)
    requires p <= |s.text|
    ensures VariablesAt(s, p, vars).Err? ==> !TooDeep(VariablesAt(s, p, vars).error)
    decreases |s.text| - p, 1
  {
    TypedVariableErrors(s, p);
    AfterVariableErrors(s, p, vars, TypedVariableAt(s, p));
  }

  lemma {:induction false} AfterVariableErrors(s: Source, p: nat, vars: seq<string>, variable: Parsed<string>)
    requires p <= |s.text| && (variable.Ok? ==> p < variable.value.1 <= |s.text|)
    requires variable.Err? ==> !TooDeep(variable.error)
    ensures AfterVariable(s, p, vars, variable).Err? ==> !TooDeep(AfterVariable(s, p, vars, variable).error)
    decreases |s.text| - p, 0
  {
    if variable.Ok? && StartsWith(s, variable.value.1, ",") {
      VariablesErrors(s, SkipSpace(s, variable.value.1 + 1), vars + [variable.value.0]);
    }
  }

  lemma PrefixErrors(s: Source, p: nat)
    requires p <= |s.text|
    ensures PrefixAt(s, p).Err? ==> !TooDeep(PrefixAt(s, p).error)
  {
    match Consume(s, SkipSpace(s, p), '[')
    case Err(_) =>
    case Ok(p1) => VariablesErrors(s, SkipSpace(s, p1), []);
  }

  // ================================================================ terms

  lemma {:induction false} TermFits(s: Source, limits: Limits, p: nat, d: nat)
    requires p <= |s.text| && d <= p
    ensures Fits(TermAt(s, limits, p, d), TermAt(s, Unlimited(s), p, d))
    decreases |s.text| - p, 0
  {
    LexicalErrors(s, SkipSpace(s, p));
    match Identifier(s, SkipSpace(s, p))
    case Err(_) =>
    case Ok((name, p1)) => AfterNameFits(s, limits, name, SkipSpace(s, p1), d);
  }

  lemma {:induction false} AfterNameFits(s: Source, limits: Limits, name: string, p: nat, d: nat)
    requires p <= |s.text| && d <= p
    ensures Fits(AfterName(s, limits, name, p, d), AfterName(s, Unlimited(s), name, p, d))
    decreases |s.text| - p, 3
  {
    if Peek(s, p) == Some('(') && Peek(s, SkipSpace(s, p + 1)) != Some(')') {
      ArgumentsFit(s, limits, SkipSpace(s, p + 1), d + 1, []);
    }
  }

  lemma {:induction false} ArgumentsFit(s: Source, limits: Limits, p: nat, d: nat, args: seq<Term>)
    requires p <= |s.text| && d <= p
    ensures Fits(ArgumentsAt(s, limits, p, d, args), ArgumentsAt(s, Unlimited(s), p, d, args))
    decreases |s.text| - p, 1
  {
    TermFits(s, limits, p, d);
    match TermAt(s, Unlimited(s), p, d)
    case Err(_) =>
    case Ok((t, p1)) => ArgumentsRestFit(s, limits, p1, d, args + [t]);
  }

  lemma {:induction false} ArgumentsRestFit(s: Source, limits: Limits, p: nat, d: nat, args: seq<Term>)
    requires p <= |s.text| && d <= p
    ensures Fits(ArgumentsRest(s, limits, p, d, args), ArgumentsRest(s, Unlimited(s), p, d, args))
    decreases |s.text| - p, 2
  {
    if StartsWith(s, SkipSpace(s, p), ",") {
      ArgumentsFit(s, limits, SkipSpace(s, SkipSpace(s, p) + 1), d, args);
    }
  }

  lemma RelationRestFits(s: Source, limits: Limits, first: Term, p: nat)
    requires p <= |s.text|
    ensures Fits(RelationRest(s, limits, first, p), RelationRest(s, Unlimited(s), first, p))
  {
    var q := SkipSpace(s, p);
    var relation := RelationAt(s, q);
    match relation
    case None =>
    case Some(negated) => TermFits(s, limits, SkipSpace(s, q + (if negated then 2 else 1)), 0);
  }

  lemma AtomicFits(s: Source, limits: Limits, p: nat)
    requires p <= |s.text|
    ensures Fits(AtomicAt(s, limits, p), AtomicAt(s, Unlimited(s), p))
  {
    TermFits(s, limits, p, 0);
    var first := TermAt(s, Unlimited(s), p, 0);
    if first.Ok? {
      RelationRestFits(s, limits, first.value.0, first.value.1);
    }
  }

  // ================================================================ formulas

  lemma {:induction false} UnaryFits(s: Source, limits: Limits, p: nat, h: nat)
    requires p <= |s.text| && h <= 5 * p + 4
    ensures Fits(UnaryAt(s, limits, p, h), UnaryAt(s, Unlimited(s), p, h))
    decreases |s.text| - p, 1
  {
    PrimaryFits(s, limits, SkipSpace(s, p), h);
  }

  lemma {:induction false} PrimaryFits(s: Source, limits: Limits, p: nat, h: nat)
    requires p <= |s.text| && h <= 5 * p + 4
    ensures Fits(PrimaryAt(s, limits, p, h), PrimaryAt(s, Unlimited(s), p, h))
    decreases |s.text| - p, 0
  {
    match KindAt(s, p)
    case Negation => UnaryFits(s, limits, SkipSpace(s, p + 1), h + 1);
    case Quantifier(universal) => QuantifiedFits(s, limits, p + 1, h, universal);
    case Parenthesis => IffFits(s, limits, p + 1, h + 1);
    case Atomic => AtomicFits(s, limits, p);
    case _ =>
  }

  lemma {:induction false} QuantifiedFits(s: Source, limits: Limits, p: nat, h: nat, universal: bool)
    requires p <= |s.text| && h <= 5 * p + 4
    ensures Fits(QuantifiedAt(s, limits, p, h, universal), QuantifiedAt(s, Unlimited(s), p, h, universal))
    decreases |s.text| - p, 2
  {
    PrefixErrors(s, p);
    match PrefixAt(s, p)
    case Err(_) =>
    case Ok((vars, p1)) => UnaryFits(s, limits, p1, h + 1);
  }

  lemma {:induction false} AndFits(s: Source, limits: Limits, p: nat, h: nat)
    requires p <= |s.text| && h <= 5 * p + 3
    ensures Fits(AndAt(s, limits, p, h), AndAt(s, Unlimited(s), p, h))
    decreases |s.text| - p, 2
  {
    UnaryFits(s, limits, p, h + 1);
    match UnaryAt(s, Unlimited(s), p, h + 1)
    case Err(_) =>
    case Ok((f, q)) => AndRestFits(s, limits, q, h, [f]);
  }

  lemma {:induction false} AndRestFits(s: Source, limits: Limits, p0: nat, h: nat, operands: seq<Formula>)
    requires p0 <= |s.text| && h <= 5 * p0 + 3 && operands != []
    ensures Fits(AndRest(s, limits, p0, h, operands), AndRest(s, Unlimited(s), p0, h, operands))
    decreases |s.text| - p0, 6
  {
    var p := SkipSpace(s, p0);
    if StartsWith(s, p, "&") {
      UnaryFits(s, limits, SkipSpace(s, p + 1), h + 1);
      match UnaryAt(s, Unlimited(s), SkipSpace(s, p + 1), h + 1)
      case Err(_) =>
      case Ok((f, q)) => AndRestFits(s, limits, q, h, operands + [f]);
    }
  }

  lemma {:induction false} OrFits(s: Source, limits: Limits, p: nat, h: nat)
    requires p <= |s.text| && h <= 5 * p + 2
    ensures Fits(OrAt(s, limits, p, h), OrAt(s, Unlimited(s), p, h))
    decreases |s.text| - p, 3
  {
    AndFits(s, limits, p, h + 1);
    match AndAt(s, Unlimited(s), p, h + 1)
    case Err(_) =>
    case Ok((f, q)) => OrRestFits(s, limits, q, h, [f]);
  }

  lemma {:induction false} OrRestFits(s: Source, limits: Limits, p0: nat, h: nat, operands: seq<Formula>)
    requires p0 <= |s.text| && h <= 5 * p0 + 2 && operands != []
    ensures Fits(OrRest(s, limits, p0, h, operands), OrRest(s, Unlimited(s), p0, h, operands))
    decreases |s.text| - p0, 6
  {
    var p := SkipSpace(s, p0);
    if StartsWith(s, p, "|") {
      AndFits(s, limits, SkipSpace(s, p + 1), h + 1);
      match AndAt(s, Unlimited(s), SkipSpace(s, p + 1), h + 1)
      case Err(_) =>
      case Ok((f, q)) => OrRestFits(s, limits, q, h, operands + [f]);
    }
  }

  lemma {:induction false} ImpliesFits(s: Source, limits: Limits, p: nat, h: nat)
    requires p <= |s.text| && h <= 5 * p + 1
    ensures Fits(ImpliesAt(s, limits, p, h), ImpliesAt(s, Unlimited(s), p, h))
    decreases |s.text| - p, 4
  {
    OrFits(s, limits, p, h + 1);
    match OrAt(s, Unlimited(s), p, h + 1)
    case Err(_) =>
    case Ok((f, q)) => ImpliesRestFits(s, limits, q, h, f);
  }

  lemma {:induction false} ImpliesRestFits(s: Source, limits: Limits, p0: nat, h: nat, left: Formula)
    requires p0 <= |s.text| && h <= 5 * p0 + 1
    ensures Fits(ImpliesRest(s, limits, p0, h, left), ImpliesRest(s, Unlimited(s), p0, h, left))
    decreases |s.text| - p0, 6
  {
    var p := SkipSpace(s, p0);
    if StartsWith(s, p, "=>") || StartsWith(s, p, "<=") {
      ImpliesFits(s, limits, SkipSpace(s, p + 2), h + 1);
    }
  }

  lemma {:induction false} IffFits(s: Source, limits: Limits, p: nat, h: nat)
    requires p <= |s.text| && h <= 5 * p
    ensures Fits(IffAt(s, limits, p, h), IffAt(s, Unlimited(s), p, h))
    decreases |s.text| - p, 5
  {
    ImpliesFits(s, limits, p, h + 1);
    match ImpliesAt(s, Unlimited(s), p, h + 1)
    case Err(_) =>
    case Ok((f, q)) => IffRestFits(s, limits, q, h, f);
  }

  lemma {:induction false} IffRestFits(s: Source, limits: Limits, p0: nat, h: nat, left: Formula)
    requires p0 <= |s.text| && h <= 5 * p0
    ensures Fits(IffRest(s, limits, p0, h, left), IffRest(s, Unlimited(s), p0, h, left))
    decreases |s.text| - p0, 6
  {
    var p := SkipSpace(s, p0);
    if StartsWith(s, p, "<=>") || StartsWith(s, p, "<~>") {
      ImpliesFits(s, limits, SkipSpace(s, p + 3), h + 1);
      match ImpliesAt(s, Unlimited(s), SkipSpace(s, p + 3), h + 1)
      case Err(_) =>
      case Ok((f, q)) =>
        IffRestFits(s, limits, q, h, if StartsWith(s, p, "<=>") then Iff(left, f) else Not(Iff(left, f)));
    }
  }

  /** At every position, the limited parse is the unlimited one or a depth error. */
  lemma LimitedParse(s: Source, limits: Limits, p: nat)
    requires p <= |s.text|
    ensures Fits(IffAt(s, limits, p, 0), IffAt(s, Unlimited(s), p, 0))
    ensures Fits(TermAt(s, limits, p, 0), TermAt(s, Unlimited(s), p, 0))
  {
    IffFits(s, limits, p, 0);
    TermFits(s, limits, p, 0);
  }
}
