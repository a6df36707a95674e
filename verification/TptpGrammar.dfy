/** The grammar of TPTP formulas as mutually recursive descent functions: the ladder
    iff -> implies -> or -> and -> unary -> atomic that the pushdown parser of tptp.rs replaces.
    Positions index the input; h counts the constructs that are still open around a position,
    because the parser gives up beyond a depth limit. */
module TptpGrammar {
  import opened Prelude
  import opened RustText
  import opened TptpSyntax

  /** Unicode character classes, left open. */
  datatype CharClass = CharClass(isAlnum: char -> bool, isUpper: char -> bool)

  datatype ParseError =
    | ExpectedChar(c: char, at: nat, found: Option<char>)
    | ExpectedIdentifier(at: nat, found: Option<char>)
    | ExpectedVariable(name: string)
    | FormulaTooDeep
    | TermTooDeep

  type Parsed<T> = Result<(T, nat), ParseError>

  const MAX_TPTP_DEPTH: nat := 1024
  const MAX_TPTP_CONTINUATIONS: nat := MAX_TPTP_DEPTH * 4

  /** The two depth limits. */
  datatype Limits = Limits(term: nat, formula: nat)

  /** What stays fixed during a parse. */
  datatype Source = Source(text: string, chars: CharClass)

  // ================================================================ characters

  function Peek(s: Source, p: nat): Option<char> {
    if p < |s.text| then Some(s.text[p]) else None
  }

  function SkipSpace(s: Source, p: nat): (q: nat)
    ensures p <= q && (p <= |s.text| ==> q <= |s.text|)
    decreases |s.text| - p
  {
    if p < |s.text| && IsSpace(s.text[p]) then SkipSpace(s, p + 1) else p
  }

  predicate StartsWith(s: Source, p: nat, token: string) {
    p + |token| <= |s.text| && s.text[p..p + |token|] == token
  }

  function Consume(s: Source, p: nat, c: char): (r: Result<nat, ParseError>)
    ensures r.Ok? ==> r.value == p + 1 <= |s.text|
  {
    if Peek(s, p) == Some(c) then Ok(p + 1) else Err(ExpectedChar(c, p, Peek(s, p)))
  }

  // ================================================================ names

  predicate IsNameChar(s: Source, c: char) {
    s.chars.isAlnum(c) || c == '_' || c == '$'
  }

  function NameEnd(s: Source, p: nat): (q: nat)
    requires p <= |s.text|
    ensures p <= q <= |s.text|
    decreases |s.text| - p
  {
    if p < |s.text| && IsNameChar(s, s.text[p]) then NameEnd(s, p + 1) else p
  }

  /** The closing quote, or the end of the input. */
  function QuoteEnd(s: Source, p: nat): (q: nat)
    requires p <= |s.text|
    ensures p <= q <= |s.text|
    decreases |s.text| - p
  {
    if p < |s.text| && s.text[p] != '\'' then QuoteEnd(s, p + 1) else p
  }

  function Identifier(s: Source, p0: nat): (r: Parsed<string>)
    requires p0 <= |s.text|
    ensures r.Ok? ==> p0 < r.value.1 <= |s.text|
  {
    var p := SkipSpace(s, p0);
    if Peek(s, p) == Some('\'') then
      var q := QuoteEnd(s, p + 1);
      Ok((s.text[p + 1..q], if q < |s.text| then q + 1 else q))
    else
      var q := NameEnd(s, p);
      if q == p then Err(ExpectedIdentifier(p, Peek(s, p))) else Ok((s.text[p..q], q))
  }

  predicate IsVariableName(s: Source, name: string) {
    name != "" && s.chars.isUpper(name[0])
  }

  function VariableAt(s: Source, p: nat): (r: Parsed<string>)
    requires p <= |s.text|
    ensures r.Ok? ==> p < r.value.1 <= |s.text|
  {
    match Identifier(s, p)
    case Err(e) => Err(e)
    case Ok((name, q)) => if IsVariableName(s, name) then Ok((name, q)) else Err(ExpectedVariable(name))
  }

  // ================================================================ terms

  /** A term inside d argument lists. */
  function TermAt(s: Source, limits: Limits, p0: nat, d: nat): (r: Parsed<Term>)
    requires p0 <= |s.text|
    ensures r.Ok? ==> p0 < r.value.1 <= |s.text|
    decreases |s.text| - p0, 0
  {
    if d > limits.term then Err(TermTooDeep)
    else
      match Identifier(s, SkipSpace(s, p0))
      case Err(e) => Err(e)
      case Ok((name, p1)) =>
        AfterName(s, limits, name, SkipSpace(s, p1), d)
  }

  function AfterName(s: Source, limits: Limits, name: string, p: nat, d: nat): (r: Parsed<Term>)
    requires p <= |s.text|
    ensures r.Ok? ==> p <= r.value.1 <= |s.text|
    decreases |s.text| - p, 3
  {
    if Peek(s, p) == Some('(') then
      var p1 := SkipSpace(s, p + 1);
      if Peek(s, p1) != Some(')') then
        match ArgumentsAt(s, limits, p1, d + 1, [])
        case Err(e) => Err(e)
        case Ok((args, q)) => Ok((Function(name, args), q))
      else Ok((Function(name, []), p1 + 1))
    else if IsVariableName(s, name) then Ok((Variable(name), p))
    else Ok((Constant(name), p))
  }

  /** The arguments from here to the closing parenthesis, after those already read. */
  function ArgumentsAt(s: Source, limits: Limits, p: nat, d: nat, args: seq<Term>): (r: Parsed<seq<Term>>)
    requires p <= |s.text|
    ensures r.Ok? ==> p < r.value.1 <= |s.text|
    decreases |s.text| - p, 1
  {
    match TermAt(s, limits, p, d)
    case Err(e) => Err(e)
    case Ok((t, p1)) => ArgumentsRest(s, limits, p1, d, args + [t])
  }

  function ArgumentsRest(s: Source, limits: Limits, p0: nat, d: nat, args: seq<Term>): (r: Parsed<seq<Term>>)
    requires p0 <= |s.text|
    ensures r.Ok? ==> p0 < r.value.1 <= |s.text|
    decreases |s.text| - p0, 2
  {
    var p := SkipSpace(s, p0);
    if StartsWith(s, p, ",") then ArgumentsAt(s, limits, SkipSpace(s, p + 1), d, args)
    else
      match Consume(s, p, ')')
      case Err(e) => Err(e)
      case Ok(p1) => Ok((args, p1))
  }

  function AtomOf(t: Term): Formula {
    match t
    case Function(name, args) => Atom(name, args)
    case Constant(name) => Atom(name, [])
    case Variable(name) => Atom(name, [])
  }

  /** A term, optionally related by = or != to another; = must not begin => . */
  function AtomicAt(s: Source, limits: Limits, p0: nat): (r: Parsed<Formula>)
    requires p0 <= |s.text|
    ensures r.Ok? ==> p0 < r.value.1 <= |s.text|
  {
    match TermAt(s, limits, p0, 0)
    case Err(e) => Err(e)
    case Ok((first, p)) => RelationRest(s, limits, first, p)
  }

  /** Some(true) before != and Some(false) before = . */
  function RelationAt(s: Source, p: nat): (r: Option<bool>)
    ensures r.Some? ==> p + (if r.value then 2 else 1) <= |s.text|
  {
    if StartsWith(s, p, "!=") then Some(true)
    else if Peek(s, p) == Some('=') && Peek(s, p + 1) != Some('>') then Some(false)
    else None
  }

  function RelationRest(s: Source, limits: Limits, first: Term, p0: nat): (r: Parsed<Formula>)
    requires p0 <= |s.text|
    ensures r.Ok? ==> p0 <= r.value.1 <= |s.text|
  {
    var p := SkipSpace(s, p0);
    match RelationAt(s, p)
    case None => Ok((AtomOf(first), p))
    case Some(negated) =>
      match TermAt(s, limits, SkipSpace(s, p + (if negated then 2 else 1)), 0)
      case Err(e) => Err(e)
      case Ok((second, q)) => Ok((if negated then Inequality(first, second) else Equality(first, second), q))
  }

  // ================================================================ quantifier prefixes

  /** Past an optional type annotation after a bound variable. */
  function AnnotationEnd(s: Source, p: nat): (r: Result<nat, ParseError>)
    requires p <= |s.text|
    ensures r.Ok? ==> p <= r.value <= |s.text|
  {
    if Peek(s, p) == Some(':') && p + 1 < |s.text| then
      var next := Peek(s, SkipSpace(s, p + 1));
      if next != Some(']') && next != Some('(') then
        match Identifier(s, SkipSpace(s, p + 1))
        case Err(e) => Err(e)
        case Ok((_, q)) => Ok(SkipSpace(s, q))
      else Ok(p)
    else Ok(p)
  }

  function TypedVariableAt(s: Source, p: nat): (r: Parsed<string>)
    requires p <= |s.text|
    ensures r.Ok? ==> p < r.value.1 <= |s.text|
  {
    match VariableAt(s, p)
    case Err(e) => Err(e)
    case Ok((x, p1)) =>
      match AnnotationEnd(s, SkipSpace(s, p1))
      case Err(e) => Err(e)
      case Ok(p2) => Ok((x, p2))
  }

  function VariablesAt(s: Source, p: nat, vars: seq<string>): (r: Parsed<seq<string>>)
    requires p <= |s.text|
    ensures r.Ok? ==> p < r.value.1 <= |s.text| && |r.value.0| > |vars|
    decreases |s.text| - p, 1
  {
    AfterVariable(s, p, vars, TypedVariableAt(s, p))
  }

  function AfterVariable(s: Source, p: nat, vars: seq<string>, variable: Parsed<string>): (r: Parsed<seq<string>>)
    requires p <= |s.text| && (variable.Ok? ==> p < variable.value.1 <= |s.text|)
    ensures r.Ok? ==> p < r.value.1 <= |s.text| && |r.value.0| > |vars|
    decreases |s.text| - p, 0
  {
    match variable
    case Err(e) => Err(e)
    case Ok((x, q)) =>
      if StartsWith(s, q, ",") then VariablesAt(s, SkipSpace(s, q + 1), vars + [x]) else Ok((vars + [x], q))
  }

  /** "[X, Y, ...]:" with the colon optional. */
  function PrefixAt(s: Source, p: nat): (r: Parsed<seq<string>>)
    requires p <= |s.text|
    ensures r.Ok? ==> p < r.value.1 <= |s.text| && r.value.0 != []
  {
    match Consume(s, SkipSpace(s, p), '[')
    case Err(e) => Err(e)
    case Ok(p1) =>
      match VariablesAt(s, SkipSpace(s, p1), [])
      case Err(e) => Err(e)
      case Ok((vars, p2)) =>
        match Consume(s, p2, ']')
        case Err(e) => Err(e)
        case Ok(p3) =>
          var p4 := SkipSpace(s, p3);
          Ok((vars, SkipSpace(s, if StartsWith(s, p4, ":") then p4 + 1 else p4)))
  }

  // ================================================================ formulas

  function Collapse(operands: seq<Formula>, conjunction: bool): Formula
    requires operands != []
  {
    if |operands| == 1 then operands[0] else if conjunction then And(operands) else Or(operands)
  }

  datatype Kind = Negation | Quantifier(universal: bool) | TrueLiteral | FalseLiteral | Parenthesis | Atomic

  function KindAt(s: Source, p: nat): (k: Kind)
    ensures k.Negation? || k.Quantifier? || k.Parenthesis? ==> p + 1 <= |s.text|
    ensures k.TrueLiteral? ==> p + 5 <= |s.text|
    ensures k.FalseLiteral? ==> p + 6 <= |s.text|
  {
    if StartsWith(s, p, "~") then Negation
    else if StartsWith(s, p, "!") then Quantifier(true)
    else if StartsWith(s, p, "?") then Quantifier(false)
    else if StartsWith(s, p, "$true") then TrueLiteral
    else if StartsWith(s, p, "$false") then FalseLiteral
    else if Peek(s, p) == Some('(') then Parenthesis
    else Atomic
  }

  /** Prefixes bind tightest. */
  function UnaryAt(s: Source, limits: Limits, p0: nat, h: nat): (r: Parsed<Formula>)
    requires p0 <= |s.text|
    ensures r.Ok? ==> p0 < r.value.1 <= |s.text|
    decreases |s.text| - p0, 1
  {
    if h > limits.formula then Err(FormulaTooDeep) else PrimaryAt(s, limits, SkipSpace(s, p0), h)
  }

  function PrimaryAt(s: Source, limits: Limits, p: nat, h: nat): (r: Parsed<Formula>)
    requires p <= |s.text|
    ensures r.Ok? ==> p < r.value.1 <= |s.text|
    decreases |s.text| - p, 0
  {
    match KindAt(s, p)
    case Negation =>
      (match UnaryAt(s, limits, SkipSpace(s, p + 1), h + 1)
       case Err(e) => Err(e)
       case Ok((f, q)) => Ok((Not(f), q)))
    case Quantifier(universal) => QuantifiedAt(s, limits, p + 1, h, universal)
    case TrueLiteral => Ok((True, p + 5))
    case FalseLiteral => Ok((False, p + 6))
    case Parenthesis =>
      (match IffAt(s, limits, p + 1, h + 1)
       case Err(e) => Err(e)
       case Ok((f, p1)) =>
         match Consume(s, SkipSpace(s, p1), ')')
         case Err(e) => Err(e)
         case Ok(q) => Ok((f, q)))
    case Atomic => AtomicAt(s, limits, p)
  }

  function QuantifiedAt(s: Source, limits: Limits, p: nat, h: nat, universal: bool): (r: Parsed<Formula>)
    requires p <= |s.text|
    ensures r.Ok? ==> p < r.value.1 <= |s.text|
    decreases |s.text| - p, 2
  {
    match PrefixAt(s, p)
    case Err(e) => Err(e)
    case Ok((vars, p1)) =>
      match UnaryAt(s, limits, p1, h + 1)
      case Err(e) => Err(e)
      case Ok((f, q)) => Ok((if universal then Forall(vars, f) else Exists(vars, f), q))
  }

  function AndAt(s: Source, limits: Limits, p: nat, h: nat): (r: Parsed<Formula>)
    requires p <= |s.text|
    ensures r.Ok? ==> p < r.value.1 <= |s.text|
    decreases |s.text| - p, 2
  {
    match UnaryAt(s, limits, p, h + 1)
    case Err(e) => Err(e)
    case Ok((f, p1)) => AndRest(s, limits, p1, h, [f])
  }

  /** n-ary: further operands after those already read. */
  function AndRest(s: Source, limits: Limits, p0: nat, h: nat, operands: seq<Formula>): (r: Parsed<Formula>)
    requires p0 <= |s.text| && operands != []
    ensures r.Ok? ==> p0 <= r.value.1 <= |s.text|
    decreases |s.text| - p0, 6
  {
    var p := SkipSpace(s, p0);
    if StartsWith(s, p, "&") then
      match UnaryAt(s, limits, SkipSpace(s, p + 1), h + 1)
      case Err(e) => Err(e)
      case Ok((f, q)) => AndRest(s, limits, q, h, operands + [f])
    else Ok((Collapse(operands, true), p))
  }

  function OrAt(s: Source, limits: Limits, p: nat, h: nat): (r: Parsed<Formula>)
    requires p <= |s.text|
    ensures r.Ok? ==> p < r.value.1 <= |s.text|
    decreases |s.text| - p, 3
  {
    match AndAt(s, limits, p, h + 1)
    case Err(e) => Err(e)
    case Ok((f, p1)) => OrRest(s, limits, p1, h, [f])
  }

  function OrRest(s: Source, limits: Limits, p0: nat, h: nat, operands: seq<Formula>): (r: Parsed<Formula>)
    requires p0 <= |s.text| && operands != []
    ensures r.Ok? ==> p0 <= r.value.1 <= |s.text|
    decreases |s.text| - p0, 6
  {
    var p := SkipSpace(s, p0);
    if StartsWith(s, p, "|") then
      match AndAt(s, limits, SkipSpace(s, p + 1), h + 1)
      case Err(e) => Err(e)
      case Ok((f, q)) => OrRest(s, limits, q, h, operands + [f])
    else Ok((Collapse(operands, false), p))
  }

  function ImpliesAt(s: Source, limits: Limits, p: nat, h: nat): (r: Parsed<Formula>)
    requires p <= |s.text|
    ensures r.Ok? ==> p < r.value.1 <= |s.text|
    decreases |s.text| - p, 4
  {
    match OrAt(s, limits, p, h + 1)
    case Err(e) => Err(e)
    case Ok((f, p1)) => ImpliesRest(s, limits, p1, h, f)
  }

  /** Right-nested; <= swaps its sides, and is not the beginning of <=> . */
  function ImpliesRest(s: Source, limits: Limits, p0: nat, h: nat, left: Formula): (r: Parsed<Formula>)
    requires p0 <= |s.text|
    ensures r.Ok? ==> p0 <= r.value.1 <= |s.text|
    decreases |s.text| - p0, 6
  {
    var p := SkipSpace(s, p0);
    if StartsWith(s, p, "=>") then
      match ImpliesAt(s, limits, SkipSpace(s, p + 2), h + 1)
      case Err(e) => Err(e)
      case Ok((f, q)) => Ok((Implies(left, f), q))
    else if StartsWith(s, p, "<=") && !StartsWith(s, p, "<=>") then
      match ImpliesAt(s, limits, SkipSpace(s, p + 2), h + 1)
      case Err(e) => Err(e)
      case Ok((f, q)) => Ok((Implies(f, left), q))
    else Ok((left, p))
  }

  function IffAt(s: Source, limits: Limits, p: nat, h: nat): (r: Parsed<Formula>)
    requires p <= |s.text|
    ensures r.Ok? ==> p < r.value.1 <= |s.text|
    decreases |s.text| - p, 5
  {
    match ImpliesAt(s, limits, p, h + 1)
    case Err(e) => Err(e)
    case Ok((f, p1)) => IffRest(s, limits, p1, h, f)
  }

  /** Left-associative; <~> is a negated <=> . */
  function IffRest(s: Source, limits: Limits, p0: nat, h: nat, left: Formula): (r: Parsed<Formula>)
    requires p0 <= |s.text|
    ensures r.Ok? ==> p0 <= r.value.1 <= |s.text|
    decreases |s.text| - p0, 6
  {
    var p := SkipSpace(s, p0);
    if StartsWith(s, p, "<=>") || StartsWith(s, p, "<~>") then
      match ImpliesAt(s, limits, SkipSpace(s, p + 3), h + 1)
      case Err(e) => Err(e)
      case Ok((f, q)) => IffRest(s, limits, q, h, if StartsWith(s, p, "<=>") then Iff(left, f) else Not(Iff(left, f)))
    else Ok((left, p))
  }
}
