/** The solver's own tokens inside one atom (nixie-core/src/smtlib/lexer.rs:178-383). */
module SmtSymbols {
  import opened RustText
  import opened SmtLexer

  /** The kinds the solver's lexer tells apart; Malformed stands for a token it records an error with,
      upon which the whole script is rejected. */
  datatype Lexeme = LeftParen | RightParen | Symbol(text: string) | Keyword(text: string) | Numeral(text: string)
    | Decimal(text: string) | Hexadecimal(text: string) | Binary(text: string) | StringLiteral(text: string)
    | QuotedSymbol(text: string) | Remark(text: string) | Malformed(text: string)

  predicate IsDigit(c: char) { '0' <= c <= '9' }

  predicate IsHexDigit(c: char) { IsDigit(c) || 'a' <= c <= 'f' || 'A' <= c <= 'F' }

  predicate IsBinaryDigit(c: char) { c == '0' || c == '1' }

  predicate IsMark(c: char) {
    || c == '+' || c == '-' || c == '/' || c == '*' || c == '=' || c == '%' || c == '?' || c == '!' || c == '.'
    || c == '$' || c == '_' || c == '~' || c == '&' || c == '^' || c == '<' || c == '>' || c == '@'
  }

  /** letters says which characters beyond ASCII are letters or digits. */
  predicate IsSymbolChar(letters: char -> bool, c: char) {
    || 'a' <= c <= 'z' || 'A' <= c <= 'Z' || IsDigit(c) || IsMark(c)
    || (c as int >= 128 && letters(c) && !IsSpace(c))
  }

  /** A simple symbol: nothing but symbol characters, and no digit first. */
  predicate IsSymbol(letters: char -> bool, name: string) {
    name != "" && !IsDigit(name[0]) && forall i :: 0 <= i < |name| ==> IsSymbolChar(letters, name[i])
  }

  predicate IsNumeral(name: string) {
    && name != "" && (|name| > 1 ==> name[0] != '0')
    && forall i :: 0 <= i < |name| ==> IsDigit(name[i])
  }

  // ================================================================ one token after the other

  /** Where the characters from i on that fit come to an end. */
  function RunEnd(fits: char -> bool, s: string, i: nat): (j: nat)
    requires i <= |s|
    ensures i <= j <= |s| && (forall k :: i <= k < j ==> fits(s[k])) && (j < |s| ==> !fits(s[j]))
    decreases |s| - i
  {
    if i < |s| && fits(s[i]) then RunEnd(fits, s, i + 1) else i
  }

  function SymbolEnd(letters: char -> bool, s: string, i: nat): (j: nat)
    requires i <= |s|
    ensures i <= j <= |s| && (forall k :: i <= k < j ==> IsSymbolChar(letters, s[k]))
    ensures j < |s| ==> !IsSymbolChar(letters, s[j])
  {
    RunEnd(c => IsSymbolChar(letters, c), s, i)
  }

  /** A numeral, or a decimal if a point follows it. */
  function NumberAt(s: string): (r: (Lexeme, nat))
    requires s != "" && IsDigit(s[0])
    ensures 0 < r.1 <= |s| && (r.0.Numeral? ==> IsNumeral(r.0.text)) && !r.0.Symbol? && !r.0.Remark?
  {
    var n := RunEnd(IsDigit, s, 0);
    var more := if n < |s| && s[n] == '.' then RunEnd(IsDigit, s, n + 1) else n;
    (if n > 1 && s[0] == '0' then Malformed(s[..more])
     else if more > n then Decimal(s[..more])
     else Numeral(s[..n]),
     more)
  }

  /** What a number sign begins. */
  function NumberSignAt(s: string): (r: (Lexeme, nat))
    requires s != ""
    ensures 0 < r.1 <= |s| && !r.0.Numeral? && !r.0.Symbol? && !r.0.Remark?
  {
    if |s| > 1 && (s[1] == 'x' || s[1] == 'X') then
      var n := RunEnd(IsHexDigit, s, 2); (Hexadecimal(s[2..n]), n)
    else if |s| > 1 && (s[1] == 'b' || s[1] == 'B') then
      var n := RunEnd(IsBinaryDigit, s, 2); (Binary(s[2..n]), n)
    else (Malformed("#"), 1)
  }

  /** The first token of an atom, and its length. */
  function First(letters: char -> bool, s: string): (r: (Lexeme, nat))
    requires s != ""
    ensures 0 < r.1 <= |s|
    ensures (r.0.Symbol? ==> IsSymbol(letters, r.0.text)) && (r.0.Numeral? ==> IsNumeral(r.0.text)) && !r.0.Remark?
  {
    if s[0] == ':' then var n := SymbolEnd(letters, s, 1); (Keyword(s[1..n]), n)
    else if s[0] == '#' then NumberSignAt(s)
    else if IsDigit(s[0]) then NumberAt(s)
    else
      var n := SymbolEnd(letters, s, 0);
      if n == 0 then (Malformed([s[0]]), 1) else (Symbol(s[..n]), n)
  }

  function Split(letters: char -> bool, s: string): seq<Lexeme>
    decreases |s|
  {
    if s == "" then []
    else
      var (x, n) := First(letters, s);
      [x] + Split(letters, s[n..])
  }

  function RefinedOne(letters: char -> bool, t: Token): seq<Lexeme> {
    match t
    case Open => [LeftParen]
    case Close => [RightParen]
    case Atom(s) => Split(letters, s)
    case Literal(s) => [StringLiteral(s)]
    case Quoted(s) => [QuotedSymbol(s)]
    case Comment(s) => [Remark(s)]
    case Unterminated(s) => [Malformed(s)]
    case UnterminatedSymbol(s) => [Malformed(s)]
  }

  /** The solver's tokens: no token but an atom is split, and an atom by its own characters alone. */
  function Refined(letters: char -> bool, ts: seq<Token>): seq<Lexeme> {
    if ts == [] then [] else RefinedOne(letters, ts[0]) + Refined(letters, ts[1..])
  }

  // ================================================================ symbols

  lemma SymbolIsPlain(letters: char -> bool, name: string)
    requires IsSymbol(letters, name) || IsNumeral(name)
    ensures PlainName(name)
  {
  }

  lemma SplitOne(letters: char -> bool, s: string, x: Lexeme)
    requires s != "" && First(letters, s) == (x, |s|)
    ensures Split(letters, s) == [x]
  {
    assert s[|s|..] == "";
    assert [x] + [] == [x];
  }

  /** A simple symbol is one token, and so is a numeral. */
  lemma SymbolIsOne(letters: char -> bool, name: string)
    ensures IsSymbol(letters, name) ==> Split(letters, name) == [Symbol(name)]
    ensures IsNumeral(name) ==> Split(letters, name) == [Numeral(name)]
  {
    assert name[..|name|] == name;
    if IsSymbol(letters, name) {
      assert IsSymbolChar(letters, name[0]);
      assert SymbolEnd(letters, name, 0) == |name|;
      SplitOne(letters, name, Symbol(name));
    }
    if IsNumeral(name) {
      assert RunEnd(IsDigit, name, 0) == |name|;
      SplitOne(letters, name, Numeral(name));
    }
  }

  // ================================================================ what the tokens look like

  /** Symbols are simple symbols, numerals numerals, comments single lines. */
  predicate ProperLexeme(letters: char -> bool, x: Lexeme) {
    && (x.Symbol? ==> IsSymbol(letters, x.text)) && (x.Numeral? ==> IsNumeral(x.text))
    && (x.Remark? ==> OneLine(x.text))
  }

  predicate AllProperLexemes(letters: char -> bool, xs: seq<Lexeme>) {
    forall i :: 0 <= i < |xs| ==> ProperLexeme(letters, xs[i])
  }

  lemma ProperLexemesAppend(letters: char -> bool, xs: seq<Lexeme>, ys: seq<Lexeme>)
    ensures AllProperLexemes(letters, xs + ys) <==> AllProperLexemes(letters, xs) && AllProperLexemes(letters, ys)
  {
    assert forall i :: 0 <= i < |xs| ==> (xs + ys)[i] == xs[i];
    assert forall i :: 0 <= i < |ys| ==> (xs + ys)[|xs| + i] == ys[i];
  }

  lemma {:induction false} SplitProper(letters: char -> bool, s: string)
    ensures AllProperLexemes(letters, Split(letters, s))
    decreases |s|
  {
    if s != "" {
      var (x, n) := First(letters, s);
      SplitProper(letters, s[n..]);
      ProperLexemesAppend(letters, [x], Split(letters, s[n..]));
    }
  }

  lemma {:induction false} RefinedProper(letters: char -> bool, ts: seq<Token>)
    requires AllProper(ts)
    ensures AllProperLexemes(letters, Refined(letters, ts))
  {
    if ts != [] {
      RefinedProper(letters, ts[1..]);
      if ts[0].Atom? { SplitProper(letters, ts[0].text); }
      ProperLexemesAppend(letters, RefinedOne(letters, ts[0]), Refined(letters, ts[1..]));
    }
  }

  lemma {:induction false} RefinedAppend(letters: char -> bool, a: seq<Token>, b: seq<Token>)
    ensures Refined(letters, a + b) == Refined(letters, a) + Refined(letters, b)
  {
    if a == [] {
      assert a + b == b;
    } else {
      assert (a + b)[1..] == a[1..] + b;
      RefinedAppend(letters, a[1..], b);
    }
  }
}
