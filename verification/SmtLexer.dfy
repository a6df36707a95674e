/** Tokens of an SMT-LIB text, as the solver's lexer separates them. */
module SmtLexer {
  import opened RustText

  /** What stands between blanks, parentheses, quotation marks, bars and semicolons is one atom here;
      the solver splits atoms further, each by its own characters alone
      (nixie-core/src/smtlib/lexer.rs:163-300). */
  datatype Token = Open | Close | Atom(text: string) | Literal(text: string) | Quoted(text: string)
    | Comment(text: string) | Unterminated(text: string) | UnterminatedSymbol(text: string)

  /** AfterQuote: a quotation mark that ends its literal unless another one follows. */
  datatype Mode = Between | InAtom(text: string) | InLiteral(text: string) | AfterQuote(text: string)
    | InQuoted(text: string) | InComment(text: string)

  datatype Lexer = Lexer(tokens: seq<Token>, mode: Mode)

  /** The token in progress, ended. */
  function Ended(mode: Mode): seq<Token> {
    match mode
    case Between => []
    case InAtom(t) => [Atom(t)]
    case InLiteral(t) => [Unterminated(t)]
    case AfterQuote(t) => [Literal(t)]
    case InQuoted(t) => [UnterminatedSymbol(t)]
    case InComment(t) => [Comment(t)]
  }

  predicate IsAtomChar(c: char) {
    !IsSpace(c) && c != '(' && c != ')' && c != '"' && c != ';' && c != '|'
  }

  /** A character that belongs to no token in progress. */
  function Begin(tokens: seq<Token>, c: char): Lexer {
    if IsSpace(c) then Lexer(tokens, Between)
    else if c == '(' then Lexer(tokens + [Open], Between)
    else if c == ')' then Lexer(tokens + [Close], Between)
    else if c == '"' then Lexer(tokens, InLiteral(""))
    else if c == ';' then Lexer(tokens, InComment(""))
    else if c == '|' then Lexer(tokens, InQuoted(""))
    else Lexer(tokens, InAtom([c]))
  }

  function Next(l: Lexer, c: char): Lexer {
    match l.mode
    case Between => Begin(l.tokens, c)
    case InAtom(t) => if IsAtomChar(c) then l.(mode := InAtom(t + [c])) else Begin(l.tokens + [Atom(t)], c)
    case InLiteral(t) => l.(mode := if c == '"' then AfterQuote(t) else InLiteral(t + [c]))
    case AfterQuote(t) => if c == '"' then l.(mode := InLiteral(t + ['"', '"'])) else Begin(l.tokens + [Literal(t)], c)
    case InQuoted(t) => if c == '|' then Lexer(l.tokens + [Quoted(t)], Between) else l.(mode := InQuoted(t + [c]))
    case InComment(t) => if c == '\n' then Lexer(l.tokens + [Comment(t)], Between) else l.(mode := InComment(t + [c]))
  }

  function Feed(l: Lexer, s: string): Lexer {
    if s == "" then l else Next(Feed(l, s[..|s| - 1]), s[|s| - 1])
  }

  const EMPTY := Lexer([], Between)

  function Lex(s: string): Lexer { Feed(EMPTY, s) }

  function Tokens(s: string): seq<Token> {
    var l := Lex(s);
    l.tokens + Ended(l.mode)
  }

  // ================================================================ feeding the lexer

  lemma {:induction false} FeedAppend(l: Lexer, a: string, b: string)
    ensures Feed(l, a + b) == Feed(Feed(l, a), b)
  {
    if b == "" {
      assert a + b == a;
    } else {
      assert (a + b)[..|a + b| - 1] == a + b[..|b| - 1];
      FeedAppend(l, a, b[..|b| - 1]);
    }
  }

  lemma {:induction false} FeedGrows(l: Lexer, s: string)
    ensures l.tokens <= Feed(l, s).tokens
  {
    if s != "" {
      FeedGrows(l, s[..|s| - 1]);
    }
  }

  lemma FeedOne(l: Lexer, c: char)
    ensures Feed(l, [c]) == Next(l, c)
  {
    assert [c][..0] == "";
  }

  /** One character, whichever way its string is written. */
  lemma FeedChar(l: Lexer, s: string)
    requires |s| == 1
    ensures Feed(l, s) == Next(l, s[0])
  {
    assert s[..0] == "";
  }

  lemma LexNext(s: string, n: nat)
    requires 0 < n <= |s|
    ensures Lex(s[..n]) == Next(Lex(s[..n - 1]), s[n - 1])
  {
    assert s[..n][..n - 1] == s[..n - 1];
  }

  /** Inside no literal, no quoted symbol and no comment. */
  predicate Outside(mode: Mode) { mode.Between? || mode.InAtom? || mode.AfterQuote? }

  /** The lexer after a blank. */
  function Settled(l: Lexer): Lexer { Lexer(l.tokens + Ended(l.mode), Between) }

  lemma NextBlank(l: Lexer, c: char)
    requires Outside(l.mode) && IsSpace(c)
    ensures Next(l, c) == Settled(l)
  {
    assert l.tokens + [] == l.tokens;
  }

  // ================================================================ what tokens look like

  /** A name that is one atom: not empty, no blanks, parentheses, quotes, bars or semicolons. */
  predicate PlainName(name: string) {
    name != "" && forall i :: 0 <= i < |name| ==> IsAtomChar(name[i])
  }

  predicate OneLine(s: string) { '\n' !in s }

  /** Atoms are plain names, comments have no line break. */
  predicate ProperToken(t: Token) {
    (t.Atom? ==> PlainName(t.text)) && (t.Comment? ==> OneLine(t.text))
  }

  predicate AllProper(ts: seq<Token>) {
    forall i :: 0 <= i < |ts| ==> ProperToken(ts[i])
  }

  predicate ProperMode(mode: Mode) {
    (mode.InAtom? ==> PlainName(mode.text)) && (mode.InComment? ==> OneLine(mode.text))
  }

  lemma NextProper(l: Lexer, c: char)
    requires AllProper(l.tokens) && ProperMode(l.mode)
    ensures AllProper(Next(l, c).tokens) && ProperMode(Next(l, c).mode)
  {
  }

  lemma {:induction false} FeedProper(l: Lexer, s: string)
    requires AllProper(l.tokens) && ProperMode(l.mode)
    ensures AllProper(Feed(l, s).tokens) && ProperMode(Feed(l, s).mode)
  {
    if s != "" {
      FeedProper(l, s[..|s| - 1]);
      NextProper(Feed(l, s[..|s| - 1]), s[|s| - 1]);
    }
  }

  /** Whatever the text. */
  lemma TokensProper(s: string)
    ensures AllProper(Tokens(s))
  {
    FeedProper(EMPTY, s);
  }

  // ================================================================ names and lines

  lemma {:induction false} FeedName(tokens: seq<Token>, name: string, n: nat)
    requires PlainName(name) && 0 < n <= |name|
    ensures Feed(Lexer(tokens, Between), name[..n]) == Lexer(tokens, InAtom(name[..n]))
  {
    assert name[..n][..n - 1] == name[..n - 1];
    if n == 1 {
      assert name[..0] == "" && name[..1] == [name[0]];
    } else {
      FeedName(tokens, name, n - 1);
      assert name[..n] == name[..n - 1] + [name[n - 1]];
    }
  }

  lemma {:induction false} FeedInComment(tokens: seq<Token>, t: string, c: string)
    requires OneLine(c)
    ensures Feed(Lexer(tokens, InComment(t)), c) == Lexer(tokens, InComment(t + c))
  {
    if c == "" {
      assert t + c == t;
    } else {
      FeedInComment(tokens, t, c[..|c| - 1]);
      assert t + c[..|c| - 1] + [c[|c| - 1]] == t + c;
    }
  }
}
