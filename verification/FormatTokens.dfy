/** When reformatting keeps the tokens (format.rs:254-343). */
module FormatTokens {
  import opened SmtLexer
  import opened Format

  // ================================================================ what changes a token

  /** The blanks of the script that are not yet, or never, written. */
  function Held(s: string, n: nat): string
    requires n <= |s|
  {
    if n > 0 && Silent(LayoutAt(s, n - 1), s[n - 1]) then Held(s, n - 1) + [s[n - 1]] else ""
  }

  /** Only blanks since the quotation mark that ended a literal. */
  predicate AfterLiteral(s: string, n: nat)
    requires n <= |s|
  {
    Lex(s[..n]).mode.AfterQuote? || (n > 0 && IsBlank(s[n - 1]) && AfterLiteral(s, n - 1))
  }

  /** A literal begins after blanks that are not written and another literal: the two become one. */
  predicate Glues(l: Layout, mode: Mode, after: bool, c: char) {
    c == '"' && Plainly(l) && l.lineStart && mode.Between? && after
  }

  /** Inside a literal, a quoted symbol or a comment that the formatter takes for plain text, other
      blanks are written than stand there, or a line is broken. A break is no change at the end of a
      comment's line. */
  predicate Distorts(l: Layout, mode: Mode, held: string, c: char, command: bool, lineNext: bool, width: nat) {
    !Outside(mode) && (Before(l, c, width) != held || (Breaks(l, c, command) && !(mode.InComment? && lineNext)))
  }

  predicate Harm(l: Layout, mode: Mode, held: string, after: bool, c: char, command: bool, lineNext: bool, width: nat) {
    !Silent(l, c) && (Glues(l, mode, after, c) || Distorts(l, mode, held, c, command, lineNext, width))
  }

  predicate HarmAt(s: string, n: nat, width: nat)
    requires n < |s|
  {
    Harm(LayoutAt(s, n), Lex(s[..n]).mode, Held(s, n), AfterLiteral(s, n), s[n], CommandAhead(s, n + 1),
         n + 1 < |s| && s[n + 1] == '\n', width)
  }

  /** The script ends in a literal, a quoted symbol or a comment, with blanks that are not written. */
  predicate EndsHeld(s: string) {
    !Outside(Lex(s).mode) && Held(s, |s|) != ""
  }

  // ================================================================ texts in progress

  function TextOf(mode: Mode): string {
    match mode
    case Between => ""
    case InAtom(t) => t
    case InLiteral(t) => t
    case AfterQuote(t) => t
    case InQuoted(t) => t
    case InComment(t) => t
  }

  predicate SameKind(a: Mode, b: Mode) {
    && a.Between? == b.Between? && a.InAtom? == b.InAtom? && a.InLiteral? == b.InLiteral?
    && a.AfterQuote? == b.AfterQuote? && a.InQuoted? == b.InQuoted? && a.InComment? == b.InComment?
  }

  function Final(l: Lexer): seq<Token> { l.tokens + Ended(l.mode) }

  predicate Blanks(s: string) {
    forall i :: 0 <= i < |s| ==> IsBlank(s[i])
  }

  /** Blanks inside a text join it. */
  lemma {:induction false} FeedText(o: Lexer, blanks: string)
    requires !Outside(o.mode) && Blanks(blanks)
    ensures var o' := Feed(o, blanks);
            o'.tokens == o.tokens && SameKind(o'.mode, o.mode) && TextOf(o'.mode) == TextOf(o.mode) + blanks
  {
    if blanks == "" {
      assert TextOf(o.mode) + "" == TextOf(o.mode);
    } else {
      var init, last := blanks[..|blanks| - 1], blanks[|blanks| - 1];
      FeedText(o, init);
      assert TextOf(o.mode) + init + [last] == TextOf(o.mode) + blanks;
    }
  }

  lemma SpacesBlank(n: nat)
    ensures Blanks(Spaces(n))
  {
  }

  lemma {:induction false} FeedSpaces(l: Lexer, n: nat)
    requires Outside(l.mode)
    ensures Feed(l, Spaces(n)) == if n == 0 then l else Settled(l)
  {
    if n > 0 {
      FeedSpaces(l, n - 1);
      assert Spaces(n)[..n - 1] == Spaces(n - 1);
      NextBlank(Feed(l, Spaces(n - 1)), ' ');
    }
  }

  /** Before is a run of spaces. */
  lemma BeforeSpaces(l: Layout, c: char, width: nat) returns (n: nat)
    ensures Before(l, c, width) == Spaces(n)
  {
    assert Spaces(0) == "" && Spaces(1) == Spaces(0) + " " == " ";
    n := if Before(l, c, width) == "" then 0
         else if l.lineStart && Plainly(l) && c != ';' && c != '"' then l.indent * width else 1;
  }

  // ================================================================ tokens untouched

  /** The formatter's flags l, the lexer on the script (i) and on what is written (o); held and after
      as above. */
  ghost predicate Kept(l: Layout, i: Lexer, o: Lexer, held: string, after: bool) {
    && Fits(l, i.mode, held, after)
    && if Outside(i.mode) then
         && Outside(o.mode) && (if i.mode.Between? then Settled(o) == i else o == i)
         && (held == "" ==> o == i)
         && (i.mode.Between? && o.mode.InAtom? ==> l.pending)
         && (Plainly(l) && i.mode.Between? ==> (o.mode.AfterQuote? <==> after))
       else
         o.tokens == i.tokens && SameKind(o.mode, i.mode) && TextOf(o.mode) + held == TextOf(i.mode)
  }

  /** What flags, mode, held blanks and `after` have to do with each other in any script. */
  ghost predicate Fits(l: Layout, mode: Mode, held: string, after: bool) {
    && Blanks(held) && (held != "" ==> Plainly(l) && (l.pending || l.lineStart))
    && (l.pending ==> held != "" && !l.lineStart)
    && (mode.InAtom? || mode.AfterQuote? ==> held == "")
    && (Plainly(l) && mode.InAtom? ==> !l.lineStart)
    && (after ==> mode.Between? || mode.AfterQuote?) && (mode.AfterQuote? ==> after)
    && (Plainly(l) && after && mode.Between? ==> held != "")
  }

  function HeldNext(l: Layout, held: string, c: char): string { if Silent(l, c) then held + [c] else "" }

  predicate AfterNext(mode': Mode, after: bool, c: char) { mode'.AfterQuote? || (IsBlank(c) && after) }

  lemma FitsNext(l: Layout, i: Lexer, held: string, after: bool, c: char)
    requires Fits(l, i.mode, held, after)
    ensures Fits(Flags(l, c), Next(i, c).mode, HeldNext(l, held, c), AfterNext(Next(i, c).mode, after, c))
  {
  }

  lemma SilentKept(l: Layout, i: Lexer, o: Lexer, held: string, after: bool, c: char)
    requires Kept(l, i, o, held, after) && Silent(l, c)
    ensures Kept(Flags(l, c), Next(i, c), o, held + [c], AfterNext(Next(i, c).mode, after, c))
  {
    FitsNext(l, i, held, after, c);
    assert TextOf(o.mode) + held + [c] == TextOf(o.mode) + (held + [c]);
    assert i.tokens + [] == i.tokens;
  }

  /** Once input and output lexer are in the same state, all is well. */
  lemma SameKept(l: Layout, i: Lexer, held: string, after: bool, c: char)
    requires Fits(l, i.mode, held, after) && !Silent(l, c)
    ensures Kept(Flags(l, c), Next(i, c), Next(i, c), "", AfterNext(Next(i, c).mode, after, c))
  {
    FitsNext(l, i, held, after, c);
    var i' := Next(i, c);
    assert TextOf(i'.mode) + "" == TextOf(i'.mode) && i'.tokens + [] == i'.tokens;
  }

  /** A character outside texts has the same effect on both lexers. */
  lemma OutsideSame(l: Layout, i: Lexer, o: Lexer, held: string, after: bool, c: char, width: nat)
    requires Kept(l, i, o, held, after) && Outside(i.mode) && !Silent(l, c) && !Glues(l, i.mode, after, c)
    ensures Feed(o, Before(l, c, width) + [c]) == Next(i, c)
  {
    var n := BeforeSpaces(l, c, width);
    FeedAppend(o, Before(l, c, width), [c]);
    FeedSpaces(o, n);
    FeedOne(Feed(o, Before(l, c, width)), c);
    assert i.tokens + [] == i.tokens && o.tokens + [] == o.tokens;
    if n == 0 { NoSpacesSame(l, i, o, held, after, c, width); }
    else { SpacesSame(l, i, o, held, after, c, width); }
  }

  lemma NoSpacesSame(l: Layout, i: Lexer, o: Lexer, held: string, after: bool, c: char, width: nat)
    requires Kept(l, i, o, held, after) && Outside(i.mode) && !Silent(l, c) && !Glues(l, i.mode, after, c)
    requires Before(l, c, width) == ""
    ensures Next(o, c) == Next(i, c)
  {
    assert i.tokens + [] == i.tokens && o.tokens + [] == o.tokens;
  }

  lemma SpacesSame(l: Layout, i: Lexer, o: Lexer, held: string, after: bool, c: char, width: nat)
    requires Kept(l, i, o, held, after) && Outside(i.mode) && !Silent(l, c) && !Glues(l, i.mode, after, c)
    requires Before(l, c, width) != ""
    ensures Next(Settled(o), c) == Next(i, c)
  {
    assert i.tokens + [] == i.tokens && o.tokens + [] == o.tokens;
  }

  /** Inside a text with the right blanks before the character. */
  lemma InsideSame(l: Layout, i: Lexer, o: Lexer, held: string, after: bool, c: char, width: nat)
    requires Kept(l, i, o, held, after) && !Outside(i.mode) && !Silent(l, c) && Before(l, c, width) == held
    ensures Feed(o, Before(l, c, width) + [c]) == Next(i, c)
  {
    FeedAppend(o, held, [c]);
    FeedText(o, held);
    FeedOne(Feed(o, held), c);
  }

  /** After an opening parenthesis a line break and blanks change nothing. */
  lemma FeedIndent(tokens: seq<Token>, n: nat)
    ensures Feed(Lexer(tokens, Between), "\n" + Spaces(n)) == Lexer(tokens, Between)
  {
    var l := Lexer(tokens, Between);
    FeedAppend(l, "\n", Spaces(n));
    FeedChar(l, "\n");
    FeedSpaces(l, n);
    assert tokens + [] == tokens;
  }

  lemma WrittenParts(l: Layout, o: Lexer, c: char, command: bool, width: nat)
    requires !Silent(l, c)
    ensures Feed(o, Written(l, c, command, width))
         == Feed(Feed(o, Before(l, c, width) + [c]), After(l, c, command, width))
  {
    FeedAppend(o, Before(l, c, width) + [c], After(l, c, command, width));
  }

  /** No harm, and no line broken in a text. */
  lemma KeptNext(l: Layout, i: Lexer, o: Lexer, held: string, after: bool, c: char, command: bool, lineNext: bool,
                 width: nat)
    requires Kept(l, i, o, held, after) && !Silent(l, c) && !Glues(l, i.mode, after, c)
    requires !Distorts(l, i.mode, held, c, command, lineNext, width) && (Outside(i.mode) || !Breaks(l, c, command))
    ensures Kept(Flags(l, c), Next(i, c), Feed(o, Written(l, c, command, width)), "",
      AfterNext(Next(i, c).mode, after, c))
  {
    WrittenParts(l, o, c, command, width);
    if Outside(i.mode) {
      OutsideSame(l, i, o, held, after, c, width);
      if Breaks(l, c, command) { FeedIndent(Next(i, c).tokens, l.indent * width); }
    } else {
      InsideSame(l, i, o, held, after, c, width);
    }
    SameKept(l, i, held, after, c);
  }

  // ================================================================ a comment's line broken at its end

  /** The comment is over in the output, one character early. */
  ghost predicate Early(l: Layout, i: Lexer, o: Lexer) {
    Plainly(l) && i.mode.InComment? && o == Lexer(i.tokens + [Comment(i.mode.text)], Between)
  }

  lemma EarlyBegins(l: Layout, i: Lexer, o: Lexer, held: string, after: bool, c: char, command: bool, width: nat)
    requires Kept(l, i, o, held, after) && !Silent(l, c) && i.mode.InComment? && Before(l, c, width) == held
    requires Breaks(l, c, command)
    ensures Early(Flags(l, c), Next(i, c), Feed(o, Written(l, c, command, width)))
  {
    WrittenParts(l, o, c, command, width);
    InsideSame(l, i, o, held, after, c, width);
    var m, n := Next(i, c), l.indent * width;
    FeedAppend(m, "\n", Spaces(n));
    FeedChar(m, "\n");
    FeedSpaces(Next(m, '\n'), n);
    var ended := m.tokens + [Comment(m.mode.text)];
    assert ended + [] == ended;
  }

  lemma EarlyEnds(l: Layout, i: Lexer, o: Lexer, after: bool, width: nat, command: bool)
    requires Early(l, i, o) && Fits(l, i.mode, "", after)
    ensures Kept(Flags(l, '\n'), Next(i, '\n'), Feed(o, Written(l, '\n', command, width)), "",
                 AfterNext(Next(i, '\n').mode, after, '\n'))
  {
    assert Written(l, '\n', command, width) == "" + ['\n'] + "" == ['\n'];
    FeedOne(o, '\n');
    SameKept(l, i, "", after, '\n');
    assert o.tokens + [] == o.tokens;
  }

  // ================================================================ tokens apart

  /** Whatever is written from here on, the tokens of the rest of the script are not reached. */
  ghost predicate Apart(i: Lexer, rest: string, o: Lexer) {
    forall y :: Final(Feed(i, rest)) != Final(Feed(o, y))
  }

  lemma ApartNext(i: Lexer, c: char, rest: string, o: Lexer, w: string)
    requires Apart(i, [c] + rest, o)
    ensures Apart(Next(i, c), rest, Feed(o, w))
  {
    FeedAppend(i, [c], rest);
    FeedOne(i, c);
    forall y
      ensures Final(Feed(Next(i, c), rest)) != Final(Feed(Feed(o, w), y))
    {
      FeedAppend(o, w, y);
    }
  }

  /** A token's characters behind its first mark, as far as they are fixed. */
  function Raw(t: Token): string {
    match t
    case Literal(x) => x + ['"']
    case Unterminated(x) => x
    case Quoted(x) => x + ['|']
    case UnterminatedSymbol(x) => x
    case Comment(x) => x
    case Atom(x) => x
    case Open => ""
    case Close => ""
  }

  function RawOf(mode: Mode): string {
    match mode
    case AfterQuote(x) => x + ['"']
    case _ => TextOf(mode)
  }

  /** The text in progress, or ended, as token number k. */
  ghost predicate Begun(l: Lexer, k: nat, raw: string) {
    || (k < |l.tokens| && raw <= Raw(l.tokens[k]))
    || (k == |l.tokens| && (!Outside(l.mode) || l.mode.AfterQuote?) && raw <= RawOf(l.mode))
  }

  lemma BegunNext(l: Lexer, k: nat, raw: string, c: char)
    requires Begun(l, k, raw)
    ensures Begun(Next(l, c), k, raw)
  {
    if k < |l.tokens| {
      assert Next(l, c).tokens[k] == l.tokens[k];
    } else {
      var now := RawOf(l.mode);
      assert raw <= now <= now + [c];
      match l.mode
      case InLiteral(t) =>
      case AfterQuote(t) => assert t + ['"', '"'] == now + ['"'];
      case InQuoted(t) =>
      case InComment(t) =>
    }
  }

  lemma {:induction false} BegunFeed(l: Lexer, k: nat, raw: string, x: string)
    requires Begun(l, k, raw)
    ensures Begun(Feed(l, x), k, raw)
  {
    if x != "" {
      BegunFeed(l, k, raw, x[..|x| - 1]);
      BegunNext(Feed(l, x[..|x| - 1]), k, raw, x[|x| - 1]);
    }
  }

  lemma BegunFinal(l: Lexer, k: nat, raw: string)
    requires Begun(l, k, raw)
    ensures k < |Final(l)| && raw <= Raw(Final(l)[k])
  {
    if k == |l.tokens| {
      assert Final(l)[k] == Ended(l.mode)[0];
    }
  }

  predicate Incompatible(a: string, b: string) { !(a <= b) && !(b <= a) }

  lemma PrefixesCompatible(a: string, b: string, r: string)
    requires a <= r && b <= r
    ensures !Incompatible(a, b)
  {
    if |a| <= |b| { assert a == r[..|b|][..|a|]; } else { assert b == r[..|a|][..|b|]; }
  }

  lemma IncompatibleApart(i: Lexer, o: Lexer, k: nat, a: string, b: string, rest: string)
    requires Begun(i, k, a) && Begun(o, k, b) && Incompatible(a, b)
    ensures Apart(i, rest, o)
  {
    BegunFeed(i, k, a, rest);
    BegunFinal(Feed(i, rest), k, a);
    forall y
      ensures Final(Feed(i, rest)) != Final(Feed(o, y))
    {
      BegunFeed(o, k, b, y);
      BegunFinal(Feed(o, y), k, b);
      var r := Raw(Final(Feed(o, y))[k]);
      if a <= r { PrefixesCompatible(a, b, r); }
    }
  }

  /** A token that is complete on one side, and another, or the beginning of another, on the other side. */
  lemma CompleteApart(i: Lexer, o: Lexer, k: nat, rest: string)
    requires k < |i.tokens| && k < |o.tokens| && i.tokens[k] != o.tokens[k]
    ensures Apart(i, rest, o)
  {
    FeedGrows(i, rest);
    forall y
      ensures Final(Feed(i, rest)) != Final(Feed(o, y))
    {
      FeedGrows(o, y);
      assert Feed(i, rest).tokens[k] == i.tokens[k] && Feed(o, y).tokens[k] == o.tokens[k];
      assert Final(Feed(i, rest))[k] == i.tokens[k] && Final(Feed(o, y))[k] == o.tokens[k];
    }
  }

  lemma OutputBeyond(i: Lexer, o: Lexer, k: nat, raw: string, rest: string)
    requires k < |i.tokens| && Begun(o, k, raw) && !(raw <= Raw(i.tokens[k]))
    ensures Apart(i, rest, o)
  {
    FeedGrows(i, rest);
    assert Final(Feed(i, rest))[k] == Feed(i, rest).tokens[k] == i.tokens[k];
    forall y
      ensures Final(Feed(i, rest)) != Final(Feed(o, y))
    {
      BegunFeed(o, k, raw, y);
      BegunFinal(Feed(o, y), k, raw);
    }
  }

  lemma InputBeyond(i: Lexer, o: Lexer, k: nat, raw: string, rest: string)
    requires k < |o.tokens| && Begun(Feed(i, rest), k, raw) && !(raw <= Raw(o.tokens[k]))
    ensures Apart(i, rest, o)
  {
    BegunFinal(Feed(i, rest), k, raw);
    forall y
      ensures Final(Feed(i, rest)) != Final(Feed(o, y))
    {
      FeedGrows(o, y);
      assert Final(Feed(o, y))[k] == Feed(o, y).tokens[k] == o.tokens[k];
    }
  }

  // ---------------------------------------------------------------- how harm sets them apart

  lemma GlueApart(l: Layout, i: Lexer, o: Lexer, held: string, after: bool, c: char, command: bool, width: nat,
                  rest: string)
    requires Kept(l, i, o, held, after) && Glues(l, i.mode, after, c)
    ensures Apart(Next(i, c), rest, Feed(o, Written(l, c, command, width)))
  {
    assert Before(l, c, width) == "";
    assert Written(l, c, command, width) == "" + [c] + "" == [c];
    FeedOne(o, c);
    var k := |o.tokens|;
    var o' := Next(o, c);
    assert i.tokens == o.tokens + [Literal(o.mode.text)];
    assert o'.mode == InLiteral(o.mode.text + ['"', '"']);
    assert Begun(o', k, o.mode.text + ['"', '"']);
    assert Next(i, c).tokens[k] == Literal(o.mode.text);
    OutputBeyond(Next(i, c), o', k, o.mode.text + ['"', '"'], rest);
  }

  lemma BlanksPrefix(u: string, a: string, b: string, c: char)
    requires Blanks(a) && Blanks(b) && !IsBlank(c) && u + a + [c] <= u + b + [c]
    ensures a == b
  {
    var x, y := u + a + [c], u + b + [c];
    assert y[..|x|] == x && y[|u| + |a|] == x[|u| + |a|] == c;
    assert forall k :: |u| <= k < |u| + |b| ==> y[k] == b[k - |u|] && IsBlank(y[k]);
    assert |a| == |b|;
    assert a == x[|u|..|u| + |a|] && b == y[|u|..|u| + |b|];
  }

  lemma BlanksDiffer(u: string, a: string, b: string, c: char)
    requires Blanks(a) && Blanks(b) && a != b && !IsBlank(c)
    ensures Incompatible(u + a + [c], u + b + [c])
  {
    if u + a + [c] <= u + b + [c] { BlanksPrefix(u, a, b, c); }
    if u + b + [c] <= u + a + [c] { BlanksPrefix(u, b, a, c); }
  }

  /** What has been read of the text after the character. */
  lemma BegunWith(l: Lexer, blanks: string, c: char)
    requires !Outside(l.mode) && Blanks(blanks) && !IsBlank(c) && !(l.mode.InComment? && c == '\n')
    ensures Begun(Feed(l, blanks + [c]), |l.tokens|, TextOf(l.mode) + blanks + [c])
  {
    FeedAppend(l, blanks, [c]);
    FeedText(l, blanks);
    FeedOne(Feed(l, blanks), c);
  }

  /** Other blanks than those in the script. */
  lemma BlanksApart(l: Layout, i: Lexer, o: Lexer, held: string, after: bool, c: char, command: bool, width: nat,
                    rest: string)
    requires Kept(l, i, o, held, after) && !Outside(i.mode) && !Silent(l, c) && Before(l, c, width) != held
    ensures Apart(Next(i, c), rest, Feed(o, Written(l, c, command, width)))
  {
    var before, k := Before(l, c, width), |o.tokens|;
    var n := BeforeSpaces(l, c, width);
    SpacesBlank(n);
    assert Plainly(l) && !IsBlank(c);
    WrittenParts(l, o, c, command, width);
    FeedAppend(o, held, [c]);
    FeedText(o, held);
    FeedOne(Feed(o, held), c);
    if i.mode.InComment? && c == '\n' {
      FeedAppend(o, before, [c]);
      FeedText(o, before);
      FeedOne(Feed(o, before), c);
      CompleteApart(Next(i, c), Feed(o, before + [c]), k, rest);
    } else {
      BegunWith(o, held, c);
      BegunWith(o, before, c);
      BegunFeed(Feed(o, before + [c]), k, TextOf(o.mode) + before + [c], After(l, c, command, width));
      BlanksDiffer(TextOf(o.mode), held, before, c);
      IncompatibleApart(Next(i, c), Feed(o, Written(l, c, command, width)), k,
                        TextOf(o.mode) + held + [c], TextOf(o.mode) + before + [c], rest);
    }
  }

  /** A comment's line is broken before its end. */
  lemma EarlyApart(l: Layout, i: Lexer, o: Lexer, rest: string)
    requires Early(l, i, o) && rest != "" && rest[0] != '\n'
    ensures Apart(i, rest, o)
  {
    var k := |i.tokens|;
    assert rest == [rest[0]] + rest[1..];
    FeedAppend(i, [rest[0]], rest[1..]);
    FeedOne(i, rest[0]);
    var raw := i.mode.text + [rest[0]];
    BegunFeed(Next(i, rest[0]), k, raw, rest[1..]);
    InputBeyond(i, o, k, raw, rest);
  }

  // ---------------------------------------------------------------- a line more

  function LineBreaks(s: string): nat {
    if s == "" then 0 else LineBreaks(s[..|s| - 1]) + (if s[|s| - 1] == '\n' then 1 else 0)
  }

  lemma {:induction false} LineBreaksAppend(a: string, b: string)
    ensures LineBreaks(a + b) == LineBreaks(a) + LineBreaks(b)
  {
    if b == "" {
      assert a + b == a;
    } else {
      assert (a + b)[..|a + b| - 1] == a + b[..|b| - 1];
      LineBreaksAppend(a, b[..|b| - 1]);
    }
  }

  lemma LineBreaksPrefix(a: string, b: string)
    requires a <= b
    ensures LineBreaks(a) <= LineBreaks(b)
  {
    assert b == a + b[|a|..];
    LineBreaksAppend(a, b[|a|..]);
  }

  lemma {:induction false} NoLineBreaks(s: string)
    requires '\n' !in s
    ensures LineBreaks(s) == 0
  {
    if s != "" {
      NoLineBreaks(s[..|s| - 1]);
    }
  }

  lemma LineBreakOne(c: char)
    ensures LineBreaks([c]) == if c == '\n' then 1 else 0
  {
    assert [c][..0] == "";
  }

  /** The same text is in progress, with more line breaks in the output than in the script. */
  ghost predicate Taller(i: Lexer, o: Lexer) {
    && |i.tokens| == |o.tokens| && SameKind(i.mode, o.mode)
    && (i.mode.InLiteral? || i.mode.InQuoted? || i.mode.AfterQuote?)
    && LineBreaks(TextOf(o.mode)) > LineBreaks(TextOf(i.mode))
  }

  /** Characters that do not end the text join it. */
  lemma {:induction false} FeedInside(o: Lexer, w: string)
    requires (o.mode.InLiteral? && '"' !in w) || (o.mode.InQuoted? && '|' !in w)
    ensures var o' := Feed(o, w);
            o'.tokens == o.tokens && SameKind(o'.mode, o.mode) && TextOf(o'.mode) == TextOf(o.mode) + w
  {
    if w == "" {
      assert TextOf(o.mode) + "" == TextOf(o.mode);
    } else {
      var init, last := w[..|w| - 1], w[|w| - 1];
      FeedInside(o, init);
      assert TextOf(o.mode) + init + [last] == TextOf(o.mode) + w;
    }
  }

  /** A text with a line break more. */
  lemma TallerBy(m: Lexer, more: string)
    requires (m.mode.InLiteral? || m.mode.InQuoted?) && Blanks(more)
    ensures Taller(m, Feed(m, "\n" + more))
  {
    FeedInside(m, "\n" + more);
    LineBreaksAppend(TextOf(m.mode), "\n" + more);
    LineBreaksAppend("\n", more);
    LineBreakOne('\n');
    assert ['\n'] == "\n";
  }

  lemma TallerBegins(l: Layout, i: Lexer, o: Lexer, held: string, after: bool, c: char, command: bool, width: nat)
    requires Kept(l, i, o, held, after) && !Outside(i.mode) && !i.mode.InComment? && !Silent(l, c)
    requires Before(l, c, width) == held && Breaks(l, c, command)
    ensures Taller(Next(i, c), Feed(o, Written(l, c, command, width)))
  {
    WrittenParts(l, o, c, command, width);
    InsideSame(l, i, o, held, after, c, width);
    SpacesBlank(l.indent * width);
    TallerBy(Next(i, c), Spaces(l.indent * width));
  }

  /** The blanks written before a character, and what is written after it, end no text. */
  lemma WrittenInside(l: Layout, c: char, command: bool, width: nat)
    requires !Silent(l, c)
    ensures c != '"' ==> '"' !in Written(l, c, command, width)
    ensures c != '|' ==> '|' !in Written(l, c, command, width)
  {
    var n := BeforeSpaces(l, c, width);
    SpacesBlank(n);
    SpacesBlank(l.indent * width);
    NotAmong(Before(l, c, width), c, After(l, c, command, width), '"');
    NotAmong(Before(l, c, width), c, After(l, c, command, width), '|');
  }

  lemma NotAmong(before: string, c: char, after: string, q: char)
    requires q !in before && q !in after
    ensures c != q ==> q !in before + [c] + after
  {
  }

  lemma WrittenBreaks(l: Layout, c: char, command: bool, width: nat)
    requires !Silent(l, c)
    ensures LineBreaks(Written(l, c, command, width)) >= LineBreaks([c])
  {
    LineBreaksAppend(Before(l, c, width) + [c], After(l, c, command, width));
    LineBreaksAppend(Before(l, c, width), [c]);
  }

  lemma TallerInText(l: Layout, i: Lexer, o: Lexer, c: char, command: bool, width: nat)
    requires Taller(i, o) && !Silent(l, c) && ((i.mode.InLiteral? && c != '"') || (i.mode.InQuoted? && c != '|'))
    ensures Taller(Next(i, c), Feed(o, Written(l, c, command, width)))
  {
    WrittenInside(l, c, command, width);
    WrittenBreaks(l, c, command, width);
    FeedInside(o, Written(l, c, command, width));
    LineBreaksAppend(TextOf(o.mode), Written(l, c, command, width));
    LineBreaksAppend(TextOf(i.mode), [c]);
  }

  /** Blanks and the mark that ends the text. */
  lemma FeedClosing(o: Lexer, before: string, c: char)
    requires Blanks(before) && ((o.mode.InLiteral? && c == '"') || (o.mode.InQuoted? && c == '|'))
    ensures Feed(o, before + [c])
         == if o.mode.InLiteral? then Lexer(o.tokens, AfterQuote(TextOf(o.mode) + before))
            else Lexer(o.tokens + [Quoted(TextOf(o.mode) + before)], Between)
  {
    FeedAppend(o, before, [c]);
    FeedInside(o, before);
    FeedOne(Feed(o, before), c);
  }

  lemma ClosedApart(i: Lexer, o: Lexer, before: string, c: char, rest: string)
    requires Taller(i, o) && Blanks(before) && ((i.mode.InLiteral? && c == '"') || (i.mode.InQuoted? && c == '|'))
    ensures Taller(Next(i, c), Feed(o, before + [c])) || Apart(Next(i, c), rest, Feed(o, before + [c]))
  {
    FeedClosing(o, before, c);
    LineBreaksAppend(TextOf(o.mode), before);
    if i.mode.InQuoted? {
      CompleteApart(Next(i, c), Feed(o, before + [c]), |i.tokens|, rest);
    }
  }

  lemma TallerCloses(l: Layout, i: Lexer, o: Lexer, c: char, command: bool, width: nat, rest: string)
    requires Taller(i, o) && !Silent(l, c) && ((i.mode.InLiteral? && c == '"') || (i.mode.InQuoted? && c == '|'))
    ensures Taller(Next(i, c), Feed(o, Written(l, c, command, width)))
         || Apart(Next(i, c), rest, Feed(o, Written(l, c, command, width)))
  {
    var n := BeforeSpaces(l, c, width);
    SpacesBlank(n);
    assert Before(l, c, width) + [c] + "" == Before(l, c, width) + [c];
    ClosedApart(i, o, Before(l, c, width), c, rest);
  }

  /** A literal ends in the script; in the output it is still open to a second quotation mark. */
  lemma LiteralEndsFirst(i: Lexer, o: Lexer, c: char, rest: string)
    requires Taller(i, o) && i.mode.AfterQuote? && c != '"'
    ensures Apart(Next(i, c), rest, o)
  {
    var x, y := i.mode.text, o.mode.text;
    LineBreaksAppend(x, ['"']);
    LineBreaksAppend(y, ['"']);
    if y + ['"'] <= x + ['"'] { LineBreaksPrefix(y + ['"'], x + ['"']); }
    assert Next(i, c).tokens[|i.tokens|] == Literal(x);
    OutputBeyond(Next(i, c), o, |i.tokens|, y + ['"'], rest);
  }

  lemma LiteralsEnd(i: Lexer, o: Lexer, c: char, w: string, rest: string)
    requires Taller(i, o) && i.mode.AfterQuote? && c != '"' && w != "" && w[0] != '"'
    ensures Apart(Next(i, c), rest, Feed(o, w))
  {
    assert w == [w[0]] + w[1..];
    FeedAppend(o, [w[0]], w[1..]);
    FeedOne(o, w[0]);
    assert Next(o, w[0]).tokens[|o.tokens|] == Literal(o.mode.text);
    FeedGrows(Next(o, w[0]), w[1..]);
    assert Feed(o, w).tokens[|o.tokens|] == Literal(o.mode.text);
    assert Next(i, c).tokens[|i.tokens|] == Literal(i.mode.text);
    CompleteApart(Next(i, c), Feed(o, w), |i.tokens|, rest);
  }

  lemma LiteralsGoOn(i: Lexer, o: Lexer)
    requires Taller(i, o) && i.mode.AfterQuote?
    ensures Taller(Next(i, '"'), Feed(o, ['"']))
  {
    FeedOne(o, '"');
    LineBreaksAppend(i.mode.text, ['"', '"']);
    LineBreaksAppend(o.mode.text, ['"', '"']);
  }

  lemma TallerAfterQuote(l: Layout, i: Lexer, o: Lexer, c: char, command: bool, width: nat, rest: string)
    requires Taller(i, o) && i.mode.AfterQuote? && !l.pending
    ensures Taller(Next(i, c), Feed(o, Written(l, c, command, width)))
         || Apart(Next(i, c), rest, Feed(o, Written(l, c, command, width)))
  {
    var w := Written(l, c, command, width);
    if c == '"' {
      assert w == "" + ['"'] + "" == ['"'];
      LiteralsGoOn(i, o);
    } else if Silent(l, c) {
      LiteralEndsFirst(i, o, c, rest);
    } else {
      WrittenInside(l, c, command, width);
      LiteralsEnd(i, o, c, w, rest);
    }
  }

  lemma TallerNext(l: Layout, i: Lexer, o: Lexer, held: string, after: bool, c: char, command: bool, width: nat,
                   rest: string)
    requires Taller(i, o) && Fits(l, i.mode, held, after)
    ensures Taller(Next(i, c), Feed(o, Written(l, c, command, width)))
         || Apart(Next(i, c), rest, Feed(o, Written(l, c, command, width)))
  {
    if i.mode.AfterQuote? {
      TallerAfterQuote(l, i, o, c, command, width, rest);
    } else if Silent(l, c) {
      LineBreaksAppend(TextOf(i.mode), [c]);
      LineBreakOne(c);
    } else if (i.mode.InLiteral? && c != '"') || (i.mode.InQuoted? && c != '|') {
      TallerInText(l, i, o, c, command, width);
    } else {
      TallerCloses(l, i, o, c, command, width, rest);
    }
  }

  // ================================================================ the whole script

  /** Tokens kept, or a comment just ended early, ... */
  ghost predicate Good(l: Layout, i: Lexer, o: Lexer, held: string, after: bool, lineHere: bool) {
    Kept(l, i, o, held, after) || (Early(l, i, o) && held == "" && lineHere)
  }

  /** ... or tokens lost for good. */
  ghost predicate Bad(i: Lexer, rest: string, o: Lexer) {
    Taller(i, o) || Apart(i, rest, o)
  }

  /** One more character from a good state. */
  lemma GoodStep(l: Layout, i: Lexer, o: Lexer, held: string, after: bool, c: char, command: bool, width: nat,
                 rest: string)
    requires Good(l, i, o, held, after, c == '\n') && Fits(l, i.mode, held, after) && (command ==> rest != "")
    ensures var lineNext := rest != "" && rest[0] == '\n';
            var i', o' := Next(i, c), Feed(o, Written(l, c, command, width));
            if Harm(l, i.mode, held, after, c, command, lineNext, width) then Bad(i', rest, o')
            else Good(Flags(l, c), i', o', HeldNext(l, held, c), AfterNext(i'.mode, after, c), lineNext)
  {
    var lineNext := rest != "" && rest[0] == '\n';
    var w := Written(l, c, command, width);
    if !Kept(l, i, o, held, after) {
      EarlyEnds(l, i, o, after, width, command);
    } else if Silent(l, c) {
      SilentKept(l, i, o, held, after, c);
    } else if Glues(l, i.mode, after, c) {
      GlueApart(l, i, o, held, after, c, command, width, rest);
    } else if !Outside(i.mode) && Before(l, c, width) != held {
      BlanksApart(l, i, o, held, after, c, command, width, rest);
    } else if !Outside(i.mode) && Breaks(l, c, command) {
      if i.mode.InComment? {
        EarlyBegins(l, i, o, held, after, c, command, width);
        if !lineNext { EarlyApart(Flags(l, c), Next(i, c), Feed(o, w), rest); }
      } else {
        TallerBegins(l, i, o, held, after, c, command, width);
      }
    } else {
      KeptNext(l, i, o, held, after, c, command, lineNext, width);
    }
  }

  lemma BadStep(l: Layout, i: Lexer, o: Lexer, held: string, after: bool, c: char, command: bool, width: nat,
                rest: string)
    requires Bad(i, [c] + rest, o) && Fits(l, i.mode, held, after)
    ensures Bad(Next(i, c), rest, Feed(o, Written(l, c, command, width)))
  {
    if Taller(i, o) {
      TallerNext(l, i, o, held, after, c, command, width, rest);
    } else {
      ApartNext(i, c, rest, o, Written(l, c, command, width));
    }
  }

  lemma {:induction false} FitsAlways(s: string, n: nat)
    requires n <= |s|
    ensures Fits(LayoutAt(s, n), Lex(s[..n]).mode, Held(s, n), AfterLiteral(s, n))
  {
    if n == 0 {
      assert s[..0] == "";
    } else {
      FitsAlways(s, n - 1);
      LexNext(s, n);
      FitsNext(LayoutAt(s, n - 1), Lex(s[..n - 1]), Held(s, n - 1), AfterLiteral(s, n - 1), s[n - 1]);
    }
  }

  lemma CommandNeedsMore(s: string, n: nat)
    requires n <= |s| && CommandAhead(s, n)
    ensures n < |s|
  {
    var ahead := s[n..if n + 20 <= |s| then n + 20 else |s|];
    assert n == |s| ==> ahead == "";
  }

  ghost predicate GoodAt(s: string, n: nat, o: Lexer)
    requires n <= |s|
  {
    Good(LayoutAt(s, n), Lex(s[..n]), o, Held(s, n), AfterLiteral(s, n), n < |s| && s[n] == '\n')
  }

  ghost predicate BadAt(s: string, n: nat, o: Lexer)
    requires n <= |s|
  {
    Bad(Lex(s[..n]), s[n..], o)
  }

  predicate HarmBefore(s: string, n: nat, width: nat)
    requires n <= |s|
  {
    exists j :: 0 <= j < n && HarmAt(s, j, width)
  }

  /** What belongs to place n + 1, from what belongs to place n. */
  lemma Places(s: string, n: nat)
    requires n < |s|
    ensures var l, i, c := LayoutAt(s, n), Lex(s[..n]), s[n];
            && LayoutAt(s, n + 1) == Flags(l, c) && Lex(s[..n + 1]) == Next(i, c)
            && Held(s, n + 1) == HeldNext(l, Held(s, n), c)
            && AfterLiteral(s, n + 1) == AfterNext(Next(i, c).mode, AfterLiteral(s, n), c)
            && s[n..] == [c] + s[n + 1..]
  {
    LexNext(s, n + 1);
  }

  lemma StepAt(s: string, n: nat, o: Lexer, width: nat)
    requires n < |s|
    ensures var o' := Feed(o, Written(LayoutAt(s, n), s[n], CommandAhead(s, n + 1), width));
            && (BadAt(s, n, o) ==> BadAt(s, n + 1, o'))
            && (GoodAt(s, n, o) ==> if HarmAt(s, n, width) then BadAt(s, n + 1, o') else GoodAt(s, n + 1, o'))
  {
    var l, i, held, after := LayoutAt(s, n), Lex(s[..n]), Held(s, n), AfterLiteral(s, n);
    var c, command, rest := s[n], CommandAhead(s, n + 1), s[n + 1..];
    Places(s, n);
    FitsAlways(s, n);
    if command { CommandNeedsMore(s, n + 1); }
    if BadAt(s, n, o) { BadStep(l, i, o, held, after, c, command, width, rest); }
    if GoodAt(s, n, o) { GoodStep(l, i, o, held, after, c, command, width, rest); }
  }

  lemma {:induction false} GoodOrBad(s: string, n: nat, width: nat)
    requires n <= |s|
    ensures var o := Lex(FormatPrefix(s, n, width, Ahead(s)));
            if HarmBefore(s, n, width) then BadAt(s, n, o) else GoodAt(s, n, o)
  {
    if n == 0 {
      assert s[..0] == "";
    } else {
      var out := FormatPrefix(s, n - 1, width, Ahead(s));
      GoodOrBad(s, n - 1, width);
      FeedAppend(EMPTY, out, Written(LayoutAt(s, n - 1), s[n - 1], CommandAhead(s, n), width));
      StepAt(s, n - 1, Lex(out), width);
      HarmMore(s, n - 1, width);
    }
  }

  lemma HarmMore(s: string, n: nat, width: nat)
    requires n < |s|
    ensures HarmBefore(s, n + 1, width) <==> HarmBefore(s, n, width) || HarmAt(s, n, width)
  {
  }

  lemma BadEnd(s: string, out: string)
    requires BadAt(s, |s|, Lex(out))
    ensures Tokens(out) != Tokens(s)
  {
    var i, o := Lex(s), Lex(out);
    assert s[..|s|] == s && s[|s|..] == "";
    if Taller(i, o) {
      var k := |i.tokens|;
      assert Final(i)[k] == Ended(i.mode)[0] && Final(o)[k] == Ended(o.mode)[0];
    } else {
      assert Final(Feed(i, "")) != Final(Feed(o, ""));
    }
  }

  lemma GoodEnd(s: string, out: string)
    requires GoodAt(s, |s|, Lex(out))
    ensures Tokens(out) == Tokens(s) <==> !EndsHeld(s)
  {
    var i, o, held := Lex(s), Lex(out), Held(s, |s|);
    assert s[..|s|] == s;
    if Outside(i.mode) {
      assert i.tokens + [] == i.tokens;
    } else {
      var k := |i.tokens|;
      assert Final(i)[k] == Ended(i.mode)[0] && Final(o)[k] == Ended(o.mode)[0];
      assert |TextOf(i.mode)| == |TextOf(o.mode)| + |held|;
      if held == "" { assert TextOf(o.mode) + held == TextOf(o.mode); }
    }
  }

  /** For every script and indent width: the reformatted script has the script's tokens if and only if
      no literal is glued to another, no text is distorted, and none is left open with blanks at the end. */
  lemma TokensKeptIff(s: string, width: nat)
    ensures Tokens(Formatted(s, width)) == Tokens(s)
       <==> (forall n :: 0 <= n < |s| ==> !HarmAt(s, n, width)) && !EndsHeld(s)
  {
    GoodOrBad(s, |s|, width);
    var out := Formatted(s, width);
    if HarmBefore(s, |s|, width) {
      BadEnd(s, out);
    } else {
      GoodEnd(s, out);
    }
  }

  method FormatSmtlibScript(script: string, indentWidth: nat) returns (result: string)
    ensures result == Formatted(script, indentWidth)
    ensures Tokens(result) == Tokens(script)
       <==> (forall n :: 0 <= n < |script| ==> !HarmAt(script, n, indentWidth)) && !EndsHeld(script)
  {
    result := FormatLoop(script, indentWidth, Ahead(script));
    TokensKeptIff(script, indentWidth);
  }
}
