/** How many tokens reformatting loses in a script without quoted symbols (format.rs:254-343). There the
    formatter and the lexer agree on what is a literal and what is a comment, so that the only harm is
    the glueing of literals, and each literal glued to the one before costs one token. */
module FormatGlue {
  import opened SmtLexer
  import opened Format
  import opened FormatTokens

  /** No quoted symbol anywhere. */
  predicate Unquoted(s: string) {
    forall n {:trigger UnquotedAt(s, n)} :: 0 <= n <= |s| ==> UnquotedAt(s, n)
  }

  predicate UnquotedAt(s: string, n: nat)
    requires n <= |s|
  {
    !Lex(s[..n]).mode.InQuoted?
  }

  /** A literal begins here after blanks and another literal, with nothing but literals, comments and
      closing parentheses before them on the line. */
  predicate GluesAt(s: string, j: nat)
    requires j < |s|
  {
    s[j] == '"' && Lex(s[..j]).mode.Between? && AfterLiteral(s, j) && LayoutAt(s, j).lineStart
  }

  /** How many literals begin glued to the one before, in the first n characters. */
  function Glued(s: string, n: nat): nat
    requires n <= |s|
  {
    if n == 0 then 0 else Glued(s, n - 1) + (if GluesAt(s, n - 1) then 1 else 0)
  }

  /** The formatter's flags l, the lexer on the script (i) and on what is written (o), after some
      literals were glued. */
  ghost predicate Related(l: Layout, i: Lexer, o: Lexer, glued: nat, after: bool) {
    && !i.mode.InQuoted? && !o.mode.InQuoted?
    && l.inString == i.mode.InLiteral? == o.mode.InLiteral?
    && l.inComment == i.mode.InComment? == o.mode.InComment?
    && (i.mode.InAtom? ==> o.mode.InAtom?) && (i.mode.AfterQuote? ==> o.mode.AfterQuote? && after)
    && (after ==> i.mode.Between? || i.mode.AfterQuote?)
    && (l.pending ==> !l.lineStart && i.mode.Between?)
    && (o.mode.InAtom? ==> !l.lineStart)
    && (i.mode.Between? && o.mode.InAtom? ==> l.pending)
    && (i.mode.Between? && o.mode.AfterQuote? ==> l.pending || l.lineStart)
    && (i.mode.Between? && l.lineStart ==> (o.mode.AfterQuote? <==> after))
    && |i.tokens| + |Ended(i.mode)| == |o.tokens| + |Ended(o.mode)| + glued
  }

  /** After one more character, of which i takes c and o takes c after the blanks before it. */
  ghost predicate RelatedNext(l: Layout, i: Lexer, o: Lexer, glued: nat, after: bool, c: char) {
    var glues := Glues(l, i.mode, after, c);
    Related(Flags(l, c), Next(i, c), o, if glues then glued + 1 else glued, AfterNext(Next(i, c).mode, after, c))
  }

  lemma SilentStep(l: Layout, i: Lexer, o: Lexer, glued: nat, after: bool, c: char)
    requires Related(l, i, o, glued, after) && Silent(l, c)
    ensures RelatedNext(l, i, o, glued, after, c)
  {
  }

  lemma InsideStep(l: Layout, i: Lexer, o: Lexer, glued: nat, after: bool, c: char)
    requires Related(l, i, o, glued, after) && !Plainly(l)
    ensures RelatedNext(l, i, Next(o, c), glued, after, c)
  {
  }

  /** No blanks are written before the character. */
  lemma BareStep(l: Layout, i: Lexer, o: Lexer, glued: nat, after: bool, c: char, width: nat)
    requires Related(l, i, o, glued, after) && Plainly(l) && !IsBlank(c) && !Next(i, c).mode.InQuoted?
    requires Before(l, c, width) == ""
    ensures RelatedNext(l, i, Next(o, c), glued, after, c)
  {
  }

  /** Some are. */
  lemma SpacedStep(l: Layout, i: Lexer, o: Lexer, glued: nat, after: bool, c: char, width: nat)
    requires Related(l, i, o, glued, after) && Plainly(l) && !IsBlank(c) && !Next(i, c).mode.InQuoted?
    requires Before(l, c, width) != ""
    ensures RelatedNext(l, i, Next(Settled(o), c), glued, after, c)
  {
  }

  lemma AnyStep(l: Layout, i: Lexer, o: Lexer, glued: nat, after: bool, c: char, command: bool, width: nat)
    requires Related(l, i, o, glued, after) && !Next(i, c).mode.InQuoted?
    ensures RelatedNext(l, i, Feed(o, Written(l, c, command, width)), glued, after, c)
  {
    if Silent(l, c) {
      SilentStep(l, i, o, glued, after, c);
    } else {
      OutputNext(l, o, c, command, width);
      if !Plainly(l) {
        InsideStep(l, i, o, glued, after, c);
      } else if Before(l, c, width) == "" {
        BareStep(l, i, o, glued, after, c, width);
      } else {
        SpacedStep(l, i, o, glued, after, c, width);
      }
    }
  }

  /** What the lexer on the output makes of a character that is written. */
  lemma OutputNext(l: Layout, o: Lexer, c: char, command: bool, width: nat)
    requires !Silent(l, c) && (Plainly(l) ==> Outside(o.mode)) && (l.pending ==> Plainly(l))
    ensures Feed(o, Written(l, c, command, width))
         == Next(if Before(l, c, width) == "" then o else Settled(o), c)
  {
    var start := if Before(l, c, width) == "" then o else Settled(o);
    WrittenParts(l, o, c, command, width);
    AfterBlanks(l, o, c, width);
    AfterBreak(l, start, c, command, width);
  }

  lemma AfterBlanks(l: Layout, o: Lexer, c: char, width: nat)
    requires !Silent(l, c) && (Plainly(l) ==> Outside(o.mode)) && (l.pending ==> Plainly(l))
    ensures Feed(o, Before(l, c, width) + [c]) == Next(if Before(l, c, width) == "" then o else Settled(o), c)
  {
    var n := BeforeSpaces(l, c, width);
    var before := Before(l, c, width);
    assert before != "" ==> Plainly(l);
    SpacesThen(o, before, n, c);
  }

  lemma SpacesThen(o: Lexer, before: string, n: nat, c: char)
    requires before == Spaces(n) && (before != "" ==> Outside(o.mode))
    ensures Feed(o, before + [c]) == Next(if before == "" then o else Settled(o), c)
  {
    FeedAppend(o, before, [c]);
    FeedOne(Feed(o, before), c);
    if before != "" {
      FeedSpaces(o, n);
    }
  }

  lemma AfterBreak(l: Layout, o: Lexer, c: char, command: bool, width: nat)
    requires Plainly(l) ==> Outside(o.mode)
    ensures Feed(Next(o, c), After(l, c, command, width)) == Next(o, c)
  {
    if Breaks(l, c, command) {
      FeedIndent(Next(o, c).tokens, l.indent * width);
    }
  }

  ghost predicate Simulated(s: string, n: nat, o: Lexer)
    requires n <= |s|
  {
    Related(LayoutAt(s, n), Lex(s[..n]), o, Glued(s, n), AfterLiteral(s, n))
  }

  lemma SimulationStep(s: string, n: nat, o: Lexer, command: bool, width: nat)
    requires n < |s| && Simulated(s, n, o) && UnquotedAt(s, n + 1)
    ensures Simulated(s, n + 1, Feed(o, Written(LayoutAt(s, n), s[n], command, width)))
  {
    Places(s, n);
    AnyStep(LayoutAt(s, n), Lex(s[..n]), o, Glued(s, n), AfterLiteral(s, n), s[n], command, width);
    InPhase(s, n, o);
  }

  lemma InPhase(s: string, n: nat, o: Lexer)
    requires n < |s| && Simulated(s, n, o)
    ensures GluesAt(s, n) <==> Glues(LayoutAt(s, n), Lex(s[..n]).mode, AfterLiteral(s, n), s[n])
  {
  }

  lemma LexMore(s: string, n: nat, width: nat, ahead: nat -> bool, o: Lexer)
    requires n < |s| && o == Lex(FormatPrefix(s, n, width, ahead))
    ensures Feed(o, Written(LayoutAt(s, n), s[n], ahead(n + 1), width)) == Lex(FormatPrefix(s, n + 1, width, ahead))
  {
    FeedAppend(EMPTY, FormatPrefix(s, n, width, ahead), Written(LayoutAt(s, n), s[n], ahead(n + 1), width));
  }

  lemma Simulation(s: string, n: nat, width: nat, ahead: nat -> bool) returns (o: Lexer)
    requires n <= |s| && Unquoted(s)
    ensures o == Lex(FormatPrefix(s, n, width, ahead)) && Simulated(s, n, o)
  {
    o := EMPTY;
    assert s[..0] == "";
    for k := 0 to n
      invariant o == Lex(FormatPrefix(s, k, width, ahead)) && Simulated(s, k, o)
    {
      assert UnquotedAt(s, k + 1);
      SimulationStep(s, k, o, ahead(k + 1), width);
      LexMore(s, k, width, ahead, o);
      o := Feed(o, Written(LayoutAt(s, k), s[k], ahead(k + 1), width));
    }
  }

  /** Reformatting loses one token for every literal glued to the one before, and no other. */
  lemma TokensLost(s: string, width: nat)
    requires Unquoted(s)
    ensures |Tokens(s)| == |Tokens(Formatted(s, width))| + Glued(s, |s|)
  {
    var o := Simulation(s, |s|, width, Ahead(s));
    assert s[..|s|] == s;
  }

  lemma {:induction false} GluedNone(s: string, n: nat)
    requires n <= |s|
    ensures Glued(s, n) == 0 <==> forall j :: 0 <= j < n ==> !GluesAt(s, j)
  {
    if n > 0 {
      GluedNone(s, n - 1);
    }
  }

  lemma InPhaseHarm(l: Layout, i: Lexer, o: Lexer, glued: nat, after: bool, held: string, c: char, command: bool,
                    lineNext: bool, width: nat)
    requires Related(l, i, o, glued, after) && Fits(l, i.mode, held, after)
    ensures Harm(l, i.mode, held, after, c, command, lineNext, width) <==> Glues(l, i.mode, after, c)
  {
  }

  lemma HarmIsGlue(s: string, n: nat, width: nat)
    requires n < |s| && Unquoted(s)
    ensures HarmAt(s, n, width) <==> GluesAt(s, n)
  {
    var o := Simulation(s, n, width, Ahead(s));
    InPhase(s, n, o);
    FitsAlways(s, n);
    InPhaseHarm(LayoutAt(s, n), Lex(s[..n]), o, Glued(s, n), AfterLiteral(s, n), Held(s, n), s[n],
                CommandAhead(s, n + 1), n + 1 < |s| && s[n + 1] == '\n', width);
  }

  lemma NothingHeld(s: string)
    requires Unquoted(s)
    ensures !EndsHeld(s)
  {
    var o := Simulation(s, |s|, 0, Ahead(s));
    FitsAlways(s, |s|);
    assert s[..|s|] == s;
  }

  /** For every indent width: among the scripts without quoted symbols exactly those without glued
      literals keep their tokens. */
  lemma UnquotedKeptIff(s: string, width: nat)
    requires Unquoted(s)
    ensures Tokens(Formatted(s, width)) == Tokens(s) <==> forall j :: 0 <= j < |s| ==> !GluesAt(s, j)
  {
    TokensKeptIff(s, width);
    NothingHeld(s);
    forall n | 0 <= n < |s|
      ensures HarmAt(s, n, width) <==> GluesAt(s, n)
    {
      HarmIsGlue(s, n, width);
    }
  }

  /** The script "a" "b": two literals and a blank between them. */
  predicate TwoLiterals(s: string) {
    |s| == 7 && s[0] == '"' && s[1] == 'a' && s[2] == '"' && s[3] == ' ' && s[4] == '"' && s[5] == 'b' && s[6] == '"'
  }

  /** At the start of a line they come out as one literal. */
  lemma TwoLiteralsGlued(s: string, width: nat)
    requires TwoLiterals(s)
    ensures Tokens(Formatted(s, width)) != Tokens(s)
  {
    assert |s[..0]| == 0 && s[..7] == s;
    for n := 0 to 7
      invariant n <= 4 ==> LayoutAt(s, n).lineStart && LayoutAt(s, n).inComment == false
      invariant n <= 4 ==> LayoutAt(s, n).inString == (n == 1 || n == 2)
      invariant n == 0 ==> Lex(s[..n]).mode == Between
      invariant n == 1 ==> Lex(s[..n]).mode == InLiteral("")
      invariant n == 2 ==> Lex(s[..n]).mode.InLiteral?
      invariant n == 3 ==> Lex(s[..n]).mode.AfterQuote?
      invariant n == 4 ==> Lex(s[..n]).mode == Between && AfterLiteral(s, n)
      invariant n >= 5 ==> HarmAt(s, 4, width)
    {
      LexNext(s, n + 1);
    }
    TokensKeptIff(s, width);
  }

  /** A quoted symbol of two lines: |, a line break, a blank, a letter, |. */
  predicate TwoLineSymbol(s: string) {
    |s| == 5 && s[0] == '|' && s[1] == '\n' && s[2] == ' ' && s[3] == 'a' && s[4] == '|'
  }

  /** Its second line is indented anew, so that it becomes another symbol. */
  lemma SymbolDistorted(s: string, width: nat)
    requires TwoLineSymbol(s)
    ensures Tokens(Formatted(s, width)) != Tokens(s)
  {
    assert |s[..0]| == 0;
    LexNext(s, 1);
    LexNext(s, 2);
    LexNext(s, 3);
    assert Lex(s[..3]).mode.InQuoted?;
    assert LayoutAt(s, 1) == Layout(0, false, false, false, false);
    assert LayoutAt(s, 2) == Layout(0, false, false, true, false) == LayoutAt(s, 3);
    assert Held(s, 2) == "" && Held(s, 3) == "" + [' '];
    assert Before(LayoutAt(s, 3), 'a', width) == Spaces(0 * width) == "";
    assert HarmAt(s, 3, width);
    TokensKeptIff(s, width);
  }
}
