/** The text of an S-expression, read back (tptp.rs:109-141, 392-479). */
module SexpTokens {
  import opened SmtLib
  import opened SmtLexer
  import opened SmtReader
  import opened SmtSymbols

  predicate AllPlain(s: Sexp) {
    match s
    case Sym(name) => PlainName(name)
    case Num(digits) => PlainName(digits)
    case List(items) => forall i :: 0 <= i < |items| ==> AllPlain(items[i])
  }

  function TokensOf(s: Sexp): seq<Token> {
    match s
    case Sym(name) => [Atom(name)]
    case Num(digits) => [Atom(digits)]
    case List(items) => [Open] + TokensOfAll(items) + [Close]
  }

  function TokensOfAll(items: seq<Sexp>): seq<Token> {
    if items == [] then [] else TokensOf(items[0]) + TokensOfAll(items[1..])
  }

  // ================================================================ lexing the text

  /** l has read something that is complete at the next blank or parenthesis. */
  ghost predicate Reads(l: Lexer, tokens: seq<Token>) {
    (l.mode.Between? || l.mode.InAtom?) && l.tokens + Ended(l.mode) == tokens
  }

  lemma {:induction false} FeedPrint(tokens: seq<Token>, s: Sexp)
    requires AllPlain(s)
    ensures Reads(Feed(Lexer(tokens, Between), Print(s)), tokens + TokensOf(s))
    ensures s.List? ==> Feed(Lexer(tokens, Between), Print(s)) == Lexer(tokens + TokensOf(s), Between)
    decreases s, 1
  {
    match s
    case Sym(name) =>
      FeedName(tokens, name, |name|);
      assert name[..|name|] == name;
    case Num(digits) =>
      FeedName(tokens, digits, |digits|);
      assert digits[..|digits|] == digits;
    case List(items) =>
      FeedPrintAll(tokens + [Open], items);
      Parenthesized(tokens, PrintAll(items), TokensOfAll(items));
      var all := tokens + TokensOf(s);
      assert all + [] == all;
  }

  lemma Parenthesized(tokens: seq<Token>, text: string, inner: seq<Token>)
    requires Reads(Feed(Lexer(tokens + [Open], Between), text), tokens + [Open] + inner)
    ensures Feed(Lexer(tokens, Between), "(" + text + ")") == Lexer(tokens + ([Open] + inner + [Close]), Between)
  {
    var start := Lexer(tokens, Between);
    FeedChar(start, "(");
    FeedAppend(start, "(", text);
    FeedAppend(start, "(" + text, ")");
    FeedClose(Feed(start, "(" + text), tokens + [Open] + inner, ")");
    Wrapped(tokens, inner);
  }

  lemma Wrapped(tokens: seq<Token>, inner: seq<Token>)
    ensures tokens + [Open] + inner + [Close] == tokens + ([Open] + inner + [Close])
  {
  }

  lemma FeedClose(l: Lexer, tokens: seq<Token>, close: string)
    requires Reads(l, tokens) && |close| == 1 && close[0] == ')'
    ensures Feed(l, close) == Lexer(tokens + [Close], Between)
  {
    FeedChar(l, close);
    assert l.tokens + [] == l.tokens;
  }

  lemma {:induction false} FeedPrintAll(tokens: seq<Token>, items: seq<Sexp>)
    requires forall i :: 0 <= i < |items| ==> AllPlain(items[i])
    ensures Reads(Feed(Lexer(tokens, Between), PrintAll(items)), tokens + TokensOfAll(items))
    decreases items, 0
  {
    if items == [] {
      assert tokens + [] == tokens;
    } else {
      FeedPrint(tokens, items[0]);
      var more := tokens + TokensOf(items[0]);
      assert more + TokensOfAll(items[1..]) == tokens + TokensOfAll(items);
      if |items| == 1 {
        assert more + [] == more;
      } else {
        FeedPrintAll(more, items[1..]);
        Spaced(tokens, Print(items[0]), more, PrintAll(items[1..]));
      }
    }
  }

  lemma Spaced(tokens: seq<Token>, first: string, more: seq<Token>, rest: string)
    requires Reads(Feed(Lexer(tokens, Between), first), more)
    ensures Feed(Lexer(tokens, Between), first + " " + rest) == Feed(Lexer(more, Between), rest)
  {
    var start := Lexer(tokens, Between);
    FeedAppend(start, first, " ");
    FeedChar(Feed(start, first), " ");
    NextBlank(Feed(start, first), ' ');
    FeedAppend(start, first + " ", rest);
  }

  // ================================================================ reading the commands

  lemma {:induction false} ReadSexp(r: Reading, s: Sexp)
    requires r.level > 0
    ensures Read(r, TokensOf(s)) == r.(group := r.group + TokensOf(s))
    ensures Heard(TokensOf(s)) == TokensOf(s)
    decreases s, 1
  {
    match s
    case Sym(name) =>
      ReadMore(r, [], Atom(name));
      assert [] + [Atom(name)] == [Atom(name)];
    case Num(digits) =>
      ReadMore(r, [], Atom(digits));
      assert [] + [Atom(digits)] == [Atom(digits)];
    case List(items) =>
      ReadList(r, items);
  }

  lemma {:induction false} ReadSexps(r: Reading, items: seq<Sexp>)
    requires r.level > 0
    ensures Read(r, TokensOfAll(items)) == r.(group := r.group + TokensOfAll(items))
    ensures Heard(TokensOfAll(items)) == TokensOfAll(items)
    decreases items, 0
  {
    if items == [] {
      assert r.group + [] == r.group;
    } else {
      var first, rest := TokensOf(items[0]), TokensOfAll(items[1..]);
      ReadSexp(r, items[0]);
      ReadSexps(r.(group := r.group + first), items[1..]);
      ReadAppend(r, first, rest);
      HeardAppend(first, rest);
      Associate(r.group, first, rest);
    }
  }

  lemma Associate(a: seq<Token>, b: seq<Token>, c: seq<Token>)
    ensures a + b + c == a + (b + c)
  {
  }

  /** At level 0 a whole list becomes one command. */
  lemma {:induction false} ReadList(r: Reading, items: seq<Sexp>)
    requires r.level == 0 ==> r.group == []
    ensures var ts := TokensOf(List(items));
            Read(r, ts) == if r.level == 0 then r.(groups := r.groups + [ts]) else r.(group := r.group + ts)
    ensures Heard(TokensOf(List(items))) == TokensOf(List(items))
    decreases items, 1
  {
    ReadSexps(ReadToken(r, Open), items);
    ReadBracketed(r, TokensOfAll(items));
    HeardBracketed(TokensOfAll(items));
  }

  lemma ReadBracketed(r: Reading, inner: seq<Token>)
    requires r.level == 0 ==> r.group == []
    requires var begun := ReadToken(r, Open); Read(begun, inner) == begun.(group := begun.group + inner)
    ensures var ts := [Open] + inner + [Close];
            Read(r, ts) == if r.level == 0 then r.(groups := r.groups + [ts]) else r.(group := r.group + ts)
  {
    var begun := ReadToken(r, Open);
    ReadFirst(r, Open);
    ReadAppend(r, [Open], inner);
    ReadMore(r, [Open] + inner, Close);
    Regrouped(r.group, begun.group, inner);
  }

  lemma ReadFirst(r: Reading, t: Token)
    ensures Read(r, [t]) == ReadToken(r, t)
  {
    ReadMore(r, [], t);
    assert [] + [t] == [t];
  }

  lemma Regrouped(group: seq<Token>, begun: seq<Token>, inner: seq<Token>)
    requires begun == group + [Open]
    ensures begun + inner + [Close] == group + ([Open] + inner + [Close])
    ensures group == [] ==> begun + inner + [Close] == [Open] + inner + [Close]
  {
  }

  lemma HeardBracketed(inner: seq<Token>)
    requires Heard(inner) == inner
    ensures Heard([Open] + inner + [Close]) == [Open] + inner + [Close]
  {
    ReadMore(START, [], Open);
    assert [] + [Open] == [Open];
    HeardAppend([Open], inner);
    ReadMore(START, [Open] + inner, Close);
  }

  // ================================================================ the solver's tokens

  /** Every name is a simple symbol. */
  predicate AllSymbols(letters: char -> bool, s: Sexp) {
    match s
    case Sym(name) => IsSymbol(letters, name)
    case Num(digits) => IsNumeral(digits)
    case List(items) => forall i :: 0 <= i < |items| ==> AllSymbols(letters, items[i])
  }

  function LexemesOf(s: Sexp): seq<Lexeme> {
    match s
    case Sym(name) => [Symbol(name)]
    case Num(digits) => [Numeral(digits)]
    case List(items) => [LeftParen] + LexemesOfAll(items) + [RightParen]
  }

  function LexemesOfAll(items: seq<Sexp>): seq<Lexeme> {
    if items == [] then [] else LexemesOf(items[0]) + LexemesOfAll(items[1..])
  }

  lemma RefinedAtom(letters: char -> bool, name: string)
    ensures Refined(letters, [Atom(name)]) == Split(letters, name)
  {
    assert [Atom(name)][1..] == [];
    assert Split(letters, name) + [] == Split(letters, name);
  }

  lemma {:induction false} SymbolsRefined(letters: char -> bool, s: Sexp)
    requires AllSymbols(letters, s)
    ensures AllPlain(s) && Refined(letters, TokensOf(s)) == LexemesOf(s)
    decreases s, 1
  {
    match s
    case Sym(name) =>
      SymbolIsPlain(letters, name);
      SymbolIsOne(letters, name);
      RefinedAtom(letters, name);
    case Num(digits) =>
      SymbolIsPlain(letters, digits);
      SymbolIsOne(letters, digits);
      RefinedAtom(letters, digits);
    case List(items) =>
      AllSymbolsRefined(letters, items);
      RefinedBracketed(letters, TokensOfAll(items));
  }

  lemma RefinedBracketed(letters: char -> bool, inner: seq<Token>)
    ensures Refined(letters, [Open] + inner + [Close]) == [LeftParen] + Refined(letters, inner) + [RightParen]
  {
    RefinedAppend(letters, [Open] + inner, [Close]);
    RefinedAppend(letters, [Open], inner);
    assert [Open][1..] == [] && [Close][1..] == [];
    assert [LeftParen] + [] == [LeftParen] && [RightParen] + [] == [RightParen];
  }

  lemma {:induction false} AllSymbolsRefined(letters: char -> bool, items: seq<Sexp>)
    requires forall i :: 0 <= i < |items| ==> AllSymbols(letters, items[i])
    ensures forall i :: 0 <= i < |items| ==> AllPlain(items[i])
    ensures Refined(letters, TokensOfAll(items)) == LexemesOfAll(items)
    decreases items, 0
  {
    if items != [] {
      SymbolsRefined(letters, items[0]);
      AllSymbolsRefined(letters, items[1..]);
      RefinedAppend(letters, TokensOf(items[0]), TokensOfAll(items[1..]));
    }
  }

  lemma {:induction false} ProperSymbols(letters: char -> bool, s: Sexp)
    requires AllProperLexemes(letters, LexemesOf(s))
    ensures AllSymbols(letters, s)
    decreases s, 1
  {
    match s
    case Sym(name) => assert ProperLexeme(letters, LexemesOf(s)[0]);
    case Num(digits) => assert ProperLexeme(letters, LexemesOf(s)[0]);
    case List(items) =>
      ProperLexemesAppend(letters, [LeftParen] + LexemesOfAll(items), [RightParen]);
      ProperLexemesAppend(letters, [LeftParen], LexemesOfAll(items));
      AllProperSymbols(letters, items);
  }

  lemma {:induction false} AllProperSymbols(letters: char -> bool, items: seq<Sexp>)
    requires AllProperLexemes(letters, LexemesOfAll(items))
    ensures forall i :: 0 <= i < |items| ==> AllSymbols(letters, items[i])
    decreases items, 0
  {
    if items != [] {
      ProperLexemesAppend(letters, LexemesOf(items[0]), LexemesOfAll(items[1..]));
      ProperSymbols(letters, items[0]);
      AllProperSymbols(letters, items[1..]);
    }
  }

  /** The solver's tokens of a printed S-expression are its symbols, numerals and parentheses if and only
      if all its names are simple symbols; a quoted TPTP name with a blank in it, for one, falls apart. */
  lemma ReadsBackIffSymbols(letters: char -> bool, s: Sexp)
    ensures Refined(letters, Tokens(Print(s))) == LexemesOf(s) <==> AllSymbols(letters, s)
  {
    if AllSymbols(letters, s) {
      SymbolsRefined(letters, s);
      FeedPrint([], s);
      assert [] + TokensOf(s) == TokensOf(s);
    }
    if Refined(letters, Tokens(Print(s))) == LexemesOf(s) {
      TokensProper(Print(s));
      RefinedProper(letters, Tokens(Print(s)));
      ProperSymbols(letters, s);
    }
  }

  /** A quoted TPTP name of two words, 'a b' say, falls apart into two atoms. */
  lemma TwoWordName(a: string, b: string)
    requires PlainName(a) && PlainName(b)
    ensures var s := Sym(a + " " + b);
            !AllPlain(s) && Tokens(Print(s)) == [Atom(a), Atom(b)] && TokensOf(s) == [Atom(a + " " + b)]
  {
    FeedName([], a, |a|);
    FeedName([Atom(a)], b, |b|);
    assert a[..|a|] == a && b[..|b|] == b;
    FeedAppend(EMPTY, a, " ");
    FeedChar(Lex(a), " ");
    NextBlank(Lex(a), ' ');
    FeedAppend(EMPTY, a + " ", b);
    assert [] + [Atom(a)] == [Atom(a)] && [Atom(a)] + [Atom(b)] == [Atom(a), Atom(b)];
    assert (a + " " + b)[|a|] == ' ';
  }

  // ================================================================ one S-expression per text

  lemma {:induction false} LexemesDecide(s: Sexp, t: Sexp, rest: seq<Lexeme>, rest': seq<Lexeme>)
    requires LexemesOf(s) + rest == LexemesOf(t) + rest'
    ensures s == t && rest == rest'
    decreases s, 1
  {
    var all, all' := LexemesOf(s) + rest, LexemesOf(t) + rest';
    assert all[0] == all'[0];
    if !s.List? {
      assert all[1..] == rest && all'[1..] == rest';
    } else {
      var inner, inner' := LexemesOfAll(s.items) + ([RightParen] + rest),
                           LexemesOfAll(t.items) + ([RightParen] + rest');
      assert all == [LeftParen] + inner && all' == [LeftParen] + inner';
      assert all[1..] == inner && all'[1..] == inner';
      LexemesDecideAll(s.items, t.items, rest, rest');
    }
  }

  lemma FirstLexeme(s: Sexp)
    ensures LexemesOf(s) != [] && LexemesOf(s)[0] != RightParen
  {
  }

  lemma {:induction false} LexemesDecideAll(ss: seq<Sexp>, ts: seq<Sexp>, rest: seq<Lexeme>, rest': seq<Lexeme>)
    requires LexemesOfAll(ss) + ([RightParen] + rest) == LexemesOfAll(ts) + ([RightParen] + rest')
    ensures ss == ts && rest == rest'
    decreases ss, 0
  {
    var all, all' := LexemesOfAll(ss) + ([RightParen] + rest), LexemesOfAll(ts) + ([RightParen] + rest');
    assert all[0] == all'[0];
    if ss != [] { FirstLexeme(ss[0]); }
    if ts != [] { FirstLexeme(ts[0]); }
    if ss == [] {
      assert ts == [];
      assert all[1..] == rest && all'[1..] == rest';
    } else {
      assert ts != [];
      var tail := LexemesOfAll(ss[1..]) + ([RightParen] + rest);
      var tail' := LexemesOfAll(ts[1..]) + ([RightParen] + rest');
      assert all == LexemesOf(ss[0]) + tail && all' == LexemesOf(ts[0]) + tail';
      LexemesDecide(ss[0], ts[0], tail, tail');
      LexemesDecideAll(ss[1..], ts[1..], rest, rest');
      assert ss == [ss[0]] + ss[1..] && ts == [ts[0]] + ts[1..];
    }
  }

  /** Two S-expressions over simple symbols are printed alike only if they are the same. */
  lemma PrintInjective(letters: char -> bool, s: Sexp, t: Sexp)
    requires AllSymbols(letters, s) && AllSymbols(letters, t) && Print(s) == Print(t)
    ensures s == t
  {
    ReadsBackIffSymbols(letters, s);
    ReadsBackIffSymbols(letters, t);
    assert LexemesOf(s) + [] == LexemesOf(t) + [];
    LexemesDecide(s, t, [], []);
  }

  // ================================================================ short lists

  lemma PrintOne(a: string)
    ensures Print(List([Sym(a)])) == "(" + a + ")"
    ensures TokensOf(List([Sym(a)])) == [Open, Atom(a), Close]
  {
    var items := [Sym(a)];
    assert PrintAll(items) == Print(items[0]) == a;
    assert items[1..] == [];
    assert TokensOfAll(items) == [Atom(a)] + [] == [Atom(a)];
    assert [Open] + [Atom(a)] + [Close] == [Open, Atom(a), Close];
  }

  lemma PrintTwo(a: string, b: string)
    ensures Print(List([Sym(a), Sym(b)])) == "(" + (a + " " + b) + ")"
    ensures TokensOf(List([Sym(a), Sym(b)])) == [Open, Atom(a), Atom(b), Close]
  {
    var items := [Sym(a), Sym(b)];
    assert items[1..] == [Sym(b)] && [Sym(b)][1..] == [];
    assert PrintAll([Sym(b)]) == Print(Sym(b)) == b;
    assert PrintAll(items) == Print(items[0]) + " " + PrintAll(items[1..]) == a + " " + b;
    assert TokensOfAll([Sym(b)]) == [Atom(b)] + [] == [Atom(b)];
    assert TokensOfAll(items) == [Atom(a)] + [Atom(b)] == [Atom(a), Atom(b)];
    assert [Open] + [Atom(a), Atom(b)] + [Close] == [Open, Atom(a), Atom(b), Close];
  }
}
