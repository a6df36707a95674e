/** The diversified script as the solver reads it (portfolio.rs:111-206). */
module PortfolioSolver {
  import opened Prelude
  import opened RustText
  import opened SmtLexer
  import opened SmtReader
  import opened SmtLib
  import opened SexpTokens
  import opened Portfolio
  import opened PortfolioReading
  import opened PortfolioMeaning

  // ================================================================ read by the solver

  /** An assertion, as the solver's parser takes it. */
  predicate IsAssertCommand(ts: seq<Token>) {
    |ts| >= 2 && ts[0] == Open && (ts[1] == Atom("assert") || ts[1] == Quoted("assert"))
  }

  predicate ReadAsAssert(form: string) { IsAssertCommand(Heard(Tokens(form))) }

  /** A solver of commands, given the forms. */
  function OnForms<S, O>(solver: Solver<S, O, seq<Token>>): Solver<S, O, string> {
    Solver((s, f) => solver.add(s, Heard(Tokens(f))), (s, f) => solver.command(s, Heard(Tokens(f))),
           (s, f) => solver.answer(s, Heard(Tokens(f))))
  }

  lemma {:induction false} RunOnForms<S, O>(solver: Solver<S, O, seq<Token>>, s: S, forms: seq<string>)
    ensures Run(OnForms(solver), ReadAsAssert, s, forms) == Run(solver, IsAssertCommand, s, HeardAll(forms))
  {
    if forms != [] {
      RunOnForms(solver, s, forms[..|forms| - 1]);
      assert HeardAll(forms)[..|forms| - 1] == HeardAll(forms[..|forms| - 1]);
    }
  }

  lemma {:induction false} FeedBlanks(ts: seq<Token>, s: string, i: nat, n: nat)
    requires i <= |s| && i <= n <= SkipSpaces(s, i)
    ensures Feed(Lexer(ts, Between), s[i..n]) == Lexer(ts, Between)
    decreases n - i
  {
    if i < n {
      assert s[i..n] == [s[i]] + s[i + 1..n];
      FeedAppend(Lexer(ts, Between), [s[i]], s[i + 1..n]);
      FeedOne(Lexer(ts, Between), s[i]);
      FeedBlanks(ts, s, i + 1, n);
    }
  }

  lemma {:induction false} HeardGrows(a: seq<Token>, b: seq<Token>)
    requires a <= b
    ensures Heard(a) <= Heard(b)
  {
    assert b == a + b[|a|..];
    HeardAppend(a, b[|a|..]);
  }

  /** A form taken for an assertion is one for the solver too. */
  lemma AssertFormIsRead(form: string)
    requires IsForm(form) && IsAssertForm(form)
    ensures ReadAsAssert(form)
  {
    EndsClosed(form);
    var k, c, more := AssertParts(form);
    LexAssert(form[1..][0..k], form[1..], k, c, more);
  }

  lemma EndsClosed(form: string)
    requires IsForm(form)
    ensures form[|form| - 1] == ')' && Trim(form) == form
  {
    assert Depth(form, |form| - 1) > 0 == Depth(form, |form|);
    TrimTrimmed(form);
  }

  lemma AssertParts(form: string) returns (k: nat, c: char, more: string)
    requires |form| >= 2 && form[0] == '(' && form[|form| - 1] == ')' && Trim(form) == form && IsAssertForm(form)
    ensures k == SkipSpaces(form[1..], 0) && (IsSpace(c) || c == '(')
    ensures form == "(" + form[1..][0..k] + "assert" + [c] + more
  {
    var rest := form[1..];
    k := SkipSpaces(rest, 0);
    c, more := AfterWord("assert", rest[k..]);
    assert rest == rest[0..k] + rest[k..];
  }

  /** A word is followed by something in a text that ends otherwise. */
  lemma AfterWord(word: string, text: string) returns (c: char, more: string)
    requires word != "" && word <= text && text[|text| - 1] != word[|word| - 1]
    ensures text == word + [c] + more && text[|word|] == c
  {
    c, more := text[|word|], text[|word| + 1..];
  }

  lemma LexAssert(blanks: string, rest: string, k: nat, c: char, more: string)
    requires k == SkipSpaces(rest, 0) && blanks == rest[0..k] && (IsSpace(c) || c == '(')
    ensures ReadAsAssert("(" + blanks + "assert" + [c] + more)
  {
    var head := "(" + blanks + "assert";
    LexHead(blanks, rest, k);
    FeedAppend(EMPTY, head, [c]);
    FeedOne(Lex(head), c);
    FeedAppend(EMPTY, head + [c], more);
    FeedGrows(Lex(head + [c]), more);
    assert [Open] + [Atom("assert")] == [Open, Atom("assert")];
    HeadHeard(Tokens(head + [c] + more));
  }

  lemma LexHead(blanks: string, rest: string, k: nat)
    requires k == SkipSpaces(rest, 0) && blanks == rest[0..k]
    ensures Lex("(" + blanks + "assert") == Lexer([Open], InAtom("assert"))
  {
    var name := "assert";
    FeedChar(EMPTY, "(");
    assert [] + [Open] == [Open];
    FeedAppend(EMPTY, "(", blanks);
    FeedBlanks([Open], rest, 0, k);
    FeedAppend(EMPTY, "(" + blanks, name);
    FeedName([Open], name, |name|);
    assert name[..|name|] == name;
  }

  lemma HeadHeard(ts: seq<Token>)
    requires [Open, Atom("assert")] <= ts
    ensures IsAssertCommand(Heard(ts))
  {
    var start := [Open, Atom("assert")];
    ReadMore(START, [], Open);
    ReadMore(START, [Open], Atom("assert"));
    assert [] + [Open] == [Open] && [Open] + [Atom("assert")] == start;
    HeardGrows(start, ts);
    assert Heard(ts)[0] == start[0] && Heard(ts)[1] == start[1];
  }

  // ================================================================ the diversified script, read

  /** The script the program hands on: its assertions, in some order, in the place of the first. */
  ghost predicate IsDiversified(script: string, ordered: seq<string>, out: string) {
    && multiset(ordered) == multiset(Asserts(Forms(script)))
    && out == Joined(Rearranged(IsAssertForm, Forms(script), ordered))
  }

  lemma RearrangedFrom(forms: seq<string>, ordered: seq<string>)
    requires AllWhole(forms) && multiset(ordered) == multiset(Asserts(forms))
    ensures AllWhole(Rearranged(IsAssertForm, forms, ordered))
  {
    var k := FirstAssert(IsAssertForm, forms);
    PermutationKind(IsAssertForm, forms, ordered);
    SelectKind(IsAssertForm, false, forms[k..]);
    var all := Rearranged(IsAssertForm, forms, ordered);
    forall i | 0 <= i < |all|
      ensures Whole(all[i])
    {
      assert all[i] in forms[..k] || all[i] in ordered || all[i] in forms[k..];
      assert all[i] in forms;
    }
  }

  lemma FormsCovered(forms: seq<string>)
    requires forall i :: 0 <= i < |forms| ==> IsForm(forms[i])
    ensures Covers(IsAssertForm, ReadAsAssert, forms)
  {
    forall i | 0 <= i < |forms| && IsAssertForm(forms[i])
      ensures ReadAsAssert(forms[i])
    {
      AssertFormIsRead(forms[i]);
    }
  }

  /** What the solver reads in a quiet script and in what is made of it. */
  lemma DiversifiedReads(script: string, ordered: seq<string>, out: string)
    requires WellRead(script) && Quiet(script) && IsDiversified(script, ordered, out)
    ensures Commands(script) == HeardAll(Forms(script))
    ensures WellRead(out) && Commands(out) == HeardAll(Rearranged(IsAssertForm, Forms(script), ordered))
    ensures Covers(IsAssertForm, ReadAsAssert, Forms(script))
  {
    QuietFormsAreCommands(script);
    RearrangedFrom(Forms(script), ordered);
    JoinedRead(Rearranged(IsAssertForm, Forms(script), ordered));
    FormsAreForms(script);
    FormsCovered(Forms(script));
  }

  lemma OnFormsCommutes<S(!new), O>(solver: Solver<S, O, seq<Token>>)
    requires Commutes(solver)
    ensures Commutes(OnForms(solver))
  {
    var o := OnForms(solver);
    forall s: S, f: string, g: string
      ensures o.add(o.add(s, f), g) == o.add(o.add(s, g), f)
    {
      var a, b := Heard(Tokens(f)), Heard(Tokens(g));
      assert solver.add(solver.add(s, a), b) == solver.add(solver.add(s, b), a);
    }
  }

  lemma HeardRunsAlike<S(!new), O>(solver: Solver<S, O, seq<Token>>, s: S, forms: seq<string>, ordered: seq<string>)
    requires Commutes(solver) && multiset(ordered) == multiset(Asserts(forms))
    requires Covers(IsAssertForm, ReadAsAssert, forms) && Unbroken(IsAssertForm, ReadAsAssert, forms)
    ensures Run(solver, IsAssertCommand, s, HeardAll(Rearranged(IsAssertForm, forms, ordered)))
         == Run(solver, IsAssertCommand, s, HeardAll(forms))
  {
    OnFormsCommutes(solver);
    ReorderedRunsAlike(OnForms(solver), IsAssertForm, ReadAsAssert, s, forms, ordered);
    RunOnForms(solver, s, forms);
    RunOnForms(solver, s, Rearranged(IsAssertForm, forms, ordered));
  }

  /** For every commuting solver that reads both scripts itself, a quiet script with unbroken assertions
      means the same diversified. */
  lemma DiversifiedMeansTheSame<S(!new), O>(solver: Solver<S, O, seq<Token>>, s: S, script: string,
                                            ordered: seq<string>, out: string)
    requires Commutes(solver) && WellRead(script) && Quiet(script) && IsDiversified(script, ordered, out)
    requires Unbroken(IsAssertForm, ReadAsAssert, Forms(script))
    ensures WellRead(out)
    ensures Run(solver, IsAssertCommand, s, Commands(out)) == Run(solver, IsAssertCommand, s, Commands(script))
  {
    DiversifiedReads(script, ordered, out);
    HeardRunsAlike(solver, s, Forms(script), ordered);
  }

  /** And it does so only with unbroken assertions: the counting solver commutes. */
  lemma DiversifiedSafeIff(script: string, ordered: seq<string>, out: string)
    requires WellRead(script) && Quiet(script) && IsDiversified(script, ordered, out)
    ensures Unbroken(IsAssertForm, ReadAsAssert, Forms(script))
       <==> (Run(Counter(), IsAssertCommand, 0, Commands(out)).1
             == Run(Counter(), IsAssertCommand, 0, Commands(script)).1)
    ensures Commutes(Counter<seq<Token>>())
  {
    DiversifiedReads(script, ordered, out);
    ReorderingSafeIffUnbroken(IsAssertForm, ReadAsAssert, Forms(script), ordered);
    CountOnForms(Forms(script));
    CountOnForms(Rearranged(IsAssertForm, Forms(script), ordered));
  }

  lemma CountOnForms(forms: seq<string>)
    ensures Run(Counter<string>(), ReadAsAssert, 0, forms)
         == Run(Counter<seq<Token>>(), IsAssertCommand, 0, HeardAll(forms))
  {
    CountsAlike(ReadAsAssert, IsAssertCommand, forms, HeardAll(forms));
  }

  // ================================================================ scripts that do not survive

  /** A form without inner parentheses. */
  lemma FlatIsForm(f: string)
    requires |f| >= 2 && f[0] == '(' && f[|f| - 1] == ')'
    requires forall i :: 0 < i < |f| - 1 ==> f[i] != '(' && f[i] != ')'
    ensures IsForm(f)
  {
    FlatDepth(f, |f| - 1);
    forall n | 0 < n < |f|
      ensures Depth(f, n) > 0
    {
      FlatDepth(f, n);
    }
  }

  lemma {:induction false} FlatDepth(f: string, n: nat)
    requires 0 < n < |f| && f[0] == '(' && forall i :: 0 < i < n ==> f[i] != '(' && f[i] != ')'
    ensures Depth(f, n) == 1
  {
    if n == 1 {
      assert Depth(f, 0) == 0;
    } else {
      FlatDepth(f, n - 1);
    }
  }

  /** A printed command is one form, and one command of the solver's. */
  lemma PrintedIsWhole(items: seq<Sexp>, f: string)
    requires AllPlain(List(items)) && f == Print(List(items))
    ensures Whole(f) && Lex(f).tokens == TokensOf(List(items)) == Heard(Tokens(f))
  {
    FeedPrint([], List(items));
    var ts := TokensOf(List(items));
    assert [] + ts == ts && ts + [] == ts;
    ReadList(START, items);
    assert [] + [ts] == [ts];
  }

  lemma AssertShape(name: string, f: string)
    requires f == "(" + ("assert" + " " + name) + ")" && PlainName(name)
    ensures IsForm(f) && IsAssertForm(f) && OneLine(f)
  {
    var inner := "assert" + " " + name;
    assert forall i :: 0 <= i < |inner| ==> inner[i] != '(' && inner[i] != ')';
    FlatIsForm(f);
    TrimTrimmed(f);
    assert f[1..] == "assert" + (" " + name + ")");
    assert TrimStart(f[1..]) == f[1..];
  }

  lemma AssertForms(name: string, f: string)
    requires f == "(" + ("assert" + " " + name) + ")" && PlainName(name)
    ensures IsForm(f) && IsAssertForm(f) && Whole(f) && OneLine(f)
    ensures Heard(Tokens(f)) == [Open, Atom("assert"), Atom(name), Close]
  {
    AssertShape(name, f);
    PrintTwo("assert", name);
    PrintedIsWhole([Sym("assert"), Sym(name)], f);
  }

  lemma OtherForm(name: string, f: string)
    requires f == "(" + name + ")" && PlainName(name) && name[0] != 'a'
    ensures IsForm(f) && !IsAssertForm(f) && Whole(f) && !ReadAsAssert(f)
    ensures Heard(Tokens(f)) == [Open, Atom(name), Close]
  {
    PrintOne(name);
    PrintedIsWhole([Sym(name)], f);
    FlatIsForm(f);
    NoAssertForm(f, name);
    assert "assert"[0] == 'a';
  }

  lemma NoAssertForm(f: string, name: string)
    requires f == "(" + name + ")" && |name| > 0 && !IsSpace(name[0]) && name[0] != 'a'
    ensures !IsAssertForm(f)
  {
    TrimTrimmed(f);
    assert f[1..] == name + ")";
    OtherWord("assert", f[1..]);
  }

  lemma OtherWord(word: string, rest: string)
    requires word != "" && rest != "" && !IsSpace(rest[0]) && rest[0] != word[0]
    ensures StripPrefix(TrimStart(rest), word) == None
  {
    assert TrimStart(rest) == rest;
  }

  /** What stands in a comment becomes a command. */
  lemma CommentedFormRevived(dead: string, live: string)
    requires IsForm(dead) && OneLine(dead) && IsForm(live) && Whole(live)
    ensures var script := ";" + (" " + dead) + "\n" + live;
            && WellRead(script) && !Quiet(script)
            && Commands(script) == [Heard(Tokens(live))] && Forms(script) == [dead, live]
  {
    var script := ";" + (" " + dead) + "\n" + live;
    CommentRead(" " + dead, live);
    CommentCut(dead, live);
    if Quiet(script) {
      QuietFormsAreCommands(script);
    }
  }

  lemma CommentRead(comment: string, live: string)
    requires OneLine(comment) && Whole(live)
    ensures var script := ";" + comment + "\n" + live;
            WellRead(script) && Commands(script) == [Heard(Tokens(live))]
  {
    var ts := Lex(live).tokens;
    FeedChar(EMPTY, ";");
    FeedAppend(EMPTY, ";", comment);
    FeedInComment([], "", comment);
    assert "" + comment == comment;
    FeedAppend(EMPTY, ";" + comment, "\n");
    FeedChar(Lex(";" + comment), "\n");
    FeedAppend(EMPTY, ";" + comment + "\n", live);
    assert [] + [Comment(comment)] == [Comment(comment)];
    assert [Comment(comment)] + EMPTY.tokens == [Comment(comment)];
    FeedShift([Comment(comment)], EMPTY, live);
    CommentIgnored(comment, ts);
    assert ts + [] == ts && [Comment(comment)] + ts + [] == [Comment(comment)] + ts;
  }

  lemma CommentIgnored(comment: string, ts: seq<Token>)
    ensures Read(START, [Comment(comment)] + ts) == Read(START, ts)
  {
    ReadMore(START, [], Comment(comment));
    assert [] + [Comment(comment)] == [Comment(comment)];
    ReadAppend(START, [Comment(comment)], ts);
  }

  lemma CommentCut(dead: string, live: string)
    requires IsForm(dead) && IsForm(live)
    ensures Forms(";" + (" " + dead) + "\n" + live) == [dead, live]
  {
    var script := ";" + (" " + dead) + "\n" + live;
    var b := 2 + |dead|;
    assert script[0] == ';' && script[1] == ' ' && script[2..b] == dead && script[b] == '\n';
    assert script[b + 1..b + 1 + |live|] == live;
    assert ScanPrefix(script, 0) == ScanPrefix(script, 1) == ScanPrefix(script, 2) == Scan(0, None, []);
    ScanForm(script, 2, dead, []);
    ScanForm(script, b + 1, live, [] + [dead]);
    assert [] + [dead] + [live] == [dead, live];
  }

  /** An assertion first: everything else comes after the assertions. */
  lemma AssertFirst(isAssert: string -> bool, forms: seq<string>, ordered: seq<string>)
    requires forms != [] && isAssert(forms[0])
    ensures Rearranged(isAssert, forms, ordered) == ordered + Select(isAssert, false, forms)
  {
    var k := FirstAssert(isAssert, forms);
    FirstAssertIs(isAssert, forms);
    assert k == 0 && forms[..k] == [] && forms[k..] == forms;
    assert [] + ordered == ordered;
  }

  lemma SelectOne(isAssert: string -> bool, wanted: bool, a: string)
    ensures Select(isAssert, wanted, [a]) == if isAssert(a) == wanted then [a] else []
  {
    assert [a][..0] == [];
  }

  lemma SelectTwo(isAssert: string -> bool, a: string, c: string)
    requires isAssert(a) && !isAssert(c)
    ensures Select(isAssert, true, [a, c]) == [a] && Select(isAssert, false, [a, c]) == [c]
  {
    assert [a, c][..1] == [a];
    SelectOne(isAssert, true, a);
    SelectOne(isAssert, false, a);
  }

  lemma SelectAround(isAssert: string -> bool, a: string, c: string, b: string)
    requires isAssert(a) && !isAssert(c) && isAssert(b)
    ensures Select(isAssert, true, [a, c, b]) == [a, b] && Select(isAssert, false, [a, c, b]) == [c]
  {
    assert [a, c, b][..2] == [a, c];
    SelectTwo(isAssert, a, c);
  }

  lemma OneOrder(a: string, ordered: seq<string>)
    requires multiset(ordered) == multiset([a])
    ensures ordered == [a]
  {
    assert |multiset(ordered)| == 1 && ordered[0] in multiset(ordered);
  }

  lemma RevivedByDiversifying(script: string, dead: string, live: string, ordered: seq<string>, out: string)
    requires IsDiversified(script, ordered, out) && Forms(script) == [dead, live]
    requires IsAssertForm(dead) && Whole(dead) && !IsAssertForm(live) && Whole(live)
    ensures Commands(out) == [Heard(Tokens(dead)), Heard(Tokens(live))]
  {
    TwoArranged(IsAssertForm, dead, live, ordered);
    TwoRead(dead, live);
  }

  lemma TwoArranged(isAssert: string -> bool, a: string, c: string, ordered: seq<string>)
    requires isAssert(a) && !isAssert(c) && multiset(ordered) == multiset(Select(isAssert, true, [a, c]))
    ensures Rearranged(isAssert, [a, c], ordered) == [a, c]
  {
    SelectTwo(isAssert, a, c);
    AssertFirst(isAssert, [a, c], ordered);
    OneOrder(a, ordered);
    assert [a] + [c] == [a, c];
  }

  lemma TwoRead(a: string, b: string)
    requires Whole(a) && Whole(b)
    ensures Commands(Joined([a, b])) == [Heard(Tokens(a)), Heard(Tokens(b))]
  {
    JoinedRead([a, b]);
  }

  lemma CommentedText(name: string, command: string)
    ensures "; (assert " + name + ")\n(" + command + ")"
         == ";" + (" " + ("(" + ("assert" + " " + name) + ")")) + "\n" + ("(" + command + ")")
  {
  }

  lemma ThreeText(p: string, command: string, q: string)
    ensures "(assert " + p + ")\n(" + command + ")\n(assert " + q + ")\n"
         == ("(" + ("assert" + " " + p) + ")") + "\n" + ("(" + command + ")") + "\n"
            + ("(" + ("assert" + " " + q) + ")") + "\n"
  {
  }

  /** With a commented-out assertion the solver reads the other command alone; diversified, the
      assertion before it. A name is `false`, say, and a command `check-sat`. */
  lemma CommentedAssertionRevived(name: string, command: string, script: string, ordered: seq<string>, out: string)
    requires PlainName(name) && PlainName(command) && command[0] != 'a'
    requires script == "; (assert " + name + ")\n(" + command + ")" && IsDiversified(script, ordered, out)
    ensures WellRead(script) && !Quiet(script)
    ensures Commands(script) == [[Open, Atom(command), Close]]
    ensures Commands(out) == [[Open, Atom("assert"), Atom(name), Close], [Open, Atom(command), Close]]
  {
    var dead, live := "(" + ("assert" + " " + name) + ")", "(" + command + ")";
    AssertForms(name, dead);
    OtherForm(command, live);
    CommentedText(name, command);
    CommentedFormRevived(dead, live);
    RevivedByDiversifying(script, dead, live, ordered, out);
  }

  /** A command between two assertions sees one of them in the script, and both in whatever the script
      is diversified to. */
  lemma CommandOvertaken(p: string, command: string, q: string, script: string, ordered: seq<string>, out: string)
    requires PlainName(p) && PlainName(q) && PlainName(command) && command[0] != 'a'
    requires script == "(assert " + p + ")\n(" + command + ")\n(assert " + q + ")\n"
    requires IsDiversified(script, ordered, out)
    ensures WellRead(script) && WellRead(out)
    ensures Run(Counter(), IsAssertCommand, 0, Commands(script)) == (2, [1])
    ensures Run(Counter(), IsAssertCommand, 0, Commands(out)) == (2, [2])
  {
    var a, c, b := "(" + ("assert" + " " + p) + ")", "(" + command + ")", "(" + ("assert" + " " + q) + ")";
    AssertForms(p, a);
    AssertForms(q, b);
    OtherForm(command, c);
    JoinThree(a, c, b);
    ThreeText(p, command, q);
    ThreeForms(script, a, c, b, ordered, out);
  }

  lemma JoinThree(a: string, b: string, c: string)
    ensures Joined([a, b, c]) == a + "\n" + b + "\n" + c + "\n"
  {
    assert [a, b, c][..2] == [a, b] && [a, b][..1] == [a] && [a][..0] == [];
    assert Joined([a]) == "" + a + "\n" == a + "\n";
  }

  lemma ThreeForms(script: string, a: string, c: string, b: string, ordered: seq<string>, out: string)
    requires script == Joined([a, c, b]) && IsDiversified(script, ordered, out)
    requires IsForm(a) && IsForm(b) && IsForm(c) && Whole(a) && Whole(b) && Whole(c)
    requires IsAssertForm(a) && IsAssertForm(b) && !IsAssertForm(c) && !ReadAsAssert(c)
    ensures WellRead(script) && WellRead(out)
    ensures Run(Counter(), IsAssertCommand, 0, Commands(script)) == (2, [1])
    ensures Run(Counter(), IsAssertCommand, 0, Commands(out)) == (2, [2])
  {
    JoinedSplits([a, c, b]);
    ThreeBefore(a, c, b, script);
    SelectAround(IsAssertForm, a, c, b);
    AssertFirst(IsAssertForm, [a, c, b], ordered);
    ThreeAfter(a, c, b, ordered, out);
  }

  lemma ThreeBefore(a: string, c: string, b: string, script: string)
    requires Whole(a) && Whole(b) && Whole(c) && IsForm(a) && IsForm(b)
    requires IsAssertForm(a) && IsAssertForm(b) && !ReadAsAssert(c) && script == Joined([a, c, b])
    ensures WellRead(script) && Run(Counter(), IsAssertCommand, 0, Commands(script)) == (2, [1])
  {
    JoinedRead([a, c, b]);
    AssertFormIsRead(a);
    AssertFormIsRead(b);
    CountThree(a, c, b, ReadAsAssert);
    CountOnForms([a, c, b]);
  }

  lemma ThreeAfter(a: string, c: string, b: string, ordered: seq<string>, out: string)
    requires Whole(a) && Whole(b) && Whole(c) && IsForm(a) && IsForm(b)
    requires IsAssertForm(a) && IsAssertForm(b) && !ReadAsAssert(c)
    requires multiset(ordered) == multiset([a, b]) && out == Joined(ordered + [c])
    ensures WellRead(out) && Run(Counter(), IsAssertCommand, 0, Commands(out)) == (2, [2])
  {
    AssertFormIsRead(a);
    AssertFormIsRead(b);
    TwoOrders(a, b, ordered);
    ThreeRead(ordered[0], ordered[1], c, out);
  }

  lemma ThreeRead(a: string, b: string, c: string, out: string)
    requires Whole(a) && Whole(b) && Whole(c) && ReadAsAssert(a) && ReadAsAssert(b) && !ReadAsAssert(c)
    requires out == Joined([a, b] + [c])
    ensures WellRead(out) && Run(Counter(), IsAssertCommand, 0, Commands(out)) == (2, [2])
  {
    JoinedRead([a, b] + [c]);
    CountOnForms([a, b] + [c]);
    CountTwo(a, b, c, ReadAsAssert);
  }

  lemma TwoOrders(a: string, b: string, ordered: seq<string>)
    requires multiset(ordered) == multiset([a, b])
    ensures |ordered| == 2 && ordered[0] in [a, b] && ordered[1] in [a, b] && ordered == [ordered[0], ordered[1]]
  {
    assert |multiset(ordered)| == |multiset([a, b])| == 2;
    assert ordered[0] in multiset(ordered) && ordered[1] in multiset(ordered);
  }

  lemma CountThree(a: string, c: string, b: string, isAssert: string -> bool)
    requires isAssert(a) && isAssert(b) && !isAssert(c)
    ensures Run(Counter(), isAssert, 0, [a, c, b]) == (2, [1])
  {
    var none: seq<nat> := [];
    assert [] + [a] == [a] && [a] + [c] == [a, c] && [a, c] + [b] == [a, c, b] && none + [1] == [1];
    CountStep(isAssert, [], a, 0, none);
    CountStep(isAssert, [a], c, 1, none);
    CountStep(isAssert, [a, c], b, 1, [1]);
  }

  lemma CountTwo(a: string, b: string, c: string, isAssert: string -> bool)
    requires isAssert(a) && isAssert(b) && !isAssert(c)
    ensures Run(Counter(), isAssert, 0, [a, b] + [c]) == (2, [2])
  {
    var none: seq<nat> := [];
    assert [] + [a] == [a] && [a] + [b] == [a, b] && none + [2] == [2];
    CountStep(isAssert, [], a, 0, none);
    CountStep(isAssert, [a], b, 1, none);
    CountStep(isAssert, [a, b], c, 2, none);
  }

  lemma CountStep(isAssert: string -> bool, forms: seq<string>, f: string, n: nat, answers: seq<nat>)
    requires Run(Counter(), isAssert, 0, forms) == (n, answers)
    ensures Run(Counter(), isAssert, 0, forms + [f]) == if isAssert(f) then (n + 1, answers) else (n, answers + [n])
  {
    assert (forms + [f])[..|forms|] == forms;
  }
}
