/** Where the solver's lexer sees a script's commands, and where the script is cut (portfolio.rs:111-141). */
module PortfolioReading {
  import opened Prelude
  import opened SmtLexer
  import opened SmtReader
  import opened Portfolio

  /** The commands of the forms, each form lexed by itself. */
  function HeardAll(forms: seq<string>): seq<seq<Token>> {
    seq(|forms|, i requires 0 <= i < |forms| => Heard(Tokens(forms[i])))
  }

  // ================================================================ places in the text

  /** What the lexer is in the middle of after n characters. */
  function ModeAt(text: string, n: nat): Mode
    requires n <= |text|
  {
    if n == 0 then Between else Next(Lexer([], ModeAt(text, n - 1)), text[n - 1]).mode
  }

  /** How many parentheses are open after n characters, counting only those the lexer reads as such. */
  function Level(text: string, n: nat): nat
    requires n <= |text|
  {
    if n == 0 then 0
    else
      var level := Level(text, n - 1);
      if !Outside(ModeAt(text, n - 1)) then level
      else if text[n - 1] == '(' then level + 1
      else if text[n - 1] == ')' && level > 0 then level - 1
      else level
  }

  /** Both counts after 0, 1, ..., |text| characters. */
  function Levels(text: string): (c: seq<int>)
    ensures |c| == |text| + 1
  {
    seq(|text| + 1, n requires 0 <= n <= |text| => Level(text, n))
  }

  function Depths(text: string): (c: seq<int>)
    ensures |c| == |text| + 1
  {
    seq(|text| + 1, n requires 0 <= n <= |text| => Depth(text, n))
  }

  /** What a count cuts out: opened by the character at a, closed by the one before b. */
  predicate SpanAt(c: seq<int>, a: nat, b: nat) {
    && a + 1 < b < |c| && c[a] == 0 == c[b]
    && forall k :: a < k < b ==> c[k] > 0
  }

  /** Counting all parentheses, also those in comments, literals and quoted symbols: balanced where a
      command begins or ends, one open inside every command, no pair completed between commands. */
  predicate QuietAt(levels: seq<int>, depths: seq<int>, n: nat)
    requires n + 1 < |levels| == |depths|
  {
    var inside, inside' := levels[n] > 0, levels[n + 1] > 0;
    && (inside ==> depths[n] > 0)
    && (!inside && inside' ==> depths[n] == 0)
    && (inside && !inside' ==> depths[n + 1] == 0)
    && (!inside && !inside' ==> !(depths[n] == 1 && depths[n + 1] == 0))
  }

  predicate AllQuiet(levels: seq<int>, depths: seq<int>)
    requires |levels| == |depths|
  {
    forall n :: 0 <= n < |levels| - 1 ==> QuietAt(levels, depths, n)
  }

  predicate Quiet(text: string) {
    AllQuiet(Levels(text), Depths(text))
  }

  /** A count starts at 0 and moves one step at a time. */
  predicate Counts(c: seq<int>) {
    |c| > 0 && c[0] == 0 && forall i :: 0 <= i < |c| - 1 ==> -1 <= c[i + 1] - c[i] <= 1
  }

  lemma SpanAround(c: seq<int>, n: nat) returns (a: nat, b: nat)
    requires Counts(c) && (forall i :: 0 <= i < |c| ==> c[i] >= 0) && n < |c| && c[n] > 0 && c[|c| - 1] == 0
    ensures a < n < b && SpanAt(c, a, b)
  {
    a := n;
    while c[a] > 0
      invariant a <= n && forall k :: a < k <= n ==> c[k] > 0
      decreases a
    {
      a := a - 1;
    }
    b := n;
    while c[b] > 0
      invariant n <= b < |c| && forall k :: a < k < b ==> c[k] > 0
      decreases |c| - b
    {
      b := b + 1;
    }
  }

  lemma SpanBefore(c: seq<int>, b: nat) returns (a: nat)
    requires Counts(c) && 0 < b < |c| && c[b - 1] > 0 && c[b] == 0
    ensures SpanAt(c, a, b)
  {
    a := b - 1;
    while c[a] != 0
      invariant a < b && c[a] >= 0 && forall k :: a < k < b ==> c[k] > 0
      decreases a
    {
      a := a - 1;
    }
  }

  lemma SameStart(c: seq<int>, a: nat, a': nat, b: nat)
    requires SpanAt(c, a, b) && SpanAt(c, a', b)
    ensures a == a'
  {
  }

  ghost predicate SameSpans(levels: seq<int>, depths: seq<int>) {
    forall a: nat, b: nat :: SpanAt(depths, a, b) <==> SpanAt(levels, a, b)
  }

  lemma QuietSpans(levels: seq<int>, depths: seq<int>)
    requires Counts(levels) && Counts(depths) && |levels| == |depths|
    requires (forall i :: 0 <= i < |levels| ==> levels[i] >= 0) && levels[|levels| - 1] == 0
    requires AllQuiet(levels, depths)
    ensures SameSpans(levels, depths)
  {
    forall a: nat, b: nat | SpanAt(levels, a, b)
      ensures SpanAt(depths, a, b)
    {
      assert QuietAt(levels, depths, a) && QuietAt(levels, depths, b - 1);
      forall k | a < k < b
        ensures depths[k] > 0
      {
        assert QuietAt(levels, depths, k);
      }
    }
    forall a: nat, b: nat | SpanAt(depths, a, b)
      ensures SpanAt(levels, a, b)
    {
      assert QuietAt(levels, depths, b - 1);
      assert levels[b] == 0 by {
        if b < |levels| - 1 { assert QuietAt(levels, depths, b); }
      }
      var a', b' := SpanAround(levels, b - 1);
      assert b' == b;
      assert SpanAt(depths, a', b);
      SameStart(depths, a, a', b);
    }
  }

  lemma SpansQuiet(levels: seq<int>, depths: seq<int>, n: nat)
    requires Counts(levels) && Counts(depths) && |levels| == |depths|
    requires (forall i :: 0 <= i < |levels| ==> levels[i] >= 0) && levels[|levels| - 1] == 0
    requires SameSpans(levels, depths) && n < |levels| - 1
    ensures QuietAt(levels, depths, n)
  {
    if levels[n] > 0 {
      var a, b := SpanAround(levels, n);
      assert SpanAt(depths, a, b);
    } else if levels[n + 1] > 0 {
      var a, b := SpanAround(levels, n + 1);
      assert SpanAt(depths, a, b);
    } else if depths[n] == 1 && depths[n + 1] == 0 {
      var a := SpanBefore(depths, n + 1);
      assert false;
    }
  }

  lemma TextCounts(text: string)
    ensures Counts(Levels(text)) && Counts(Depths(text))
  {
    forall n | 0 <= n < |text|
      ensures -1 <= Level(text, n + 1) - Level(text, n) <= 1 && -1 <= Depth(text, n + 1) - Depth(text, n) <= 1
    {
    }
  }

  /** The script is cut exactly where its commands stand if and only if it is quiet. */
  lemma CutWhereReadIff(text: string)
    requires Level(text, |text|) == 0
    ensures SameSpans(Levels(text), Depths(text)) <==> Quiet(text)
  {
    var levels, depths := Levels(text), Depths(text);
    TextCounts(text);
    if Quiet(text) {
      QuietSpans(levels, depths);
    }
    if SameSpans(levels, depths) {
      forall n | 0 <= n < |levels| - 1
        ensures QuietAt(levels, depths, n)
      {
        SpansQuiet(levels, depths, n);
      }
    }
  }

  /** The forms are the texts between the places where the count of all parentheses cuts. */
  lemma {:induction false} FormsAreCut(text: string, n: nat, f: string)
    requires n <= |text|
    ensures f in ScanPrefix(text, n).forms
       <==> exists a: nat, b: nat :: SpanAt(Depths(text), a, b) && b <= n && text[a..b] == f
  {
    if n > 0 {
      FormsAreCut(text, n - 1, f);
      ScanInvariant(text, n - 1);
      var s := ScanPrefix(text, n - 1);
      if text[n - 1] == ')' && s.depth == 1 {
        assert SpanAt(Depths(text), s.start.value, n);
      }
      forall a: nat | SpanAt(Depths(text), a, n)
        ensures text[n - 1] == ')' && s.depth == 1 && s.start.value == a
      {
        assert Depths(text)[n - 1] == Depth(text, n - 1) > 0 && Depths(text)[n] == Depth(text, n) == 0;
        assert Depths(text)[a] == Depth(text, a) == 0;
        assert forall k :: a < k < n ==> Depths(text)[k] == Depth(text, k);
      }
    }
  }

  // ================================================================ forms as the lexer reads them

  /** A text that is one command. */
  predicate Whole(f: string) {
    Lex(f).mode.Between? && Read(START, Lex(f).tokens) == Reading(0, [], [Heard(Lex(f).tokens)], false)
  }

  /** Tokens already read only stand in front. */
  lemma NextShift(p: seq<Token>, l: Lexer, c: char)
    ensures Next(Lexer(p + l.tokens, l.mode), c) == Lexer(p + Next(l, c).tokens, Next(l, c).mode)
  {
    Regroup(p, l.tokens, Ended(l.mode), [Open]);
    Regroup(p, l.tokens, Ended(l.mode), [Close]);
    if l.mode.InQuoted? { Regroup(p, l.tokens, [Quoted(l.mode.text)], []); }
  }

  lemma Regroup(p: seq<Token>, a: seq<Token>, b: seq<Token>, c: seq<Token>)
    ensures p + (a + b) == p + a + b && p + (a + b + c) == p + a + b + c && p + (a + c) == p + a + c
  {
  }

  lemma {:induction false} FeedShift(p: seq<Token>, l: Lexer, s: string)
    ensures Feed(Lexer(p + l.tokens, l.mode), s) == Lexer(p + Feed(l, s).tokens, Feed(l, s).mode)
  {
    if s != "" {
      FeedShift(p, l, s[..|s| - 1]);
      NextShift(p, Feed(l, s[..|s| - 1]), s[|s| - 1]);
    }
  }

  /** A pending token changes neither level nor commands. */
  lemma ReadEnded(ts: seq<Token>, mode: Mode)
    ensures Read(START, ts + Ended(mode)).level == Read(START, ts).level
    ensures Read(START, ts + Ended(mode)).groups == Read(START, ts).groups
    ensures Read(START, ts).stray ==> Read(START, ts + Ended(mode)).stray
  {
    if mode.Between? {
      assert ts + [] == ts;
    } else {
      ReadMore(START, ts, Ended(mode)[0]);
    }
  }

  /** A parenthesis read as one ends what is pending and stands alone. */
  lemma NextParenthesis(l: Lexer, c: char)
    requires Outside(l.mode) && (c == '(' || c == ')')
    ensures Next(l, c) == Lexer(l.tokens + Ended(l.mode) + [if c == '(' then Open else Close], Between)
  {
    assert l.tokens + [] == l.tokens;
  }

  /** Any other character completes at most the token in progress. */
  lemma NextOther(l: Lexer, c: char) returns (mode: Mode)
    requires !(Outside(l.mode) && (c == '(' || c == ')'))
    ensures !l.mode.InQuoted? ==> Next(l, c).tokens == l.tokens + Ended(mode)
    ensures l.mode.InQuoted? ==> Next(l, c).tokens == l.tokens || Next(l, c).tokens == l.tokens + [Quoted(l.mode.text)]
  {
    assert l.tokens + [] == l.tokens;
    mode := if Next(l, c).tokens == l.tokens then Between else l.mode;
  }

  /** Level and commands after one more character. */
  lemma ReadNext(l: Lexer, c: char)
    ensures var r, r' := Read(START, l.tokens), Read(START, Next(l, c).tokens);
            && r'.level == (if !Outside(l.mode) then r.level
                            else if c == '(' then r.level + 1
                            else if c == ')' && r.level > 0 then r.level - 1
                            else r.level)
            && (r.level == 0 ==> r'.groups == r.groups)
  {
    if Outside(l.mode) && (c == '(' || c == ')') {
      NextParenthesis(l, c);
      ReadEnded(l.tokens, l.mode);
      ReadMore(START, l.tokens + Ended(l.mode), if c == '(' then Open else Close);
    } else {
      var mode := NextOther(l, c);
      ReadEnded(l.tokens, mode);
      if l.mode.InQuoted? { ReadMore(START, l.tokens, Quoted(l.mode.text)); }
    }
  }

  lemma LevelIsRead(text: string, n: nat)
    requires n <= |text|
    ensures Lex(text[..n]).mode == ModeAt(text, n)
    ensures Read(START, Lex(text[..n]).tokens).level == Level(text, n)
  {
    var l := EMPTY;
    assert text[..0] == "";
    for k := 0 to n
      invariant l == Lex(text[..k]) && l.mode == ModeAt(text, k) && Read(START, l.tokens).level == Level(text, k)
    {
      LevelNext(text, k, l);
      LexNext(text, k + 1);
      l := Next(l, text[k]);
    }
  }

  lemma LevelNext(text: string, n: nat, l: Lexer)
    requires n < |text| && l.mode == ModeAt(text, n) && Read(START, l.tokens).level == Level(text, n)
    ensures var l' := Next(l, text[n]);
            l'.mode == ModeAt(text, n + 1) && Read(START, l'.tokens).level == Level(text, n + 1)
  {
    assert l == Lexer(l.tokens + [], l.mode);
    NextShift(l.tokens, Lexer([], l.mode), text[n]);
    ReadNext(l, text[n]);
  }

  // ================================================================ inside one command

  /** The lexer l has read `before`, complete commands and comments, and then `here`, the beginning of
      one more command. */
  ghost predicate Inside(before: seq<Token>, groups: seq<seq<Token>>, here: Lexer, l: Lexer) {
    var x := Read(START, here.tokens);
    && Read(START, before) == Reading(0, [], groups, false)
    && l == Lexer(before + here.tokens, here.mode)
    && x.level > 0 && !x.stray && x.groups == [] && x.group == Heard(here.tokens)
  }

  lemma ReadBehind(before: seq<Token>, groups: seq<seq<Token>>, ts: seq<Token>)
    requires Read(START, before) == Reading(0, [], groups, false)
    ensures var x := Read(START, ts);
            Read(START, before + ts) == Reading(x.level, x.group, groups + x.groups, x.stray)
  {
    ReadAppend(START, before, ts);
    ReadShift(groups, false, ts);
  }

  lemma InsideStarts(l: Lexer, groups: seq<seq<Token>>)
    requires Outside(l.mode) && Read(START, l.tokens + Ended(l.mode)) == Reading(0, [], groups, false)
    ensures Inside(l.tokens + Ended(l.mode), groups, Next(EMPTY, '('), Next(l, '('))
  {
    NextParenthesis(l, '(');
    NextParenthesis(EMPTY, '(');
    assert [] + [] + [Open] == [] + [Open] == [Open];
    ReadMore(START, [], Open);
  }

  /** Tokens inside a command join its group. */
  lemma JoinGroup(ts: seq<Token>, t: Token)
    requires var x := Read(START, ts); x.level > 0 && x.groups == [] && !x.stray && x.group == Heard(ts)
    ensures var y := Read(START, ts + [t]);
            && !y.stray
            && (y.level > 0 ==> y.groups == [] && y.group == Heard(ts + [t]))
            && (y.level == 0 ==> y == Reading(0, [], [Heard(ts + [t])], false))
            && (!t.Close? ==> y.level > 0)
  {
    ReadMore(START, ts, t);
    var x := Read(START, ts);
    assert [] + [x.group + [t]] == [x.group + [t]];
    assert x.group + [] == x.group;
  }

  lemma JoinEnded(ts: seq<Token>, mode: Mode)
    requires var x := Read(START, ts); x.level > 0 && x.groups == [] && !x.stray && x.group == Heard(ts)
    ensures var y := Read(START, ts + Ended(mode));
            y.level > 0 && y.groups == [] && !y.stray && y.group == Heard(ts + Ended(mode))
  {
    if mode.Between? {
      assert ts + [] == ts;
    } else {
      JoinGroup(ts, Ended(mode)[0]);
    }
  }

  /** One more character of a command. */
  lemma JoinNext(here: Lexer, c: char)
    requires var x := Read(START, here.tokens);
             x.level > 0 && x.groups == [] && !x.stray && x.group == Heard(here.tokens)
    ensures var next := Next(here, c).tokens;
            var y := Read(START, next);
            && !y.stray
            && (y.level > 0 ==> y.groups == [] && y.group == Heard(next))
            && (y.level == 0 ==> y == Reading(0, [], [Heard(next)], false) && Next(here, c).mode.Between?)
  {
    if Outside(here.mode) && (c == '(' || c == ')') {
      NextParenthesis(here, c);
      JoinEnded(here.tokens, here.mode);
      JoinGroup(here.tokens + Ended(here.mode), if c == '(' then Open else Close);
    } else {
      var mode := NextOther(here, c);
      JoinEnded(here.tokens, mode);
      if here.mode.InQuoted? { JoinGroup(here.tokens, Quoted(here.mode.text)); }
    }
  }

  lemma InsideNext(before: seq<Token>, groups: seq<seq<Token>>, here: Lexer, l: Lexer, c: char)
    requires Inside(before, groups, here, l)
    ensures var here', l' := Next(here, c), Next(l, c);
            var x', r' := Read(START, here'.tokens), Read(START, l'.tokens);
            && x'.level == r'.level
            && (r'.level > 0 ==> Inside(before, groups, here', l'))
            && (r'.level == 0 ==>
                  && r' == Reading(0, [], groups + [Heard(here'.tokens)], false)
                  && x' == Reading(0, [], [Heard(here'.tokens)], false) && here'.mode.Between?)
  {
    NextShift(before, here, c);
    JoinNext(here, c);
    ReadBehind(before, groups, Next(here, c).tokens);
  }

  // ================================================================ the whole script

  lemma HeardMore(forms: seq<string>, f: string)
    ensures HeardAll(forms + [f]) == HeardAll(forms) + [Heard(Tokens(f))]
  {
  }

  predicate AllWhole(forms: seq<string>) {
    forall i :: 0 <= i < |forms| ==> Whole(forms[i])
  }

  lemma WholeMore(forms: seq<string>, f: string, groups: seq<seq<Token>>)
    requires AllWhole(forms) && groups == HeardAll(forms)
    requires Lex(f).mode.Between? && Read(START, Lex(f).tokens) == Reading(0, [], [Heard(Lex(f).tokens)], false)
    ensures AllWhole(forms + [f]) && HeardAll(forms + [f]) == groups + [Heard(Lex(f).tokens)]
  {
    HeardMore(forms, f);
    assert Lex(f).tokens + [] == Lex(f).tokens;
  }

  /** The scanner has cut one form for each command that ended, and started where the command in
      progress started. */
  ghost predicate Follows(s: Scan, l: Lexer, before: seq<Token>, here: Lexer) {
    var r := Read(START, l.tokens);
    && AllWhole(s.forms)
    && (r.level == 0 ==> r.groups == HeardAll(s.forms))
    && (r.level > 0 ==> s.start.Some? && Inside(before, HeardAll(s.forms), here, l))
  }

  lemma FollowsIdle(s: Scan, l: Lexer, c: char, s': Scan)
    requires var r, r' := Read(START, l.tokens), Read(START, Next(l, c).tokens);
             && Follows(s, l, [], EMPTY) && r.level == 0 && s'.forms == s.forms
             && (r'.level > 0 ==> s'.start.Some? && !Read(START, l.tokens + Ended(l.mode)).stray)
    ensures Follows(s', Next(l, c), l.tokens + Ended(l.mode), Next(EMPTY, '('))
  {
    ReadNext(l, c);
    if Read(START, Next(l, c).tokens).level > 0 {
      ReadEnded(l.tokens, l.mode);
      NoLevelNoGroup(l.tokens + Ended(l.mode));
      InsideStarts(l, HeardAll(s.forms));
    }
  }

  lemma FollowsInside(s: Scan, l: Lexer, before: seq<Token>, here: Lexer, c: char, s': Scan, l': Lexer)
    requires Follows(s, l, before, here) && Read(START, l.tokens).level > 0 && s'.forms == s.forms
    requires s'.start == s.start
    requires l' == Next(l, c) && Read(START, l'.tokens).level > 0
    ensures Follows(s', l', before, Next(here, c))
  {
    InsideNext(before, HeardAll(s.forms), here, l, c);
  }

  lemma FollowsEnd(s: Scan, l: Lexer, before: seq<Token>, here: Lexer, c: char, s': Scan, l': Lexer, f: string)
    requires Follows(s, l, before, here) && Read(START, l.tokens).level > 0
    requires s'.forms == s.forms + [f] && Lex(f) == Next(here, c)
    requires l' == Next(l, c) && Read(START, l'.tokens).level == 0
    ensures Follows(s', l', [], EMPTY)
  {
    InsideNext(before, HeardAll(s.forms), here, l, c);
    WholeMore(s.forms, f, HeardAll(s.forms));
  }

  // ================================================================ well-read scripts

  lemma {:induction false} StrayStays(r: Reading, ts: seq<Token>)
    requires r.stray
    ensures Read(r, ts).stray
  {
    if ts != [] {
      StrayStays(r, ts[..|ts| - 1]);
    }
  }

  lemma StrayGrows(a: seq<Token>, b: seq<Token>)
    requires a <= b && Read(START, a).stray
    ensures Read(START, b).stray
  {
    assert b == a + b[|a|..];
    ReadAppend(START, a, b[|a|..]);
    StrayStays(Read(START, a), b[|a|..]);
  }

  /** What a well-read script has read at any place is no stray token. */
  lemma NoStray(text: string, n: nat)
    requires WellRead(text) && n <= |text|
    ensures !Read(START, Lex(text[..n]).tokens).stray
  {
    var some, all := Lex(text[..n]).tokens, Lex(text).tokens;
    assert text == text[..n] + text[n..];
    FeedAppend(EMPTY, text[..n], text[n..]);
    FeedGrows(Lex(text[..n]), text[n..]);
    assert all <= all + Ended(Lex(text).mode);
    if Read(START, some).stray {
      StrayGrows(some, all + Ended(Lex(text).mode));
    }
  }

  lemma NoStrayEnded(l: Lexer)
    requires Outside(l.mode) && !Read(START, Next(l, '(').tokens).stray
    ensures !Read(START, l.tokens + Ended(l.mode)).stray
  {
    NextParenthesis(l, '(');
    ReadMore(START, l.tokens + Ended(l.mode), Open);
  }

  /** Scanner and levels, one character on, in a quiet script. */
  lemma ScanNext(text: string, n: nat, s: Scan)
    requires n < |text| && s == ScanPrefix(text, n) && Quiet(text) && Level(text, |text|) == 0
    ensures var s' := ScanPrefix(text, n + 1);
            var inside, inside' := Level(text, n) > 0, Level(text, n + 1) > 0;
            && (!inside ==> s'.forms == s.forms)
            && (!inside && inside' ==> s'.start == Some(n) && text[n] == '(' && Outside(ModeAt(text, n)))
            && (inside && inside' ==> s'.forms == s.forms && s'.start == s.start)
            && (inside && !inside' && s.start.Some? ==> s'.forms == s.forms + [text[s.start.value..n + 1]])
  {
    ScanInvariant(text, n);
    ScanInvariant(text, n + 1);
    assert QuietAt(Levels(text), Depths(text), n);
    if n + 1 < |text| { assert QuietAt(Levels(text), Depths(text), n + 1); }
  }

  /** The reader after n characters. */
  ghost predicate Tracks(text: string, n: nat, before: seq<Token>, here: Lexer)
    requires n <= |text|
  {
    var s, l := ScanPrefix(text, n), Lex(text[..n]);
    && Follows(s, l, before, here)
    && (Read(START, l.tokens).level > 0 ==>
          s.start.Some? && s.start.value < n && here == Lex(text[s.start.value..n]))
  }

  lemma TracksIdle(text: string, n: nat)
    requires n < |text| && Tracks(text, n, [], EMPTY) && Read(START, Lex(text[..n]).tokens).level == 0
    requires var s, s' := ScanPrefix(text, n), ScanPrefix(text, n + 1);
             && s'.forms == s.forms
             && (Read(START, Lex(text[..n + 1]).tokens).level > 0 ==>
                   s'.start == Some(n) && text[n] == '(' && Outside(Lex(text[..n]).mode))
    requires !Read(START, Lex(text[..n + 1]).tokens).stray
    ensures var l := Lex(text[..n]); Tracks(text, n + 1, l.tokens + Ended(l.mode), Next(EMPTY, '('))
  {
    var s, l, c, s' := ScanPrefix(text, n), Lex(text[..n]), text[n], ScanPrefix(text, n + 1);
    LexNext(text, n + 1);
    if Read(START, Next(l, c).tokens).level > 0 {
      NoStrayEnded(l);
      assert text[n..n + 1] == ['('];
      FeedOne(EMPTY, '(');
    }
    FollowsIdle(s, l, c, s');
  }

  lemma TracksInside(text: string, n: nat, before: seq<Token>, here: Lexer, s: Scan, s': Scan, l: Lexer, l': Lexer)
    requires n < |text| && Tracks(text, n, before, here) && Read(START, l.tokens).level > 0
    requires s == ScanPrefix(text, n) && s' == ScanPrefix(text, n + 1) && s'.forms == s.forms && s'.start == s.start
    requires l == Lex(text[..n]) && l' == Lex(text[..n + 1]) == Next(l, text[n]) && Read(START, l'.tokens).level > 0
    ensures Tracks(text, n + 1, before, Next(here, text[n]))
  {
    LexSlice(text, s.start.value, n);
    FollowsInside(s, l, before, here, text[n], s', l');
  }

  lemma LexSlice(text: string, a: nat, n: nat)
    requires a <= n < |text|
    ensures Lex(text[a..n + 1]) == Next(Lex(text[a..n]), text[n])
  {
    assert text[a..n + 1][..n - a] == text[a..n];
  }

  lemma TracksEnd(text: string, n: nat, before: seq<Token>, here: Lexer, s: Scan, s': Scan, l: Lexer, l': Lexer)
    requires n < |text| && Tracks(text, n, before, here) && Read(START, l.tokens).level > 0
    requires s == ScanPrefix(text, n) && s' == ScanPrefix(text, n + 1)
    requires l == Lex(text[..n]) && l' == Lex(text[..n + 1]) == Next(l, text[n]) && Read(START, l'.tokens).level == 0
    requires s.start.Some? ==> s'.forms == s.forms + [text[s.start.value..n + 1]]
    ensures Tracks(text, n + 1, [], EMPTY)
  {
    LexSlice(text, s.start.value, n);
    FollowsEnd(s, l, before, here, text[n], s', l', text[s.start.value..n + 1]);
  }

  lemma TracksNext(text: string, n: nat, before: seq<Token>, here: Lexer) returns (before': seq<Token>, here': Lexer)
    requires n < |text| && Quiet(text) && WellRead(text) && Level(text, |text|) == 0 && Tracks(text, n, before, here)
    ensures Tracks(text, n + 1, before', here')
  {
    var s, s', l, l' := ScanPrefix(text, n), ScanPrefix(text, n + 1), Lex(text[..n]), Lex(text[..n + 1]);
    LexNext(text, n + 1);
    LevelIsRead(text, n);
    LevelIsRead(text, n + 1);
    ScanNext(text, n, s);
    if Level(text, n) == 0 {
      NoStray(text, n + 1);
      TracksIdle(text, n);
      before', here' := l.tokens + Ended(l.mode), Next(EMPTY, '(');
    } else if Level(text, n + 1) > 0 {
      TracksInside(text, n, before, here, s, s', l, l');
      before', here' := before, Next(here, text[n]);
    } else {
      TracksEnd(text, n, before, here, s, s', l, l');
      before', here' := [], EMPTY;
    }
  }

  lemma TracksAll(text: string, n: nat) returns (before: seq<Token>, here: Lexer)
    requires n <= |text| && Quiet(text) && WellRead(text) && Level(text, |text|) == 0
    ensures Tracks(text, n, before, here)
  {
    before, here := [], EMPTY;
    TracksStart(text);
    for k := 0 to n
      invariant Tracks(text, k, before, here)
    {
      before, here := TracksNext(text, k, before, here);
    }
  }

  lemma TracksStart(text: string)
    ensures Tracks(text, 0, [], EMPTY)
  {
    assert text[..0] == "";
  }

  lemma WellReadEnds(text: string)
    requires WellRead(text)
    ensures Level(text, |text|) == 0 && text[..|text|] == text
    ensures Commands(text) == Read(START, Lex(text).tokens).groups
  {
    LevelIsRead(text, |text|);
    assert text[..|text|] == text;
    ReadEnded(Lex(text).tokens, Lex(text).mode);
  }

  /** The forms cut off a quiet script are, one for one, the commands the solver reads in it. */
  lemma QuietFormsAreCommands(text: string)
    requires WellRead(text) && Quiet(text)
    ensures Commands(text) == HeardAll(Forms(text))
    ensures AllWhole(Forms(text))
  {
    WellReadEnds(text);
    LevelIsRead(text, |text|);
    var before, here := TracksAll(text, |text|);
  }

  /** Commands written one a line are read one by one. */
  lemma {:induction false} JoinedCommands(forms: seq<string>)
    requires AllWhole(forms)
    ensures Lex(Joined(forms)).mode.Between?
    ensures Read(START, Lex(Joined(forms)).tokens) == Reading(0, [], HeardAll(forms), false)
  {
    if forms != [] {
      var init, f := forms[..|forms| - 1], forms[|forms| - 1];
      JoinedCommands(init);
      LineRead(Joined(init), f, HeardAll(init));
      HeardMore(init, f);
      assert init + [f] == forms;
    }
  }

  lemma LineRead(head: string, f: string, groups: seq<seq<Token>>)
    requires Lex(head).mode.Between? && Read(START, Lex(head).tokens) == Reading(0, [], groups, false) && Whole(f)
    ensures Lex(head + f + "\n").mode.Between?
    ensures Read(START, Lex(head + f + "\n").tokens) == Reading(0, [], groups + [Heard(Tokens(f))], false)
  {
    LexLine(head, f);
    ReadBehind(Lex(head).tokens, groups, Lex(f).tokens);
    assert Lex(f).tokens + [] == Lex(f).tokens;
  }

  lemma LexLine(head: string, f: string)
    requires Lex(head).mode.Between? && Lex(f).mode.Between?
    ensures Lex(head + f + "\n") == Lexer(Lex(head).tokens + Lex(f).tokens, Between)
  {
    FeedAppend(EMPTY, head, f);
    FeedAppend(EMPTY, head + f, "\n");
    var p := Lex(head).tokens;
    assert p + EMPTY.tokens == p;
    FeedShift(p, EMPTY, f);
    FeedChar(Lex(head + f), "\n");
  }

  lemma JoinedRead(forms: seq<string>)
    requires AllWhole(forms)
    ensures WellRead(Joined(forms)) && Commands(Joined(forms)) == HeardAll(forms)
  {
    JoinedCommands(forms);
    var ts := Lex(Joined(forms)).tokens;
    assert ts + [] == ts;
  }

  // ================================================================ nothing hidden

  /** No parenthesis stands in a comment, a literal or a quoted symbol. */
  predicate NothingHidden(text: string) {
    forall n :: 0 <= n < |text| && (text[n] == '(' || text[n] == ')') ==> Outside(ModeAt(text, n))
  }

  lemma StrayClose(text: string, n: nat)
    requires n < |text| && text[n] == ')' && Outside(ModeAt(text, n)) && Level(text, n) == 0
    ensures !WellRead(text)
  {
    var l := Lex(text[..n]);
    LevelIsRead(text, n);
    LexNext(text, n + 1);
    NextParenthesis(l, ')');
    ReadEnded(l.tokens, l.mode);
    ReadMore(START, l.tokens + Ended(l.mode), Close);
    if WellRead(text) {
      NoStray(text, n + 1);
    }
  }

  /** A parenthesis that the lexer reads as one, and that closes something if it closes. */
  predicate ReadAsOne(text: string, n: nat)
    requires n < |text|
  {
    && (text[n] == '(' || text[n] == ')' ==> Outside(ModeAt(text, n)))
    && (text[n] == ')' ==> Level(text, n) > 0)
  }

  lemma {:induction false} DepthIsLevel(text: string, n: nat)
    requires n <= |text| && forall k {:trigger ReadAsOne(text, k)} :: 0 <= k < |text| ==> ReadAsOne(text, k)
    ensures Depth(text, n) == Level(text, n)
  {
    if n > 0 {
      DepthIsLevel(text, n - 1);
      assert ReadAsOne(text, n - 1);
    }
  }

  /** Where nothing is hidden, the forms are the commands. */
  lemma NothingHiddenIsQuiet(text: string)
    requires WellRead(text) && NothingHidden(text)
    ensures Quiet(text)
  {
    forall k | 0 <= k < |text|
      ensures ReadAsOne(text, k)
    {
      if text[k] == ')' && Level(text, k) == 0 { StrayClose(text, k); }
    }
    forall n | 0 <= n <= |text|
      ensures Levels(text)[n] == Depths(text)[n]
    {
      DepthIsLevel(text, n);
    }
  }

  /** The text (a;() and a closing parenthesis on the next line. */
  predicate BalancedComment(text: string) {
    && |text| == 7 && text[0] == '(' && text[1] == 'a' && text[2] == ';'
    && text[3] == '(' && text[4] == ')' && text[5] == '\n' && text[6] == ')'
  }

  /** The places in it, with both counts. */
  lemma BalancedCounts(text: string)
    requires BalancedComment(text)
    ensures ModeAt(text, 3) == InComment("") && ModeAt(text, 7) == Between
    ensures Level(text, 1) == Level(text, 2) == Level(text, 3) == Level(text, 4) == Level(text, 5) == Level(text, 6)
         == 1
    ensures Level(text, 0) == 0 == Level(text, 7)
    ensures Depth(text, 1) == Depth(text, 2) == Depth(text, 3) == Depth(text, 5) == Depth(text, 6) == 1
    ensures Depth(text, 0) == 0 == Depth(text, 7) && Depth(text, 4) == 2
  {
    assert ModeAt(text, 0) == Between && ModeAt(text, 1) == Between && ModeAt(text, 2) == InAtom(['a']);
    assert ModeAt(text, 3) == InComment("") && ModeAt(text, 4).InComment? && ModeAt(text, 5).InComment?;
    assert ModeAt(text, 6) == Between;
    assert Level(text, 0) == 0 && Level(text, 1) == 1 && Level(text, 2) == 1 && Level(text, 3) == 1;
    assert Level(text, 4) == 1 && Level(text, 5) == 1 && Level(text, 6) == 1;
    assert Depth(text, 0) == 0 && Depth(text, 1) == 1 && Depth(text, 2) == 1 && Depth(text, 3) == 1;
    assert Depth(text, 4) == 2 && Depth(text, 5) == 1 && Depth(text, 6) == 1;
  }

  /** A pair of parentheses in a comment does no harm inside a command. */
  lemma BalancedCommentQuiet(text: string)
    requires BalancedComment(text)
    ensures Quiet(text) && !NothingHidden(text)
  {
    BalancedCounts(text);
    var levels, depths := Levels(text), Depths(text);
    forall n | 0 <= n < |levels| - 1
      ensures QuietAt(levels, depths, n)
    {
      assert n == 0 || n == 1 || n == 2 || n == 3 || n == 4 || n == 5 || n == 6;
    }
    assert text[3] == '(' && !Outside(ModeAt(text, 3));
  }
}
