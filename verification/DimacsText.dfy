/** Lines and words of a DIMACS file: how they are written and how they are split off again. The lemmas
    about reading are stated for any reader that takes one word at a time, and then applied to the
    reader of the parsers. */
module DimacsText {
  import opened Prelude
  import opened RustText

  // ================================================================ lines

  predicate OneLine(s: string) { '\n' !in s }

  /** The complete lines so far and the unfinished one. */
  function Split(text: string): (r: (seq<string>, string))
    ensures OneLine(r.1) && forall i :: 0 <= i < |r.0| ==> OneLine(r.0[i])
  {
    if text == "" then ([], "")
    else
      var (done, rest) := Split(text[..|text| - 1]);
      if text[|text| - 1] == '\n' then (done + [rest], "") else (done, rest + [text[|text| - 1]])
  }

  /** A last line need not be ended. A carriage return before the end of a line is left to the trimming
      every line undergoes. */
  function Lines(text: string): (ls: seq<string>)
    ensures forall i :: 0 <= i < |ls| ==> OneLine(ls[i])
  {
    var (done, rest) := Split(text);
    if rest == "" then done else done + [rest]
  }

  function Unlines(ls: seq<string>): string {
    if ls == [] then "" else Unlines(ls[..|ls| - 1]) + ls[|ls| - 1] + "\n"
  }

  lemma {:induction false} SplitMore(text: string, more: string)
    requires OneLine(more)
    ensures Split(text + more) == (Split(text).0, Split(text).1 + more)
  {
    if more == "" {
      assert text + more == text && Split(text).1 + more == Split(text).1;
    } else {
      var init := more[..|more| - 1];
      assert (text + more)[..|text + more| - 1] == text + init;
      SplitMore(text, init);
      assert Split(text).1 + more == Split(text).1 + init + [more[|more| - 1]];
    }
  }

  lemma SplitNewline(text: string)
    ensures Split(text + "\n") == (Split(text).0 + [Split(text).1], "")
  {
    assert (text + "\n")[..|text|] == text;
  }

  lemma {:induction false} LinesUnlines(ls: seq<string>)
    requires forall i :: 0 <= i < |ls| ==> OneLine(ls[i])
    ensures Split(Unlines(ls)) == (ls, "")
  {
    if ls != [] {
      var init, last := ls[..|ls| - 1], ls[|ls| - 1];
      LinesUnlines(init);
      SplitMore(Unlines(init), last);
      SplitNewline(Unlines(init) + last);
      Whole(init, last, ls);
    }
  }

  lemma Whole(init: seq<string>, last: string, ls: seq<string>)
    requires ls != [] && init == ls[..|ls| - 1] && last == ls[|ls| - 1]
    ensures init + [last] == ls && "" + last == last
  {
  }

  // ================================================================ words

  lemma {:induction false} SkipShift(a: string, b: string, i: nat)
    requires i <= |b|
    ensures SkipSpaces(a + b, |a| + i) == |a| + SkipSpaces(b, i)
    decreases |b| - i
  {
    if i < |b| {
      assert (a + b)[|a| + i] == b[i];
      SkipShift(a, b, i + 1);
    }
  }

  lemma {:induction false} WordEndShift(a: string, b: string, i: nat)
    requires i <= |b|
    ensures WordEnd(a + b, |a| + i) == |a| + WordEnd(b, i)
    decreases |b| - i
  {
    if i < |b| {
      assert (a + b)[|a| + i] == b[i];
      WordEndShift(a, b, i + 1);
    }
  }

  /** The words from a place on do not depend on what precedes it. */
  lemma {:induction false} WordsShift(a: string, b: string, i: nat)
    requires i <= |b|
    ensures WordsFrom(a + b, |a| + i) == WordsFrom(b, i)
    decreases |b| - i
  {
    var j := SkipSpaces(b, i);
    SkipShift(a, b, i);
    if j < |b| {
      var k := WordEnd(b, j);
      WordEndShift(a, b, j);
      assert (a + b)[|a| + j..|a| + k] == b[j..k];
      WordsShift(a, b, k);
    }
  }

  lemma {:induction false} WordEndIs(s: string, i: nat, n: nat)
    requires i <= n <= |s| && (n < |s| ==> IsSpace(s[n]))
    requires forall k :: i <= k < n ==> !IsSpace(s[k])
    ensures WordEnd(s, i) == n
    decreases n - i
  {
    if i < n {
      WordEndIs(s, i + 1, n);
    }
  }

  lemma WordFirst(word: string, rest: string)
    requires word != "" && NoSpace(word) && (rest == "" || IsSpace(rest[0]))
    ensures SplitWhitespace(word + rest) == [word] + SplitWhitespace(rest)
  {
    var s, n := word + rest, |word|;
    assert forall k :: 0 <= k < n ==> s[k] == word[k];
    WordEndIs(s, 0, n);
    assert s[0..n] == word;
    WordsShift(word, rest, 0);
  }

  lemma BlankFirst(s: string)
    ensures SplitWhitespace(" " + s) == SplitWhitespace(s)
  {
    var blank := " ";
    assert (blank + s)[0] == ' ' && |blank| == 1;
    WordsShift(blank, s, 0);
  }

  /** The integers of some words, None when one is not an i32. */
  function Literals(words: seq<string>): (r: Option<seq<int>>)
    ensures r.Some? ==> forall i :: 0 <= i < |r.value| ==> InRange(r.value[i])
  {
    if words == [] then Some([])
    else
      var init, last := Literals(words[..|words| - 1]), ParseI32(words[|words| - 1]);
      if init.Some? && last.Some? then Some(init.value + [last.value]) else None
  }

  predicate InRange(i: int) { -I32_BOUND <= i < I32_BOUND }

  function Cons(first: Option<int>, rest: Option<seq<int>>): Option<seq<int>> {
    if first.Some? && rest.Some? then Some([first.value] + rest.value) else None
  }

  lemma {:induction false} LiteralsFirst(word: string, words: seq<string>)
    ensures Literals([word] + words) == Cons(ParseI32(word), Literals(words))
  {
    var all := [word] + words;
    if words == [] {
      assert all[..0] == [] && all == [word] && Literals([]) == Some([]);
      assert ParseI32(word).Some? ==> [] + [ParseI32(word).value] == [ParseI32(word).value] + [];
    } else {
      var init := words[..|words| - 1];
      assert all[..|all| - 1] == [word] + init && all[|all| - 1] == words[|words| - 1];
      LiteralsFirst(word, init);
      var first, last := ParseI32(word), ParseI32(words[|words| - 1]);
      assert first.Some? && Literals(words).Some? ==>
          [first.value] + (Literals(init).value + [last.value]) == [first.value] + Literals(init).value + [last.value];
    }
  }

  /** The integers on a line. */
  function Read(line: string): (r: Option<seq<int>>)
    ensures r.Some? ==> forall i :: 0 <= i < |r.value| ==> InRange(r.value[i])
  {
    Literals(SplitWhitespace(line))
  }

  lemma ReadWord(word: string, rest: string)
    requires word != "" && NoSpace(word) && (rest == "" || IsSpace(rest[0]))
    ensures Read(word + rest) == Cons(ParseI32(word), Read(rest))
  {
    WordFirst(word, rest);
    LiteralsFirst(word, SplitWhitespace(rest));
  }

  lemma ReadBlank(s: string)
    ensures Read(" " + s) == Read(s)
  {
    BlankFirst(s);
  }

  lemma ReadWordBlank(word: string, rest: string)
    requires word != "" && NoSpace(word)
    ensures Read(word + " " + rest) == Cons(ParseI32(word), Read(rest))
  {
    Grouped(word, " ", rest);
    ReadWord(word, " " + rest);
    ReadBlank(rest);
  }

  lemma ReadLiteral(literal: int, rest: string)
    requires InRange(literal)
    ensures Read(FormatInt(literal) + " " + rest) == Cons(Some(literal), Read(rest))
  {
    ParseFormatInt(literal);
    ReadWordBlank(FormatInt(literal), rest);
  }

  lemma ReadNumber(n: nat, rest: string)
    requires rest == "" || IsSpace(rest[0])
    ensures Read(" " + FormatNat(n) + rest) == Cons(if n < I32_BOUND then Some(n) else None, Read(rest))
  {
    ParseNatWord(n);
    Grouped(" ", FormatNat(n), rest);
    ReadBlank(FormatNat(n) + rest);
    ReadWord(FormatNat(n), rest);
  }

  lemma Grouped(a: string, b: string, c: string)
    ensures a + b + c == a + (b + c)
  {
  }

  lemma ParseNatWord(n: nat)
    ensures ParseI32(FormatNat(n)) == if n < I32_BOUND then Some(n) else None
  {
    assert IsDigit(FormatNat(n)[0]);
  }

  lemma ReadLast(word: string)
    requires word != "" && NoSpace(word)
    ensures Read(word) == if ParseI32(word).Some? then Some([ParseI32(word).value]) else None
  {
    ReadWord(word, "");
    assert word + "" == word;
    assert ParseI32(word).Some? ==> [ParseI32(word).value] + [] == [ParseI32(word).value];
  }

  /** Integers separated by blanks. */
  function SpacedText(ints: seq<int>): (s: string)
    requires ints != []
    ensures s != ""
  {
    if |ints| == 1 then FormatInt(ints[0]) else IntThen(ints[0], SpacedText(ints[1..]))
  }

  function IntThen(i: int, rest: string): (s: string)
    ensures s != ""
  {
    FormatInt(i) + " " + rest
  }

  predicate AllInRange(ints: seq<int>) {
    forall i :: 0 <= i < |ints| ==> InRange(ints[i])
  }

  /** What a reader of spaced integers must do. */
  ghost predicate TakesIntegers(read: string -> Option<seq<int>>) {
    && (forall i :: InRange(i) ==> read(FormatInt(i)) == Some([i]))
    && (forall i, rest {:trigger read(IntThen(i, rest))} ::
          InRange(i) ==> read(IntThen(i, rest)) == Cons(Some(i), read(rest)))
  }

  ghost predicate TakesNothing(read: string -> Option<seq<int>>) {
    forall s {:trigger read(s)} :: |s| == 0 ==> read(s) == Some([])
  }

  ghost predicate TakesNumbers(read: string -> Option<seq<int>>) {
    forall n: nat, rest {:trigger read(NumberThen(n, rest))} :: rest == "" || IsSpace(rest[0]) ==>
      read(NumberThen(n, rest)) == Cons(if n < I32_BOUND then Some(n) else None, read(rest))
  }

  lemma ReadOne(i: int)
    requires InRange(i)
    ensures Read(FormatInt(i)) == Some([i])
  {
    ParseFormatInt(i);
    ReadLast(FormatInt(i));
  }

  lemma ReadEmpty(s: string)
    requires |s| == 0
    ensures Read(s) == Some([])
  {
  }

  lemma ReadTakesIntegers()
    ensures TakesIntegers(Read)
  {
    forall i | InRange(i)
      ensures Read(FormatInt(i)) == Some([i])
    {
      ReadOne(i);
    }
    forall i, rest | InRange(i)
      ensures Read(IntThen(i, rest)) == Cons(Some(i), Read(rest))
    {
      ReadLiteral(i, rest);
    }
  }

  lemma ReadTakesNothing()
    ensures TakesNothing(Read)
  {
    forall s: string | |s| == 0
      ensures Read(s) == Some([])
    {
      ReadEmpty(s);
    }
  }

  lemma ReadTakesNumbers()
    ensures TakesNumbers(Read)
  {
    forall n: nat, rest | rest == "" || IsSpace(rest[0])
      ensures Read(NumberThen(n, rest)) == Cons(if n < I32_BOUND then Some(n) else None, Read(rest))
    {
      ReadNumber(n, rest);
    }
  }

  lemma {:induction false} ReadSpaced(read: string -> Option<seq<int>>, ints: seq<int>)
    requires TakesIntegers(read) && ints != [] && AllInRange(ints)
    ensures read(SpacedText(ints)) == Some(ints)
  {
    if |ints| == 1 {
      assert ints == [ints[0]];
    } else {
      ReadSpaced(read, ints[1..]);
      assert ints == [ints[0]] + ints[1..];
    }
  }

  lemma ReadSpacedText(ints: seq<int>)
    requires ints != [] && AllInRange(ints)
    ensures Read(SpacedText(ints)) == Some(ints)
  {
    ReadTakesIntegers();
    ReadSpaced(Read, ints);
  }

  /** No blank at either end, no line break, and the first character is of a number. */
  predicate Plain(s: string) {
    s != "" && !IsSpace(s[|s| - 1]) && OneLine(s) && (IsDigit(s[0]) || s[0] == '-')
  }

  lemma FormatNatPlain(n: nat)
    ensures OneLine(FormatNat(n)) && IsDigit(FormatNat(n)[0])
  {
    assert forall i :: 0 <= i < |FormatNat(n)| ==> IsDigit(FormatNat(n)[i]);
  }

  lemma FormatIntPlain(i: int)
    ensures Plain(FormatInt(i))
  {
    FormatNatPlain(if i < 0 then -i else i);
  }

  lemma {:induction false} SpacedTextPlain(ints: seq<int>)
    requires ints != []
    ensures Plain(SpacedText(ints))
  {
    FormatIntPlain(ints[0]);
    if |ints| > 1 {
      SpacedTextPlain(ints[1..]);
    }
  }

  /** Integers each preceded by a blank. */
  function TailText(ints: seq<nat>): (s: string)
    ensures ints != [] ==> s != "" && s[0] == ' '
  {
    if ints == [] then "" else NumberThen(ints[0], TailText(ints[1..]))
  }

  function NumberThen(n: nat, rest: string): (s: string)
    ensures s != "" && s[0] == ' '
  {
    " " + FormatNat(n) + rest
  }

  predicate AllBelow(ns: seq<nat>, bound: int) {
    forall i :: 0 <= i < |ns| ==> ns[i] < bound
  }

  lemma {:induction false} ReadTail(read: string -> Option<seq<int>>, ints: seq<nat>)
    requires TakesNothing(read) && TakesNumbers(read)
    ensures read(TailText(ints)) == if AllBelow(ints, I32_BOUND) then Some(ints) else None
  {
    if ints != [] {
      ReadTail(read, ints[1..]);
      assert ints == [ints[0]] + ints[1..];
    }
  }

  lemma ReadTailText(ints: seq<nat>)
    ensures Read(TailText(ints)) == if AllBelow(ints, I32_BOUND) then Some(ints) else None
  {
    ReadTakesNothing();
    ReadTakesNumbers();
    ReadTail(Read, ints);
  }

  lemma {:induction false} TailTextPlain(ints: seq<nat>)
    ensures OneLine(TailText(ints)) && (ints != [] ==> !IsSpace(TailText(ints)[|TailText(ints)| - 1]))
  {
    if ints != [] {
      TailTextPlain(ints[1..]);
      FormatNatPlain(ints[0]);
    }
  }
}
