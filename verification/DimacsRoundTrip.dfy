/** Parsing undoes writing, and the clauses parsed are the literal stream's. */
module DimacsRoundTrip {
  import opened Prelude
  import opened RustText
  import opened DimacsText
  import opened Dimacs

  // ================================================================ clauses and stream

  /** Clauses as a stream, each ended by a zero. */
  function Flat(clauses: seq<seq<int>>): seq<int> {
    if clauses == [] then [] else Flat(clauses[..|clauses| - 1]) + clauses[|clauses| - 1] + [0]
  }

  predicate Declared(clause: seq<int>, numVars: nat) {
    forall i :: 0 <= i < |clause| ==> clause[i] != 0 && Magnitude(clause[i]) <= numVars
  }

  predicate AllDeclared(clauses: seq<seq<int>>, numVars: nat) {
    forall i :: 0 <= i < |clauses| ==> Declared(clauses[i], numVars)
  }

  lemma {:induction false} CutIsFlat(body: seq<int>, numVars: nat)
    ensures var cut := CutStream(body, numVars);
            cut.Ok? ==>
              && body == Flat(cut.value.clauses) + cut.value.current
              && AllDeclared(cut.value.clauses, numVars) && Declared(cut.value.current, numVars)
  {
    if body != [] {
      var init, literal := body[..|body| - 1], body[|body| - 1];
      CutIsFlat(init, numVars);
      var before := CutStream(init, numVars);
      assert body == init + [literal];
      if before.Ok? {
        var clauses, current := before.value.clauses, before.value.current;
        assert (clauses + [current])[..|clauses|] == clauses;
        assert Flat(clauses) + current + [literal] == Flat(clauses) + (current + [literal]);
        assert Flat(clauses + [current]) + [] == Flat(clauses + [current]);
      }
    }
  }

  lemma {:induction false} FlatCuts(clauses: seq<seq<int>>, current: seq<int>, numVars: nat)
    requires AllDeclared(clauses, numVars) && Declared(current, numVars)
    ensures CutStream(Flat(clauses) + current, numVars) == Ok(Cut(clauses, current))
    decreases |clauses|, |current|
  {
    var body := Flat(clauses) + current;
    if current != [] {
      var init, literal := current[..|current| - 1], current[|current| - 1];
      FlatCuts(clauses, init, numVars);
      assert body[..|body| - 1] == Flat(clauses) + init;
      assert init + [literal] == current;
    } else if clauses != [] {
      var before, last := clauses[..|clauses| - 1], clauses[|clauses| - 1];
      FlatCuts(before, last, numVars);
      assert body[..|body| - 1] == Flat(before) + last && body[|body| - 1] == 0;
      assert before + [last] == clauses;
    }
  }

  /** A problem is accepted exactly when its clauses written in a row, each ended by a zero, are the
      literal stream, as many as announced and over declared variables. */
  lemma AcceptedIff(r: Reading, x: QCnf)
    ensures Finish(Ok(r)) == Ok(x)
        <==> && r.found && x == QCnf(r.numVars, r.blocks, x.clauses, r.comments)
             && Flat(x.clauses) == r.body && |x.clauses| == r.expected && AllDeclared(x.clauses, r.numVars)
  {
    CutIsFlat(r.body, r.numVars);
    if Flat(x.clauses) == r.body && AllDeclared(x.clauses, r.numVars) {
      FlatCuts(x.clauses, [], r.numVars);
      assert Flat(x.clauses) + [] == r.body;
    }
    var cut := CutStream(r.body, r.numVars);
    if cut.Ok? && cut.value.current == [] {
      assert Flat(cut.value.clauses) + [] == Flat(cut.value.clauses);
    }
  }

  // ================================================================ line breaks

  lemma {:induction false} FoldAppend(step: Step, start: Read1, a: seq<string>, b: seq<string>)
    ensures Fold(step, start, a + b) == Fold(step, Fold(step, start, a), b)
  {
    if b == [] {
      assert a + b == a;
    } else {
      assert (a + b)[..|a + b| - 1] == a + b[..|b| - 1];
      FoldAppend(step, start, a, b[..|b| - 1]);
    }
  }

  type Reader = string -> Option<seq<int>>

  function ReaderBy(trim: string -> string, read: Reader): Reader { line => read(trim(line)) }

  /** The integers of a line that holds nothing else. */
  function LineReader(): Reader { ReaderBy(Trim, Read) }

  /** The literals of lines that hold nothing else, None when some line does. */
  function StreamOf(read: Reader, lines: seq<string>): Option<seq<int>> {
    if lines == [] then Some([])
    else
      var init, last := StreamOf(read, lines[..|lines| - 1]), read(lines[|lines| - 1]);
      if init.Some? && last.Some? then Some(init.value + last.value) else None
  }

  lemma {:induction false} WordPart(line: string, i: nat)
    requires i <= |line|
    ensures forall k :: i <= k < WordEnd(line, i) ==> !IsSpace(line[k])
    decreases |line| - i
  {
    if i < |line| && !IsSpace(line[i]) {
      WordPart(line, i + 1);
    }
  }

  lemma FirstWord(line: string) returns (word: string, rest: string)
    requires line != "" && !IsSpace(line[0])
    ensures line == word + rest && word != "" && NoSpace(word) && word[0] == line[0]
    ensures rest == "" || IsSpace(rest[0])
  {
    var n := WordEnd(line, 0);
    WordPart(line, 0);
    word, rest := line[..n], line[n..];
  }

  lemma StartsNumber(word: string)
    requires ParseI32(word).Some?
    ensures word != "" && (IsDigit(word[0]) || word[0] == '-' || word[0] == '+')
  {
  }

  lemma ConsNonempty(first: Option<int>, rest: Option<seq<int>>)
    requires Cons(first, rest).Some?
    ensures first.Some? && Cons(first, rest).value != []
  {
  }

  lemma LiteralStart(line: string)
    requires Read(line).Some? && line != "" && !IsSpace(line[0])
    ensures IsDigit(line[0]) || line[0] == '-' || line[0] == '+'
    ensures Read(line).value != []
  {
    var word, rest := FirstWord(line);
    ReadWord(word, rest);
    ConsNonempty(ParseI32(word), Read(rest));
    StartsNumber(word);
  }

  lemma ProblemPrefix(t: string)
    ensures "p cnf" <= t ==> t != "" && t[0] == 'p'
  {
  }

  lemma LiteralTrimmed(quantified: bool, r: Reading, t: string, words: seq<string>, vs: seq<int>,
                       tail: Option<seq<int>>)
    requires t != "" && (IsDigit(t[0]) || t[0] == '-' || t[0] == '+')
    ensures ReadTrimmed(quantified, r, t, words, Some(vs), tail)
         == if r.found then Ok(r.(body := r.body + vs)) else Err(NothingDeclared)
  {
    ProblemPrefix(t);
  }

  /** What trimming and reading do that a line of literals relies on. */
  ghost predicate ReadsLiterals(trim: string -> string, read: Reader) {
    && (forall t {:trigger read(t)} :: |t| == 0 ==> read(t) == Some([]))
    && (forall line {:trigger trim(line)} :: trim(line) != "" ==> !IsSpace(trim(line)[0]))
    && (forall t {:trigger read(t)} :: t != "" && !IsSpace(t[0]) && read(t).Some? ==>
          read(t).value != [] && (IsDigit(t[0]) || t[0] == '-' || t[0] == '+'))
  }

  lemma TextReadsLiterals()
    ensures ReadsLiterals(Trim, Read)
  {
    forall t: string | |t| == 0
      ensures Read(t) == Some([])
    {
      ReadEmpty(t);
    }
    forall line | Trim(line) != ""
      ensures !IsSpace(Trim(line)[0])
    {
      TrimIsTrimmed(line);
    }
    forall t | t != "" && !IsSpace(t[0]) && Read(t).Some?
      ensures Read(t).value != [] && (IsDigit(t[0]) || t[0] == '-' || t[0] == '+')
    {
      LiteralStart(t);
    }
  }

  /** A line of literals only adds them to the stream; before the problem line it is an error, unless
      it is blank. */
  lemma LiteralLineBy(trim: string -> string, split: string -> seq<string>, read: Reader,
                      quantified: bool, r: Reading, line: string)
    requires ReadsLiterals(trim, read) && read(trim(line)).Some?
    ensures ReadLineBy(trim, split, read, quantified, r, line) == AddLiterals(r, read(trim(line)).value)
  {
    var t := trim(line);
    if t == "" {
      assert r.body + [] == r.body;
    } else {
      LiteralTrimmed(quantified, r, t, split(t), read(t).value, read(t[1..]));
    }
  }

  function AddLiterals(r: Reading, literals: seq<int>): Read1 {
    if r.found || literals == [] then Ok(r.(body := r.body + literals)) else Err(NothingDeclared)
  }

  lemma TrimIsTrimmed(s: string)
    ensures Trimmed(Trim(s)) && (OneLine(s) ==> OneLine(Trim(s)))
  {
    MiddlePart(s, TrimStart(s), TrimEnd(TrimStart(s)));
  }

  /** A part from the middle that neither begins nor ends with a blank. */
  lemma MiddlePart(s: string, t: string, u: string)
    requires |t| <= |s| && t == s[|s| - |t|..] && |u| <= |t| && u == t[..|u|]
    requires (t != "" ==> !IsSpace(t[0])) && (u != "" ==> !IsSpace(u[|u| - 1]))
    ensures Trimmed(u) && (OneLine(s) ==> OneLine(u))
  {
    if u != "" {
      assert u[0] == t[0];
    }
    assert forall i :: 0 <= i < |u| ==> u[i] == s[|s| - |t| + i];
  }

  ghost predicate TakesLiterals(step: Step, read: Reader) {
    forall r: Reading, line {:trigger step(r, line)} ::
      read(line).Some? ==> step(r, line) == AddLiterals(r, read(line).value)
  }

  lemma {:induction false} StreamFolds(step: Step, read: Reader, r: Reading, lines: seq<string>)
    requires TakesLiterals(step, read) && StreamOf(read, lines).Some?
    ensures Fold(step, Ok(r), lines) == AddLiterals(r, StreamOf(read, lines).value)
  {
    if lines == [] {
      assert r.body + [] == r.body;
    } else {
      var init, last := lines[..|lines| - 1], read(lines[|lines| - 1]);
      StreamFolds(step, read, r, init);
      assert r.body + (StreamOf(read, init).value + last.value) == r.body + StreamOf(read, init).value + last.value;
    }
  }

  /** Lines of literals may be broken anywhere between literals: only their stream counts. */
  lemma LineBreaksIrrelevant(quantified: bool, pre: seq<string>, a: seq<string>, b: seq<string>, post: seq<string>)
    requires StreamOf(LineReader(), a).Some? && StreamOf(LineReader(), a) == StreamOf(LineReader(), b)
    ensures Finish(Fold(LineStep(quantified), Ok(START), pre + a + post))
         == Finish(Fold(LineStep(quantified), Ok(START), pre + b + post))
  {
    StepTakesLiterals(quantified);
    SameStream(LineStep(quantified), LineReader(), pre, a, b, post);
  }

  lemma StepByTakesLiterals(trim: string -> string, split: string -> seq<string>, read: Reader, quantified: bool)
    requires ReadsLiterals(trim, read)
    ensures TakesLiterals(StepBy(trim, split, read, quantified), ReaderBy(trim, read))
  {
    var step, reader := StepBy(trim, split, read, quantified), ReaderBy(trim, read);
    forall r: Reading, line | reader(line).Some?
      ensures step(r, line) == AddLiterals(r, reader(line).value)
    {
      LiteralLineBy(trim, split, read, quantified, r, line);
    }
  }

  lemma StepTakesLiterals(quantified: bool)
    ensures TakesLiterals(LineStep(quantified), LineReader())
  {
    TextReadsLiterals();
    StepByTakesLiterals(Trim, SplitWhitespace, Read, quantified);
  }

  lemma SameStream(step: Step, read: Reader, pre: seq<string>, a: seq<string>, b: seq<string>, post: seq<string>)
    requires TakesLiterals(step, read) && StreamOf(read, a).Some? && StreamOf(read, a) == StreamOf(read, b)
    ensures Fold(step, Ok(START), pre + a + post) == Fold(step, Ok(START), pre + b + post)
  {
    FoldAppend(step, Ok(START), pre + a, post);
    FoldAppend(step, Ok(START), pre + b, post);
    FoldAppend(step, Ok(START), pre, a);
    FoldAppend(step, Ok(START), pre, b);
    var before := Fold(step, Ok(START), pre);
    if before.Ok? {
      StreamFolds(step, read, before.value, a);
      StreamFolds(step, read, before.value, b);
    } else {
      FoldError(step, before, a);
      FoldError(step, before, b);
    }
  }

  lemma {:induction false} FoldError(step: Step, start: Read1, lines: seq<string>)
    requires start.Err?
    ensures Fold(step, start, lines) == start
  {
    if lines != [] {
      FoldError(step, start, lines[..|lines| - 1]);
    }
  }

  // ================================================================ the written lines read

  predicate GoodBlock(block: Block, numVars: nat) {
    AllBelow(block.variables, I32_BOUND) && Quantifiable(block.variables, numVars)
  }

  ghost predicate ReadsComments(step: Step) {
    forall r: Reading, c {:trigger step(r, CommentLine(c))} ::
      Trimmed(c) ==> step(r, CommentLine(c)) == Ok(r.(comments := r.comments + [c]))
  }

  function AddBlock(r: Reading, b: Block): Read1 {
    if GoodBlock(b, r.numVars) then Ok(r.(blocks := r.blocks + [b])) else Err(BadQuantifier)
  }

  ghost predicate ReadsBlocks(step: Step) {
    forall r: Reading, b {:trigger step(r, BlockLine(b))} :: r.found ==> step(r, BlockLine(b)) == AddBlock(r, b)
  }

  ghost predicate ReadsClauses(step: Step) {
    forall r: Reading, c {:trigger step(r, ClauseLine(c))} ::
      r.found && AllInRange(c) ==> step(r, ClauseLine(c)) == Ok(r.(body := r.body + (c + [0])))
  }

  lemma CommentTrims(c: string)
    requires Trimmed(c)
    ensures var t := Trim(CommentLine(c));
            t != "" && t[0] == 'c' && Trim(t[1..]) == c
  {
    var line := CommentLine(c);
    assert line[0] == 'c' && line[1] == ' ' && line[2..] == c;
    if c == "" {
      EmptyComment(line);
    } else {
      assert line[|line| - 1] == c[|c| - 1];
      TrimTrimmed(line);
      assert line[1..] == " " + c;
      TrimAfterBlank(c);
    }
  }

  lemma EmptyComment(line: string)
    requires |line| == 2 && line[0] == 'c' && line[1] == ' '
    ensures Trim(line) == line[..1] && Trim(line[..1][1..]) == ""
  {
    assert TrimStart(line) == line && DropSpaces(line, 2) == 1;
    var rest := line[..1][1..];
    assert |rest| == 0;
  }

  lemma TrimAfterBlank(c: string)
    requires Trimmed(c)
    ensures Trim(" " + c) == c
  {
    var s := " " + c;
    assert s[1..] == c && IsSpace(s[0]) && (c != "" ==> s[1] == c[0]);
    assert SkipSpaces(s, 1) == 1;
    TrimTrimmed(c);
  }

  lemma CommentLineRead(quantified: bool, r: Reading, c: string)
    requires Trimmed(c)
    ensures ReadLine(quantified, r, CommentLine(c)) == Ok(r.(comments := r.comments + [c]))
  {
    CommentTrims(c);
  }

  lemma BlockTrimmed(r: Reading, t: string, words: seq<string>, literals: Option<seq<int>>, tail: Option<seq<int>>,
                     block: Block)
    requires r.found && t != "" && t[0] == (if block.universal then 'a' else 'e')
    requires tail == if AllBelow(block.variables + [0], I32_BOUND) then Some(block.variables + [0]) else None
    ensures ReadTrimmed(true, r, t, words, literals, tail) == AddBlock(r, block)
  {
    var vs := block.variables + [0];
    ProblemPrefix(t);
    assert WithoutZero(vs) == block.variables;
    assert AllBelow(vs, I32_BOUND) <==> AllBelow(block.variables, I32_BOUND) by {
      assert forall i :: 0 <= i < |block.variables| ==> vs[i] == block.variables[i];
      assert forall i :: 0 <= i < |vs| ==> vs[i] == if i < |block.variables| then block.variables[i] else 0;
    }
  }

  lemma BlockShape(block: Block)
    ensures var line := BlockLine(block);
            && Trimmed(line) && line != "" && OneLine(line) && line[0] == (if block.universal then 'a' else 'e')
            && line[1..] == TailText(block.variables + [0])
  {
    var line, tail := BlockLine(block), TailText(block.variables + [0]);
    TailTextPlain(block.variables + [0]);
    assert line[1..] == tail && line[|line| - 1] == tail[|tail| - 1];
  }

  lemma BlockLineRead(r: Reading, block: Block)
    requires r.found
    ensures ReadLine(true, r, BlockLine(block)) == AddBlock(r, block)
  {
    var line := BlockLine(block);
    BlockShape(block);
    TrimTrimmed(line);
    ReadTailText(block.variables + [0]);
    BlockTrimmed(r, line, SplitWhitespace(line), Read(line), Read(line[1..]), block);
  }

  lemma ClauseLineRead(quantified: bool, r: Reading, clause: seq<int>)
    requires r.found && AllInRange(clause)
    ensures ReadLine(quantified, r, ClauseLine(clause)) == Ok(r.(body := r.body + (clause + [0])))
  {
    var line := ClauseLine(clause);
    SpacedTextPlain(clause + [0]);
    TrimTrimmed(line);
    ReadSpacedText(clause + [0]);
    LiteralTrimmed(quantified, r, line, SplitWhitespace(line), clause + [0], Read(line[1..]));
  }

  lemma LastWord(word: string)
    requires word != "" && NoSpace(word)
    ensures SplitWhitespace(word) == [word]
  {
    WordFirst(word, "");
    assert word + "" == word;
    assert [word] + SplitWhitespace("") == [word];
  }

  lemma MoreWords(word: string, rest: string)
    requires word != "" && NoSpace(word)
    ensures SplitWhitespace(word + " " + rest) == [word] + SplitWhitespace(rest)
  {
    Grouped(word, " ", rest);
    WordFirst(word, " " + rest);
    BlankFirst(rest);
  }

  type Splitter = string -> seq<string>

  ghost predicate SplitsWords(split: Splitter) {
    && (forall w :: w != "" && NoSpace(w) ==> split(w) == [w])
    && (forall w, rest {:trigger split(w + " " + rest)} ::
          w != "" && NoSpace(w) ==> split(w + " " + rest) == [w] + split(rest))
  }

  lemma WhitespaceSplits()
    ensures SplitsWords(SplitWhitespace)
  {
    forall w: string | w != "" && NoSpace(w)
      ensures SplitWhitespace(w) == [w]
    {
      LastWord(w);
    }
    forall w: string, rest | w != "" && NoSpace(w)
      ensures SplitWhitespace(w + " " + rest) == [w] + SplitWhitespace(rest)
    {
      MoreWords(w, rest);
    }
  }

  lemma FourWords(split: Splitter, a: string, b: string, c: string, d: string)
    requires SplitsWords(split)
    requires a != "" && NoSpace(a) && b != "" && NoSpace(b) && c != "" && NoSpace(c) && d != "" && NoSpace(d)
    ensures split(a + " " + (b + " " + (c + " " + d))) == [a, b, c, d]
  {
    var cd := c + " " + d;
    assert split(cd) == [c] + split(d);
    assert split(b + " " + cd) == [b] + split(cd);
    assert split(a + " " + (b + " " + cd)) == [a] + split(b + " " + cd);
    assert [a] + ([b] + ([c] + [d])) == [a, b, c, d];
  }

  lemma ProblemShape(numVars: nat, numClauses: nat)
    ensures var line := ProblemLine(numVars, numClauses);
            && Trimmed(line) && OneLine(line) && line != "" && line[0] == 'p' && "p cnf" <= line
            && line == "p" + " " + ("cnf" + " " + (FormatNat(numVars) + " " + FormatNat(numClauses)))
  {
    FormatNatPlain(numVars);
    FormatNatPlain(numClauses);
    PairShape(FormatNat(numVars), FormatNat(numClauses));
  }

  lemma PairShape(n: string, m: string)
    requires n != "" && NoSpace(n) && OneLine(n) && m != "" && NoSpace(m) && OneLine(m)
    ensures var line := "p cnf " + n + " " + m;
            && Trimmed(line) && OneLine(line) && line != "" && line[0] == 'p' && "p cnf" <= line
            && line == "p" + " " + ("cnf" + " " + (n + " " + m))
  {
    var line := "p cnf " + n + " " + m;
    assert line[|line| - 1] == m[|m| - 1] && line[..5] == "p cnf";
  }

  lemma ProblemTrimmed(quantified: bool, r: Reading, t: string, words: seq<string>, literals: Option<seq<int>>,
                       tail: Option<seq<int>>, numVars: nat, numClauses: nat)
    requires t != "" && t[0] == 'p' && "p cnf" <= t && |words| == 4
    requires ParseNat(words[2], USIZE_BOUND) == Some(numVars) && ParseNat(words[3], USIZE_BOUND) == Some(numClauses)
    ensures ReadTrimmed(quantified, r, t, words, literals, tail)
         == Ok(r.(found := true, numVars := numVars, expected := numClauses))
  {
  }

  lemma ProblemSplit(split: Splitter, numVars: nat, numClauses: nat)
    requires SplitsWords(split)
    ensures split(ProblemLine(numVars, numClauses)) == ["p", "cnf", FormatNat(numVars), FormatNat(numClauses)]
  {
    ProblemShape(numVars, numClauses);
    FourWords(split, "p", "cnf", FormatNat(numVars), FormatNat(numClauses));
  }

  lemma ProblemWords(numVars: nat, numClauses: nat)
    ensures SplitWhitespace(ProblemLine(numVars, numClauses)) == ["p", "cnf", FormatNat(numVars), FormatNat(numClauses)]
  {
    WhitespaceSplits();
    ProblemSplit(SplitWhitespace, numVars, numClauses);
  }

  lemma ProblemLineRead(quantified: bool, r: Reading, numVars: nat, numClauses: nat)
    requires numVars < USIZE_BOUND && numClauses < USIZE_BOUND
    ensures ReadLine(quantified, r, ProblemLine(numVars, numClauses))
         == Ok(r.(found := true, numVars := numVars, expected := numClauses))
  {
    var line := ProblemLine(numVars, numClauses);
    ProblemShape(numVars, numClauses);
    TrimTrimmed(line);
    ProblemWords(numVars, numClauses);
    ParseFormatNat(numVars, USIZE_BOUND);
    ParseFormatNat(numClauses, USIZE_BOUND);
    ProblemTrimmed(quantified, r, line, SplitWhitespace(line), Read(line), Read(line[1..]), numVars, numClauses);
  }

  lemma StepReadsComments(quantified: bool)
    ensures ReadsComments(LineStep(quantified))
  {
    forall r: Reading, c | Trimmed(c)
      ensures LineStep(quantified)(r, CommentLine(c)) == Ok(r.(comments := r.comments + [c]))
    {
      CommentLineRead(quantified, r, c);
    }
  }

  lemma StepReadsClauses(quantified: bool)
    ensures ReadsClauses(LineStep(quantified))
  {
    forall r: Reading, c | r.found && AllInRange(c)
      ensures LineStep(quantified)(r, ClauseLine(c)) == Ok(r.(body := r.body + (c + [0])))
    {
      ClauseLineRead(quantified, r, c);
    }
  }

  lemma StepReadsBlocks()
    ensures ReadsBlocks(LineStep(true))
  {
    forall r: Reading, b | r.found
      ensures LineStep(true)(r, BlockLine(b)) == AddBlock(r, b)
    {
      BlockLineRead(r, b);
    }
  }

  // ================================================================ folding the written lines

  predicate CleanComments(comments: seq<string>) {
    forall i :: 0 <= i < |comments| ==> Trimmed(comments[i]) && OneLine(comments[i])
  }

  predicate GoodBlocks(blocks: seq<Block>, numVars: nat) {
    forall i :: 0 <= i < |blocks| ==> GoodBlock(blocks[i], numVars)
  }

  predicate ClausesInRange(clauses: seq<seq<int>>) {
    forall i :: 0 <= i < |clauses| ==> AllInRange(clauses[i])
  }

  lemma {:induction false} FoldComments(step: Step, line: string -> string, r: Reading, comments: seq<string>)
    requires forall s: Reading, c {:trigger step(s, line(c))} ::
               Trimmed(c) ==> step(s, line(c)) == Ok(s.(comments := s.comments + [c]))
    requires CleanComments(comments)
    ensures Fold(step, Ok(r), LinesOf(line, comments)) == Ok(r.(comments := r.comments + comments))
  {
    var ls := LinesOf(line, comments);
    if comments == [] {
      assert r.comments + [] == r.comments;
    } else {
      var init, last := comments[..|comments| - 1], comments[|comments| - 1];
      FoldComments(step, line, r, init);
      assert ls[..|ls| - 1] == LinesOf(line, init) && ls[|ls| - 1] == line(last);
      assert r.comments + init + [last] == r.comments + comments;
    }
  }

  lemma {:induction false} FoldBlocks(step: Step, line: Block -> string, r: Reading, blocks: seq<Block>)
    requires forall s: Reading, b {:trigger step(s, line(b))} :: s.found ==> step(s, line(b)) == AddBlock(s, b)
    requires r.found
    ensures Fold(step, Ok(r), LinesOf(line, blocks))
         == if GoodBlocks(blocks, r.numVars) then Ok(r.(blocks := r.blocks + blocks)) else Err(BadQuantifier)
  {
    var ls := LinesOf(line, blocks);
    if blocks == [] {
      assert r.blocks + [] == r.blocks;
    } else {
      var init, last := blocks[..|blocks| - 1], blocks[|blocks| - 1];
      FoldBlocks(step, line, r, init);
      assert ls[..|ls| - 1] == LinesOf(line, init) && ls[|ls| - 1] == line(last);
      assert r.blocks + init + [last] == r.blocks + blocks;
      assert GoodBlocks(blocks, r.numVars) <==> GoodBlocks(init, r.numVars) && GoodBlock(last, r.numVars);
    }
  }

  lemma {:induction false} FoldClauses(step: Step, line: seq<int> -> string, r: Reading, clauses: seq<seq<int>>)
    requires forall s: Reading, c {:trigger step(s, line(c))} ::
               s.found && AllInRange(c) ==> step(s, line(c)) == Ok(s.(body := s.body + (c + [0])))
    requires r.found && ClausesInRange(clauses)
    ensures Fold(step, Ok(r), LinesOf(line, clauses)) == Ok(r.(body := r.body + Flat(clauses)))
  {
    var ls := LinesOf(line, clauses);
    if clauses == [] {
      assert r.body + [] == r.body;
    } else {
      var init, last := clauses[..|clauses| - 1], clauses[|clauses| - 1];
      FoldClauses(step, line, r, init);
      assert ls[..|ls| - 1] == LinesOf(line, init) && ls[|ls| - 1] == line(last);
      assert r.body + Flat(init) + (last + [0]) == r.body + (Flat(init) + last + [0]);
    }
  }

  /** What the machine types hold: 64-bit counts, 32-bit literals. */
  predicate Typed(x: QCnf) {
    x.numVars < USIZE_BOUND && |x.clauses| < USIZE_BOUND && ClausesInRange(x.clauses)
  }

  lemma WrittenFolds(quantified: bool, x: QCnf)
    requires Typed(x) && CleanComments(x.comments) && (quantified || x.blocks == [])
    ensures Fold(LineStep(quantified), Ok(START), WrittenLines(x))
         == if GoodBlocks(x.blocks, x.numVars)
            then Ok(Reading(true, x.numVars, |x.clauses|, x.comments, x.blocks, Flat(x.clauses)))
            else Err(BadQuantifier)
  {
    var step := LineStep(quantified);
    StepReadsComments(quantified);
    var comments, blocks, clauses := CommentLines(x.comments), BlockLines(x.blocks), ClauseLines(x.clauses);
    var problem := ProblemLine(x.numVars, |x.clauses|);
    var r1 := START.(comments := x.comments);
    FoldComments(step, CommentLine, START, x.comments);
    assert [] + x.comments == x.comments;
    ProblemLineRead(quantified, r1, x.numVars, |x.clauses|);
    FoldOne(step, r1, problem);
    var r2 := r1.(found := true, numVars := x.numVars, expected := |x.clauses|);
    FoldAppend(step, Ok(START), comments, [problem]);
    FoldAppend(step, Ok(START), comments + [problem], blocks);
    FoldAppend(step, Ok(START), comments + [problem] + blocks, clauses);
    FoldRest(quantified, x, r2);
  }

  lemma FoldRest(quantified: bool, x: QCnf, r: Reading)
    requires Typed(x) && (quantified || x.blocks == []) && r.found && r.numVars == x.numVars
    requires r.blocks == [] && r.body == []
    ensures Fold(LineStep(quantified), Fold(LineStep(quantified), Ok(r), BlockLines(x.blocks)), ClauseLines(x.clauses))
         == if GoodBlocks(x.blocks, x.numVars) then Ok(r.(blocks := x.blocks, body := Flat(x.clauses)))
            else Err(BadQuantifier)
  {
    var step := LineStep(quantified);
    StepReadsClauses(quantified);
    if quantified {
      StepReadsBlocks();
      FoldBlocks(step, BlockLine, r, x.blocks);
      assert [] + x.blocks == x.blocks;
    }
    assert [] + Flat(x.clauses) == Flat(x.clauses);
    if GoodBlocks(x.blocks, x.numVars) {
      FoldClauses(step, ClauseLine, r.(blocks := x.blocks), x.clauses);
    } else {
      FoldError(step, Err(BadQuantifier), ClauseLines(x.clauses));
    }
  }

  lemma FoldOne(step: Step, r: Reading, line: string)
    ensures Fold(step, Ok(r), [line]) == step(r, line)
  {
    assert [line][..0] == [];
  }

  lemma {:induction false} OneLineEach<T>(line: T -> string, xs: seq<T>)
    requires forall i :: 0 <= i < |xs| ==> OneLine(line(xs[i]))
    ensures forall i :: 0 <= i < |xs| ==> OneLine(LinesOf(line, xs)[i])
  {
    if xs != [] {
      OneLineEach(line, xs[..|xs| - 1]);
    }
  }

  lemma WrittenReads(x: QCnf)
    requires CleanComments(x.comments)
    ensures Lines(Unlines(WrittenLines(x))) == WrittenLines(x)
  {
    OneLineEach(CommentLine, x.comments);
    forall i | 0 <= i < |x.blocks|
      ensures OneLine(BlockLine(x.blocks[i]))
    {
      BlockShape(x.blocks[i]);
    }
    OneLineEach(BlockLine, x.blocks);
    forall i | 0 <= i < |x.clauses|
      ensures OneLine(ClauseLine(x.clauses[i]))
    {
      SpacedTextPlain(x.clauses[i] + [0]);
    }
    OneLineEach(ClauseLine, x.clauses);
    ProblemShape(x.numVars, |x.clauses|);
    OneLineAll(CommentLines(x.comments), ProblemLine(x.numVars, |x.clauses|), BlockLines(x.blocks),
      ClauseLines(x.clauses));
    LinesUnlines(WrittenLines(x));
  }

  predicate OneLines(ls: seq<string>) {
    forall i :: 0 <= i < |ls| ==> OneLine(ls[i])
  }

  lemma OneLineAll(a: seq<string>, line: string, b: seq<string>, c: seq<string>)
    requires OneLines(a) && OneLine(line) && OneLines(b) && OneLines(c)
    ensures OneLines(a + [line] + b + c)
  {
  }

  // ================================================================ the round trip

  /** Comments trimmed and on one line, literals and quantified variables declared. */
  predicate WellFormed(x: QCnf) {
    && CleanComments(x.comments) && AllDeclared(x.clauses, x.numVars) && GoodBlocks(x.blocks, x.numVars)
  }

  /** What every line keeps: comments trimmed, numbers in range, no blocks in a plain problem. */
  predicate Sane(quantified: bool, r: Reading) {
    && CleanComments(r.comments) && AllInRange(r.body) && (quantified || r.blocks == [])
    && r.numVars < USIZE_BOUND && r.expected < USIZE_BOUND
  }

  lemma ProblemSane(quantified: bool, r: Reading, t: string, words: seq<string>)
    requires Sane(quantified, r) && ReadProblem(r, t, words).Ok?
    ensures Sane(quantified, ReadProblem(r, t, words).value)
  {
  }

  lemma BodySane(quantified: bool, r: Reading, literals: Option<seq<int>>)
    requires Sane(quantified, r) && ReadBody(r, literals).Ok? && AllInRange(literals.value)
    ensures Sane(quantified, ReadBody(r, literals).value)
  {
  }

  lemma CommentSane(quantified: bool, r: Reading, comment: string)
    requires Sane(quantified, r) && OneLine(comment)
    ensures Sane(quantified, r.(comments := r.comments + [Trim(comment)]))
  {
    TrimIsTrimmed(comment);
    CleanMore(r.comments, Trim(comment));
  }

  lemma CleanMore(comments: seq<string>, comment: string)
    requires CleanComments(comments) && Trimmed(comment) && OneLine(comment)
    ensures CleanComments(comments + [comment])
  {
  }

  lemma TrimmedLineSane(quantified: bool, r: Reading, t: string, words: seq<string>,
                        literals: Option<seq<int>>, tail: Option<seq<int>>)
    requires Sane(quantified, r) && OneLine(t) && ReadTrimmed(quantified, r, t, words, literals, tail).Ok?
    requires literals.Some? ==> AllInRange(literals.value)
    ensures Sane(quantified, ReadTrimmed(quantified, r, t, words, literals, tail).value)
  {
    if t == "" {
    } else if t[0] == 'c' {
      CommentSane(quantified, r, t[1..]);
    } else if "p cnf" <= t {
      ProblemSane(quantified, r, t, words);
    } else if quantified && (t[0] == 'a' || t[0] == 'e') {
    } else {
      BodySane(quantified, r, literals);
    }
  }

  lemma LineSane(quantified: bool, r: Reading, line: string)
    requires Sane(quantified, r) && OneLine(line) && ReadLine(quantified, r, line).Ok?
    ensures Sane(quantified, ReadLine(quantified, r, line).value)
  {
    var t := Trim(line);
    TrimIsTrimmed(line);
    TrimmedLineSane(quantified, r, t, SplitWhitespace(t), Read(t), if t == "" then None else Read(t[1..]));
  }

  ghost predicate KeepsSane(quantified: bool, step: Step) {
    forall r: Reading, line {:trigger step(r, line)} ::
      Sane(quantified, r) && OneLine(line) && step(r, line).Ok? ==> Sane(quantified, step(r, line).value)
  }

  lemma {:induction false} FoldSane(quantified: bool, step: Step, lines: seq<string>)
    requires KeepsSane(quantified, step) && forall i :: 0 <= i < |lines| ==> OneLine(lines[i])
    ensures Fold(step, Ok(START), lines).Ok? ==> Sane(quantified, Fold(step, Ok(START), lines).value)
  {
    if lines != [] {
      FoldSane(quantified, step, lines[..|lines| - 1]);
    }
  }

  lemma {:induction false} FlatInRange(clauses: seq<seq<int>>)
    requires AllInRange(Flat(clauses))
    ensures ClausesInRange(clauses)
  {
    if clauses != [] {
      var init, last := clauses[..|clauses| - 1], clauses[|clauses| - 1];
      var flat := Flat(clauses);
      assert forall i :: 0 <= i < |Flat(init)| ==> flat[i] == Flat(init)[i];
      assert forall i :: 0 <= i < |last| ==> flat[|Flat(init)| + i] == last[i];
      FlatInRange(init);
    }
  }

  /** Whatever is parsed has clean comments, declared literals and machine numbers. */
  lemma ParsedIsClean(quantified: bool, text: string)
    requires Parsed(quantified, text).Ok?
    ensures var x := Parsed(quantified, text).value;
            Typed(x) && CleanComments(x.comments) && AllDeclared(x.clauses, x.numVars) && (quantified || x.blocks == [])
  {
    var step := LineStep(quantified);
    forall r: Reading, line | Sane(quantified, r) && OneLine(line) && step(r, line).Ok?
      ensures Sane(quantified, step(r, line).value)
    {
      LineSane(quantified, r, line);
    }
    FoldSane(quantified, step, Lines(text));
    var r, x := Fold(step, Ok(START), Lines(text)).value, Parsed(quantified, text).value;
    AcceptedIff(r, x);
    FlatInRange(x.clauses);
  }

  /** Parsing undoes writing exactly for the well-formed problems. */
  lemma RoundTripIff(quantified: bool, x: QCnf)
    requires Typed(x) && (quantified || x.blocks == [])
    ensures Parsed(quantified, Unlines(WrittenLines(x))) == Ok(x) <==> WellFormed(x)
  {
    if Parsed(quantified, Unlines(WrittenLines(x))) == Ok(x) {
      ParsedIsClean(quantified, Unlines(WrittenLines(x)));
    }
    if CleanComments(x.comments) {
      WrittenReads(x);
      WrittenFolds(quantified, x);
      AcceptedIff(Reading(true, x.numVars, |x.clauses|, x.comments, x.blocks, Flat(x.clauses)), x);
    }
  }

  /** Whatever text a DIMACS problem came from, written out it is read as the same problem. */
  lemma ParsedDimacsRoundTrips(text: string)
    requires Parsed(false, text).Ok?
    ensures Parsed(false, Unlines(WrittenLines(Parsed(false, text).value))) == Parsed(false, text)
  {
    ParsedIsClean(false, text);
    RoundTripIff(false, Parsed(false, text).value);
  }

  /** A QDIMACS problem is read as the same problem exactly when a second problem line has not lowered
      the number of variables below a quantified one. */
  lemma ParsedQDimacsRoundTripsIff(text: string)
    requires Parsed(true, text).Ok?
    ensures Parsed(true, Unlines(WrittenLines(Parsed(true, text).value))) == Parsed(true, text)
        <==> GoodBlocks(Parsed(true, text).value.blocks, Parsed(true, text).value.numVars)
  {
    ParsedIsClean(true, text);
    RoundTripIff(true, Parsed(true, text).value);
  }

  /** A problem line, a quantified variable, and a problem line that declares fewer variables. */
  function LoweredLines(n: nat, m: nat): seq<string> {
    [ProblemLine(n, 0), BlockLine(Block(true, [n])), ProblemLine(m, 0)]
  }

  lemma LoweredLinesFold(n: nat, m: nat)
    requires m < n < I32_BOUND
    ensures Fold(LineStep(true), Ok(START), LoweredLines(n, m)) == Ok(Reading(true, m, 0, [], [Block(true, [n])], []))
  {
    var step, block, lines := LineStep(true), Block(true, [n]), LoweredLines(n, m);
    var r1 := START.(found := true, numVars := n, expected := 0);
    var r2 := r1.(blocks := [block]);
    assert lines[..2] == [lines[0], lines[1]] && lines[..2][..1] == [lines[0]];
    ProblemLineRead(true, START, n, 0);
    FoldOne(step, START, lines[0]);
    BlockLineRead(r1, block);
    assert GoodBlock(block, n) && [] + [block] == [block];
    assert Fold(step, Ok(START), lines[..2]) == Ok(r2);
    ProblemLineRead(true, r2, m, 0);
  }

  /** Such a problem is accepted, and what is written for it is not. */
  lemma LoweredProblemLine(n: nat, m: nat)
    requires m < n < I32_BOUND
    ensures var x := QCnf(m, [Block(true, [n])], [], []);
            && Parsed(true, Unlines(LoweredLines(n, m))) == Ok(x)
            && Parsed(true, Unlines(WrittenLines(x))) != Ok(x)
  {
    var x := QCnf(m, [Block(true, [n])], [], []);
    ProblemShape(n, 0);
    ProblemShape(m, 0);
    BlockShape(x.blocks[0]);
    LinesUnlines(LoweredLines(n, m));
    LoweredLinesFold(n, m);
    RoundTripIff(true, x);
    assert !GoodBlock(x.blocks[0], m) by { assert x.blocks[0].variables[0] > m; }
  }

  /** The smallest such problem. */
  lemma SmallestLowered()
    ensures LoweredLines(2, 1) == ["p cnf 2 0", "a 2 0", "p cnf 1 0"]
  {
    var two, one, zero := FormatNat(2), FormatNat(1), FormatNat(0);
    assert two == "2" && one == "1" && zero == "0";
    assert TailText([0]) == " " + FormatNat(0) + TailText([0][1..]) && [0][1..] == [];
    assert [2] + [0] == [2, 0] && [2, 0][1..] == [0];
    assert TailText([2, 0]) == " 2 0";
    assert BlockLine(Block(true, [2])) == ['a'] + TailText([2, 0]) == "a 2 0";
    assert ProblemLine(2, 0) == "p cnf " + two + " " + zero == "p cnf 2 0";
    assert ProblemLine(1, 0) == "p cnf " + one + " " + zero == "p cnf 1 0";
  }
}
