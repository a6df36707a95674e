/** Reading and writing DIMACS and QDIMACS problems (dimacs.rs): what each line does to what was
    read so far, the cut of the literal stream into clauses, and the lines written. */
module Dimacs {
  import opened Prelude
  import opened RustText
  import opened DimacsText

  datatype Cnf = Cnf(numVars: nat, clauses: seq<seq<int>>, comments: seq<string>)

  datatype Block = Block(universal: bool, variables: seq<nat>)

  datatype QCnf = QCnf(numVars: nat, blocks: seq<Block>, clauses: seq<seq<int>>, comments: seq<string>)

  datatype ReadError = BadProblemLine(line: string) | BadNumber(word: string) | NothingDeclared | BadLiteral
    | BadQuantifier | NoProblemLine | UnknownVariable(literal: int) | Unterminated | WrongCount(found: nat)

  // ================================================================ what a line does

  /** What the lines so far have said; `body` is the literal stream. */
  datatype Reading = Reading(found: bool, numVars: nat, expected: nat, comments: seq<string>,
                             blocks: seq<Block>, body: seq<int>)

  const START := Reading(false, 0, 0, [], [], [])

  type Read1 = Result<Reading, ReadError>

  function ReadProblem(r: Reading, line: string, words: seq<string>): Read1 {
    if |words| != 4 then Err(BadProblemLine(line))
    else
      var numVars, expected := ParseNat(words[2], USIZE_BOUND), ParseNat(words[3], USIZE_BOUND);
      if numVars.None? then Err(BadNumber(words[2]))
      else if expected.None? then Err(BadNumber(words[3]))
      else Ok(r.(found := true, numVars := numVars.value, expected := expected.value))
  }

  function WithoutZero(vs: seq<int>): seq<int> {
    if vs != [] && vs[|vs| - 1] == 0 then vs[..|vs| - 1] else vs
  }

  predicate Quantifiable(vs: seq<int>, numVars: nat) {
    forall i :: 0 <= i < |vs| ==> 0 < vs[i] <= numVars
  }

  function ReadBlock(r: Reading, universal: bool, literals: Option<seq<int>>): Read1 {
    if literals.None? || !Quantifiable(WithoutZero(literals.value), r.numVars) then Err(BadQuantifier)
    else
      var variables: seq<nat> := WithoutZero(literals.value);
      Ok(r.(blocks := r.blocks + [Block(universal, variables)]))
  }

  function ReadBody(r: Reading, literals: Option<seq<int>>): Read1 {
    if literals.None? then Err(BadLiteral) else Ok(r.(body := r.body + literals.value))
  }

  /** A trimmed line, given its words, its integers, and those after its first character. */
  function ReadTrimmed(quantified: bool, r: Reading, t: string, words: seq<string>,
                       literals: Option<seq<int>>, tail: Option<seq<int>>): Read1 {
    if t == "" then Ok(r)
    else if t[0] == 'c' then Ok(r.(comments := r.comments + [Trim(t[1..])]))
    else if "p cnf" <= t then ReadProblem(r, t, words)
    else if !r.found then Err(NothingDeclared)
    else if quantified && (t[0] == 'a' || t[0] == 'e') then ReadBlock(r, t[0] == 'a', tail)
    else ReadBody(r, literals)
  }

  /** A line, by the ways to trim, to split into words and to read integers. */
  function ReadLineBy(trim: string -> string, split: string -> seq<string>, read: string -> Option<seq<int>>,
                      quantified: bool, r: Reading, line: string): Read1 {
    var t := trim(line);
    ReadTrimmed(quantified, r, t, split(t), read(t), if t == "" then None else read(t[1..]))
  }

  function ReadLine(quantified: bool, r: Reading, line: string): Read1 {
    ReadLineBy(Trim, SplitWhitespace, Read, quantified, r, line)
  }

  type Step = (Reading, string) -> Read1

  function StepBy(trim: string -> string, split: string -> seq<string>, read: string -> Option<seq<int>>,
                  quantified: bool): Step {
    (r, line) => ReadLineBy(trim, split, read, quantified, r, line)
  }

  function LineStep(quantified: bool): Step { StepBy(Trim, SplitWhitespace, Read, quantified) }

  /** All lines in turn, up to the first error. */
  function Fold(step: Step, start: Read1, lines: seq<string>): Read1 {
    if lines == [] then start
    else
      var before := Fold(step, start, lines[..|lines| - 1]);
      if before.Err? then before else step(before.value, lines[|lines| - 1])
  }

  // ================================================================ the literal stream

  datatype Cut = Cut(clauses: seq<seq<int>>, current: seq<int>)

  function Magnitude(literal: int): nat { if literal < 0 then -literal else literal }

  /** The stream cut into clauses at its zeros; error at the first undeclared variable. */
  function CutStream(body: seq<int>, numVars: nat): Result<Cut, ReadError> {
    if body == [] then Ok(Cut([], []))
    else
      var before, literal := CutStream(body[..|body| - 1], numVars), body[|body| - 1];
      if before.Err? then before
      else if literal == 0 then Ok(Cut(before.value.clauses + [before.value.current], []))
      else if Magnitude(literal) > numVars then Err(UnknownVariable(literal))
      else Ok(before.value.(current := before.value.current + [literal]))
  }

  function Finish(read: Read1): Result<QCnf, ReadError> {
    if read.Err? then Err(read.error)
    else if !read.value.found then Err(NoProblemLine)
    else
      var r := read.value;
      var cut := CutStream(r.body, r.numVars);
      if cut.Err? then Err(cut.error)
      else if cut.value.current != [] then Err(Unterminated)
      else if |cut.value.clauses| != r.expected then Err(WrongCount(|cut.value.clauses|))
      else Ok(QCnf(r.numVars, r.blocks, cut.value.clauses, r.comments))
  }

  function Parsed(quantified: bool, text: string): Result<QCnf, ReadError> {
    Finish(Fold(LineStep(quantified), Ok(START), Lines(text)))
  }

  function Plainly(q: Result<QCnf, ReadError>): Result<Cnf, ReadError> {
    if q.Err? then Err(q.error) else Ok(Cnf(q.value.numVars, q.value.clauses, q.value.comments))
  }

  // ================================================================ parsing

  /** The words of a line, one after the other. */
  method ReadWords(words: seq<string>) returns (literals: Option<seq<int>>)
    ensures literals == Literals(words)
  {
    var vs: seq<int> := [];
    for i := 0 to |words|
      invariant Literals(words[..i]) == Some(vs)
    {
      var literal := ParseI32(words[i]);
      assert words[..i + 1][..i] == words[..i];
      if literal.None? {
        LiteralsPrefix(words, i + 1);
        return None;
      }
      vs := vs + [literal.value];
    }
    assert words[..|words|] == words;
    return Some(vs);
  }

  lemma {:induction false} LiteralsPrefix(words: seq<string>, n: nat)
    requires n <= |words| && Literals(words[..n]).None?
    ensures Literals(words).None?
    decreases |words| - n
  {
    if n == |words| {
      assert words[..n] == words;
    } else {
      assert words[..n + 1][..n] == words[..n];
      LiteralsPrefix(words, n + 1);
    }
  }

  method TakeLine(quantified: bool, r: Reading, line: string) returns (after: Read1)
    ensures after == ReadLine(quantified, r, line)
  {
    var t := Trim(line);
    if t == "" {
      return Ok(r);
    }
    if t[0] == 'c' {
      return Ok(r.(comments := r.comments + [Trim(t[1..])]));
    }
    if "p cnf" <= t {
      var words := SplitWhitespace(t);
      if |words| != 4 {
        return Err(BadProblemLine(t));
      }
      var numVars := ParseNat(words[2], USIZE_BOUND);
      if numVars.None? {
        return Err(BadNumber(words[2]));
      }
      var expected := ParseNat(words[3], USIZE_BOUND);
      if expected.None? {
        return Err(BadNumber(words[3]));
      }
      return Ok(r.(found := true, numVars := numVars.value, expected := expected.value));
    }
    if !r.found {
      return Err(NothingDeclared);
    }
    if quantified && (t[0] == 'a' || t[0] == 'e') {
      after := TakeBlock(r, t[0] == 'a', t[1..]);
      return;
    }
    var literals := ReadWords(SplitWhitespace(t));
    if literals.None? {
      return Err(BadLiteral);
    }
    return Ok(r.(body := r.body + literals.value));
  }

  method TakeBlock(r: Reading, universal: bool, tail: string) returns (after: Read1)
    ensures after == ReadBlock(r, universal, Read(tail))
  {
    var literals := ReadWords(SplitWhitespace(tail));
    if literals.None? {
      return Err(BadQuantifier);
    }
    var vs := literals.value;
    if vs != [] && vs[|vs| - 1] == 0 {
      vs := vs[..|vs| - 1];
    }
    var variables: seq<nat> := [];
    for i := 0 to |vs|
      invariant variables == vs[..i] && Quantifiable(vs[..i], r.numVars)
    {
      if vs[i] <= 0 || vs[i] > r.numVars {
        return Err(BadQuantifier);
      }
      variables := variables + [vs[i]];
    }
    assert vs[..|vs|] == vs;
    return Ok(r.(blocks := r.blocks + [Block(universal, variables)]));
  }

  /** The lines read so far, by the meaning of one line. */
  ghost predicate Reached(step: Step, lines: seq<string>, n: nat, read: Read1)
    requires n <= |lines|
  {
    Fold(step, Ok(START), lines[..n]) == read
  }

  lemma ReachedMore(step: Step, lines: seq<string>, n: nat, r: Reading, after: Read1)
    requires n < |lines| && Reached(step, lines, n, Ok(r)) && after == step(r, lines[n])
    ensures Reached(step, lines, n + 1, after)
    ensures after.Err? ==> Reached(step, lines, |lines|, after)
  {
    assert lines[..n + 1][..n] == lines[..n];
    if after.Err? {
      FoldStops(step, Ok(START), lines, n + 1);
    }
    assert lines[..|lines|] == lines;
  }

  method ReadLines(quantified: bool, lines: seq<string>) returns (read: Read1)
    ensures Reached(LineStep(quantified), lines, |lines|, read)
  {
    var r := START;
    for i := 0 to |lines|
      invariant Reached(LineStep(quantified), lines, i, Ok(r))
    {
      var after := TakeLine(quantified, r, lines[i]);
      ReachedMore(LineStep(quantified), lines, i, r, after);
      if after.Err? {
        return after;
      }
      r := after.value;
    }
    return Ok(r);
  }

  lemma {:induction false} FoldStops(step: Step, start: Read1, lines: seq<string>, n: nat)
    requires n <= |lines| && Fold(step, start, lines[..n]).Err?
    ensures Fold(step, start, lines) == Fold(step, start, lines[..n])
    decreases |lines| - n
  {
    if n == |lines| {
      assert lines[..n] == lines;
    } else {
      assert lines[..n + 1][..n] == lines[..n];
      FoldStops(step, start, lines, n + 1);
    }
  }

  method CutClauses(body: seq<int>, numVars: nat) returns (cut: Result<Cut, ReadError>)
    ensures cut == CutStream(body, numVars)
  {
    var clauses: seq<seq<int>>, current: seq<int> := [], [];
    for i := 0 to |body|
      invariant CutStream(body[..i], numVars) == Ok(Cut(clauses, current))
    {
      var literal := body[i];
      assert body[..i + 1][..i] == body[..i];
      if literal == 0 {
        clauses := clauses + [current];
        current := [];
      } else {
        if Magnitude(literal) > numVars {
          CutStops(body, numVars, i + 1);
          return Err(UnknownVariable(literal));
        }
        current := current + [literal];
      }
    }
    assert body[..|body|] == body;
    return Ok(Cut(clauses, current));
  }

  lemma {:induction false} CutStops(body: seq<int>, numVars: nat, n: nat)
    requires n <= |body| && CutStream(body[..n], numVars).Err?
    ensures CutStream(body, numVars) == CutStream(body[..n], numVars)
    decreases |body| - n
  {
    if n == |body| {
      assert body[..n] == body;
    } else {
      assert body[..n + 1][..n] == body[..n];
      CutStops(body, numVars, n + 1);
    }
  }

  method ParseQDimacs(text: string) returns (problem: Result<QCnf, ReadError>)
    ensures problem == Parsed(true, text)
  {
    problem := ParseText(true, text);
  }

  method ParseDimacs(text: string) returns (problem: Result<Cnf, ReadError>)
    ensures problem == Plainly(Parsed(false, text))
  {
    var q := ParseText(false, text);
    problem := Plainly(q);
  }

  /** What both parsers share. */
  method ParseText(quantified: bool, text: string) returns (problem: Result<QCnf, ReadError>)
    ensures problem == Parsed(quantified, text)
  {
    var lines := Lines(text);
    var read := ReadLines(quantified, lines);
    assert lines[..|lines|] == lines;
    if read.Err? {
      return Err(read.error);
    }
    var r := read.value;
    if !r.found {
      return Err(NoProblemLine);
    }
    var cut := CutClauses(r.body, r.numVars);
    if cut.Err? {
      return Err(cut.error);
    }
    if cut.value.current != [] {
      return Err(Unterminated);
    }
    if |cut.value.clauses| != r.expected {
      return Err(WrongCount(|cut.value.clauses|));
    }
    return Ok(QCnf(r.numVars, r.blocks, cut.value.clauses, r.comments));
  }

  // ================================================================ writing

  function LinesOf<T>(line: T -> string, xs: seq<T>): (ls: seq<string>)
    ensures |ls| == |xs|
  {
    if xs == [] then [] else LinesOf(line, xs[..|xs| - 1]) + [line(xs[|xs| - 1])]
  }

  function CommentLine(comment: string): string { "c " + comment }

  function ProblemLine(numVars: nat, numClauses: nat): string {
    "p cnf " + FormatNat(numVars) + " " + FormatNat(numClauses)
  }

  function BlockLine(block: Block): string {
    [if block.universal then 'a' else 'e'] + TailText(block.variables + [0])
  }

  function ClauseLine(clause: seq<int>): string { SpacedText(clause + [0]) }

  function CommentLines(comments: seq<string>): seq<string> { LinesOf(CommentLine, comments) }

  function BlockLines(blocks: seq<Block>): seq<string> { LinesOf(BlockLine, blocks) }

  function ClauseLines(clauses: seq<seq<int>>): seq<string> { LinesOf(ClauseLine, clauses) }

  function WrittenLines(x: QCnf): seq<string> {
    CommentLines(x.comments) + [ProblemLine(x.numVars, |x.clauses|)] + BlockLines(x.blocks) + ClauseLines(x.clauses)
  }

  function Quantifierless(x: Cnf): QCnf { QCnf(x.numVars, [], x.clauses, x.comments) }

  lemma UnlinesMore(ls: seq<string>, line: string)
    ensures Unlines(ls + [line]) == Unlines(ls) + line + "\n"
  {
    assert (ls + [line])[..|ls|] == ls;
  }

  lemma LinesOfMore<T>(line: T -> string, xs: seq<T>, i: nat)
    requires i < |xs|
    ensures LinesOf(line, xs[..i + 1]) == LinesOf(line, xs[..i]) + [line(xs[i])]
  {
    assert xs[..i + 1][..i] == xs[..i];
  }

  /** One more line behind those written. */
  lemma LineWritten(lines: seq<string>, done: seq<string>, more: seq<string>, line: string)
    requires more == done + [line]
    ensures Unlines(lines + more) == Unlines(lines + done) + line + "\n"
  {
    UnlinesMore(lines + done, line);
    assert (lines + done) + [line] == lines + more;
  }

  method WriteComments(comments: seq<string>) returns (out: string)
    ensures out == Unlines(CommentLines(comments))
  {
    out := "";
    for i := 0 to |comments|
      invariant out == Unlines(CommentLines(comments[..i]))
    {
      assert comments[..i + 1][..i] == comments[..i];
      UnlinesMore(CommentLines(comments[..i]), CommentLine(comments[i]));
      out := out + ("c " + comments[i]) + "\n";
    }
    assert comments[..|comments|] == comments;
  }

  method WriteClause(before: string, clause: seq<int>) returns (out: string)
    ensures out == before + ClauseLine(clause) + "\n"
  {
    out := before;
    var all := clause + [0];
    for i := 0 to |clause|
      invariant out + SpacedText(all[i..]) == before + SpacedText(all)
    {
      assert all[i..][1..] == all[i + 1..] && all[i..][0] == clause[i];
      ghost var rest := SpacedText(all[i + 1..]);
      assert out + (FormatInt(clause[i]) + " " + rest) == out + FormatInt(clause[i]) + " " + rest;
      out := out + FormatInt(clause[i]) + " ";
    }
    assert all[|clause|..] == [0];
    FormatZero();
    out := out + "0" + "\n";
  }

  lemma FormatZero()
    ensures FormatInt(0) == "0"
  {
    assert DigitChar(0) == '0';
  }

  method WriteClauses(before: string, clauses: seq<seq<int>>, ghost lines: seq<string>) returns (out: string)
    requires before == Unlines(lines)
    ensures out == Unlines(lines + ClauseLines(clauses))
  {
    out := before;
    assert lines + ClauseLines(clauses[..0]) == lines;
    for i := 0 to |clauses|
      invariant out == Unlines(lines + ClauseLines(clauses[..i]))
    {
      LinesOfMore(ClauseLine, clauses, i);
      LineWritten(lines, ClauseLines(clauses[..i]), ClauseLines(clauses[..i + 1]), ClauseLine(clauses[i]));
      out := WriteClause(out, clauses[i]);
    }
    assert clauses[..|clauses|] == clauses;
  }

  method WriteVariables(before: string, variables: seq<nat>) returns (out: string)
    ensures out == before + TailText(variables + [0])
  {
    out := before;
    var all := variables + [0];
    for i := 0 to |variables|
      invariant out + TailText(all[i..]) == before + TailText(all)
    {
      assert all[i..][1..] == all[i + 1..] && all[i..][0] == variables[i];
      ghost var rest := TailText(all[i + 1..]);
      assert out + (" " + FormatNat(all[i]) + rest) == out + " " + FormatNat(all[i]) + rest;
      out := out + " " + FormatNat(variables[i]);
    }
    assert all[|variables|..] == [0];
    LastTail();
    out := out + " 0";
  }

  method WriteBlock(before: string, block: Block) returns (out: string)
    ensures out == before + BlockLine(block) + "\n"
  {
    var letter := if block.universal then 'a' else 'e';
    out := WriteVariables(before + [letter], block.variables);
    assert out == before + ([letter] + TailText(block.variables + [0]));
    out := out + "\n";
  }

  lemma LastTail()
    ensures TailText([0]) == " 0"
  {
    FormatZero();
    assert FormatInt(0) == FormatNat(0);
    assert [0][1..] == [];
  }

  method WriteBlocks(before: string, blocks: seq<Block>, ghost lines: seq<string>) returns (out: string)
    requires before == Unlines(lines)
    ensures out == Unlines(lines + BlockLines(blocks))
  {
    out := before;
    assert lines + BlockLines(blocks[..0]) == lines;
    for i := 0 to |blocks|
      invariant out == Unlines(lines + BlockLines(blocks[..i]))
    {
      LinesOfMore(BlockLine, blocks, i);
      LineWritten(lines, BlockLines(blocks[..i]), BlockLines(blocks[..i + 1]), BlockLine(blocks[i]));
      out := WriteBlock(out, blocks[i]);
    }
    assert blocks[..|blocks|] == blocks;
  }

  method WriteQDimacs(x: QCnf) returns (out: string)
    ensures out == Unlines(WrittenLines(x))
  {
    out := WriteComments(x.comments);
    UnlinesMore(CommentLines(x.comments), ProblemLine(x.numVars, |x.clauses|));
    out := out + ProblemLine(x.numVars, |x.clauses|) + "\n";
    ghost var lines := CommentLines(x.comments) + [ProblemLine(x.numVars, |x.clauses|)];
    out := WriteBlocks(out, x.blocks, lines);
    out := WriteClauses(out, x.clauses, lines + BlockLines(x.blocks));
  }

  method WriteDimacs(x: Cnf) returns (out: string)
    ensures out == Unlines(WrittenLines(Quantifierless(x)))
  {
    out := WriteComments(x.comments);
    UnlinesMore(CommentLines(x.comments), ProblemLine(x.numVars, |x.clauses|));
    out := out + ProblemLine(x.numVars, |x.clauses|) + "\n";
    ghost var lines := CommentLines(x.comments) + [ProblemLine(x.numVars, |x.clauses|)];
    out := WriteClauses(out, x.clauses, lines);
    assert lines + BlockLines([]) == lines;
  }
}
