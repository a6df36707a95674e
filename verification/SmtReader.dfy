/** The commands of an SMT-LIB script, as the solver's parser takes them off the lexer's tokens. */
module SmtReader {
  import opened SmtLexer

  /** Reading tokens (nixie-core/src/smtlib/parser/commands.rs:427-441): groups are the commands read,
      group is the one begun, stray says that something else stood where a command had to begin. */
  datatype Reading = Reading(level: nat, group: seq<Token>, groups: seq<seq<Token>>, stray: bool)

  const START := Reading(0, [], [], false)

  function ReadToken(r: Reading, t: Token): Reading {
    match t
    case Comment(_) => r
    case Open => r.(level := r.level + 1, group := r.group + [t])
    case Close =>
      if r.level == 0 then r.(stray := true)
      else if r.level == 1 then Reading(0, [], r.groups + [r.group + [t]], r.stray)
      else r.(level := r.level - 1, group := r.group + [t])
    case _ => if r.level == 0 then r.(stray := true) else r.(group := r.group + [t])
  }

  function Read(r: Reading, ts: seq<Token>): Reading {
    if ts == [] then r else ReadToken(Read(r, ts[..|ts| - 1]), ts[|ts| - 1])
  }

  /** The commands of a text, comments left out. */
  function Commands(text: string): seq<seq<Token>> {
    Read(START, Tokens(text)).groups
  }

  /** Nothing but complete commands and comments: any other script is rejected as a whole. */
  predicate WellRead(text: string) {
    var r := Read(START, Tokens(text));
    r.level == 0 && !r.stray
  }

  /** Tokens without the comments. */
  function Heard(ts: seq<Token>): seq<Token> {
    if ts == [] then []
    else Heard(ts[..|ts| - 1]) + (if ts[|ts| - 1].Comment? then [] else [ts[|ts| - 1]])
  }

  lemma ReadMore(r: Reading, ts: seq<Token>, t: Token)
    ensures Read(r, ts + [t]) == ReadToken(Read(r, ts), t)
    ensures Heard(ts + [t]) == Heard(ts) + (if t.Comment? then [] else [t])
  {
    assert (ts + [t])[..|ts|] == ts;
  }

  lemma {:induction false} ReadAppend(r: Reading, a: seq<Token>, b: seq<Token>)
    ensures Read(r, a + b) == Read(Read(r, a), b)
  {
    if b == [] {
      assert a + b == a;
    } else {
      assert (a + b)[..|a + b| - 1] == a + b[..|b| - 1];
      ReadAppend(r, a, b[..|b| - 1]);
    }
  }

  /** What was read before a command began only stands in front. */
  lemma {:induction false} ReadShift(groups: seq<seq<Token>>, stray: bool, ts: seq<Token>)
    ensures var x := Read(START, ts);
            Read(Reading(0, [], groups, stray), ts) == Reading(x.level, x.group, groups + x.groups, stray || x.stray)
  {
    if ts == [] {
      assert groups + [] == groups;
    } else {
      ReadShift(groups, stray, ts[..|ts| - 1]);
      var x, t := Read(START, ts[..|ts| - 1]), ts[|ts| - 1];
      assert groups + (x.groups + [x.group + [t]]) == (groups + x.groups) + [x.group + [t]];
    }
  }

  lemma {:induction false} NoLevelNoGroup(ts: seq<Token>)
    ensures var r := Read(START, ts); r.level == 0 ==> r.group == []
  {
    if ts != [] {
      NoLevelNoGroup(ts[..|ts| - 1]);
    }
  }

  lemma {:induction false} HeardAppend(a: seq<Token>, b: seq<Token>)
    ensures Heard(a + b) == Heard(a) + Heard(b)
  {
    if b == [] {
      assert a + b == a;
    } else {
      assert (a + b)[..|a + b| - 1] == a + b[..|b| - 1];
      HeardAppend(a, b[..|b| - 1]);
    }
  }
}
