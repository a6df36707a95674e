/** The SMT-LIB formatter (format.rs:254-343). */
module Format {
  import opened RustText

  /** The loop's flags. */
  datatype Layout = Layout(indent: nat, inString: bool, inComment: bool, lineStart: bool, pending: bool)

  const START := Layout(0, false, false, true, false)

  function Spaces(n: nat): (s: string)
    ensures |s| == n && forall i :: 0 <= i < n ==> s[i] == ' '
  {
    if n == 0 then "" else Spaces(n - 1) + " "
  }

  predicate StartsWith(s: string, prefix: string) {
    |prefix| <= |s| && s[..|prefix|] == prefix
  }

  /** Do the next twenty characters begin with a command's name? */
  predicate CommandAhead(script: string, i: nat) {
    var ahead := if i > |script| then "" else TrimStart(script[i..if i + 20 <= |script| then i + 20 else |script|]);
    || StartsWith(ahead, "assert") || StartsWith(ahead, "declare-") || StartsWith(ahead, "define-")
    || StartsWith(ahead, "set-") || StartsWith(ahead, "check-sat") || StartsWith(ahead, "get-")
  }

  predicate IsBlank(c: char) { c == ' ' || c == '\t' || c == '\r' }

  /** The formatter takes itself to be in no string and no comment. */
  predicate Plainly(l: Layout) { !l.inString && !l.inComment }

  /** A blank that is not written, or not yet. */
  predicate Silent(l: Layout, c: char) { Plainly(l) && IsBlank(c) }

  /** The flags after a character. */
  function Flags(l: Layout, c: char): Layout {
    if c == '\n' then l.(inComment := false, lineStart := true, pending := false)
    else if c == ';' && !l.inString then l.(inComment := true, pending := false)
    else if c == '"' && !l.inComment then l.(inString := !l.inString, pending := false)
    else if !Plainly(l) then l
    else if c == '(' then l.(indent := l.indent + 1, lineStart := false, pending := false)
    else if c == ')' then l.(indent := if l.indent == 0 then 0 else l.indent - 1, pending := false)
    else if IsBlank(c) then l.(pending := l.pending || !l.lineStart)
    else l.(lineStart := false, pending := false)
  }

  /** What is written before an atom's character or an opening parenthesis. */
  function Lead(l: Layout, width: nat): string {
    if l.lineStart then Spaces(l.indent * width) else if l.pending then " " else ""
  }

  /** The blanks written before a character that is written itself. */
  function Before(l: Layout, c: char, width: nat): string {
    if c == '\n' then ""
    else if (c == ';' && !l.inString) || (c == '"' && !l.inComment) then if l.pending then " " else ""
    else if !Plainly(l) || c == ')' then ""
    else Lead(l, width)
  }

  /** A line is broken after an opening parenthesis that a command's name follows. */
  predicate Breaks(l: Layout, c: char, command: bool) {
    c == '(' && Plainly(l) && command && l.indent > 0
  }

  function After(l: Layout, c: char, command: bool, width: nat): string {
    if Breaks(l, c, command) then "\n" + Spaces(l.indent * width) else ""
  }

  /** What is written for a character. */
  function Written(l: Layout, c: char, command: bool, width: nat): string {
    if Silent(l, c) then "" else Before(l, c, width) + [c] + After(l, c, command, width)
  }

  function LayoutAt(script: string, n: nat): Layout
    requires n <= |script|
  {
    if n == 0 then START else Flags(LayoutAt(script, n - 1), script[n - 1])
  }

  /** Output after n characters; `ahead` says at which places a command's name follows. */
  function FormatPrefix(script: string, n: nat, width: nat, ahead: nat -> bool): string
    requires n <= |script|
  {
    if n == 0 then ""
    else FormatPrefix(script, n - 1, width, ahead) + Written(LayoutAt(script, n - 1), script[n - 1], ahead(n), width)
  }

  function Ahead(script: string): nat -> bool { (i: nat) => CommandAhead(script, i) }

  function Formatted(script: string, width: nat): string {
    FormatPrefix(script, |script|, width, Ahead(script))
  }

  // ================================================================ the loop

  lemma Pushed(out: string, a: string, b: string, c: string)
    ensures out + (a + b + c) == out + a + b + c
    ensures out + (a + b) == out + a + b
    ensures out + "" == out && out + a + b + "" == out + a + b
  {
  }

  /** One turn of the loop on its local variables. */
  method WriteChar(l: Layout, out: string, c: char, command: bool, width: nat) returns (after: Layout, result: string)
    ensures after == Flags(l, c) && result == out + Written(l, c, command, width)
  {
    var Layout(indent, inString, inComment, lineStart, pending) := l;
    result := out;
    Pushed(out, Lead(l, width), "(", "\n" + Spaces(indent * width));
    Pushed(out, Lead(l, width), "(", "");
    Pushed(out, Lead(l, width), [c], "");
    Pushed(out, if l.pending then " " else "", ";", "");
    Pushed(out, if l.pending then " " else "", "\"", "");
    if c == '\n' {
      inComment := false;
      result := result + "\n";
      lineStart := true;
      pending := false;
    } else if c == ';' && !inString {
      if pending {
        result := result + " ";
        pending := false;
      }
      inComment := true;
      result := result + ";";
    } else if c == '"' && !inComment {
      if pending {
        result := result + " ";
        pending := false;
      }
      inString := !inString;
      result := result + "\"";
    } else if c == '(' && !inString && !inComment {
      result := result + Lead(l, width);
      lineStart := false;
      result := result + "(";
      pending := false;
      if command && indent > 0 {
        result := result + ("\n" + Spaces(indent * width));
      }
      indent := indent + 1;
    } else if c == ')' && !inString && !inComment {
      indent := if indent == 0 then 0 else indent - 1;
      result := result + ")";
      pending := false;
    } else if IsBlank(c) && !inString && !inComment {
      if !lineStart && !pending {
        pending := true;
      }
    } else if inComment || inString {
      result := result + [c];
    } else {
      result := result + Lead(l, width);
      lineStart := false;
      result := result + [c];
      pending := false;
    }
    after := Layout(indent, inString, inComment, lineStart, pending);
  }

  method FormatLoop(script: string, width: nat, ahead: nat -> bool) returns (result: string)
    ensures result == FormatPrefix(script, |script|, width, ahead)
  {
    var layout := START;
    result := "";
    for i := 0 to |script|
      invariant layout == LayoutAt(script, i) && result == FormatPrefix(script, i, width, ahead)
    {
      layout, result := WriteChar(layout, result, script[i], ahead(i + 1), width);
    }
  }
}
