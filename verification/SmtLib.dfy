/** The fragment of SMT-LIB the translations emit: S-expressions, how they are written, and how the
    pieces of text the serializers put together (a head, arguments each after a blank, joined parts)
    make up the text of a whole S-expression. */
module SmtLib {

  /** A symbol, a numeral, or a list. */
  datatype Sexp = Sym(name: string) | Num(digits: string) | List(items: seq<Sexp>)

  function Print(s: Sexp): string {
    match s
    case Sym(name) => name
    case Num(digits) => digits
    case List(items) => "(" + PrintAll(items) + ")"
  }

  /** Items separated by single blanks. */
  function PrintAll(items: seq<Sexp>): string {
    if items == [] then ""
    else if |items| == 1 then Print(items[0])
    else Print(items[0]) + " " + PrintAll(items[1..])
  }

  /** Each item preceded by a blank. */
  function PrintTail(items: seq<Sexp>): string {
    if items == [] then "" else " " + Print(items[0]) + PrintTail(items[1..])
  }

  lemma {:induction false} PrintHeadTail(head: Sexp, tail: seq<Sexp>)
    ensures PrintAll([head] + tail) == Print(head) + PrintTail(tail)
    decreases |tail|
  {
    var items := [head] + tail;
    if tail == [] {
      assert items == [head];
    } else {
      assert items[1..] == tail;
      assert [tail[0]] + tail[1..] == tail;
      PrintHeadTail(tail[0], tail[1..]);
    }
  }

  function App(head: string, args: seq<Sexp>): Sexp {
    List([Sym(head)] + args)
  }

  lemma PrintApp(head: string, args: seq<Sexp>)
    ensures Print(App(head, args)) == "(" + head + PrintTail(args) + ")"
  {
    PrintHeadTail(Sym(head), args);
  }

  function Join(parts: seq<string>, separator: string): string {
    if parts == [] then ""
    else if |parts| == 1 then parts[0]
    else parts[0] + separator + Join(parts[1..], separator)
  }

  lemma {:induction false} JoinPrints(items: seq<Sexp>, parts: seq<string>)
    requires |parts| == |items| && forall i :: 0 <= i < |items| ==> parts[i] == Print(items[i])
    ensures Join(parts, " ") == PrintAll(items)
  {
    if |items| > 1 {
      JoinPrints(items[1..], parts[1..]);
    }
  }

  lemma {:induction false} PrintTailNonempty(items: seq<Sexp>)
    requires items != []
    ensures PrintTail(items) == " " + PrintAll(items)
    decreases |items|
  {
    if |items| > 1 {
      PrintTailNonempty(items[1..]);
    }
  }
}
