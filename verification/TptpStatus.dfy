/** The SZS status reported for a problem is right. */
module TptpStatus {
  import opened TptpSyntax
  import opened FirstOrder
  import opened SmtMeaning
  import opened TptpWalks
  import opened TptpProblem
  import opened TptpMeaning
  import opened TptpSorts
  import R = TptpReading

  // ================================================================ SZS status

  predicate OccursAt(s: string, part: string, i: nat) {
    i + |part| <= |s| && s[i..i + |part|] == part
  }

  predicate Contains(s: string, part: string) {
    exists i :: 0 <= i <= |s| && OccursAt(s, part, i)
  }

  datatype SzsStatus = Theorem | CounterSatisfiable | SzsSatisfiable | Unsatisfiable | SzsUnknown | Timeout | Error

  function StatusOf(result: string, hasConjecture: bool): SzsStatus {
    if Contains(result, "unsat") then
      if hasConjecture then Theorem else Unsatisfiable
    else if Contains(result, "sat") && !Contains(result, "unsat") then
      if hasConjecture then CounterSatisfiable else SzsSatisfiable
    else if Contains(result, "timeout") then Timeout
    else if Contains(result, "error") then Error
    else SzsUnknown
  }

  /** A printed answer that is right about the text the solver was given, as far as domain D is concerned.
      Nothing is known about an answer to a script that is not well sorted. */
  ghost predicate RightAnswer<D(!new)>(letters: char -> bool, theories: Structure<D>, text: string, result: string) {
    WellSortedText(letters, text) ==>
      && (Contains(result, "unsat") ==> !R.TextSatisfiable(letters, theories, text))
      && (Contains(result, "sat") && !Contains(result, "unsat") ==> R.TextSatisfiable(letters, theories, text))
  }

  /** Every structure that satisfies the closed axioms satisfies the closed conjecture. */
  ghost predicate Entailed<D(!new)>(p: Problem, goal: nat)
    requires goal < |p.statements|
  {
    forall m: Structure<D> ::
      (forall i :: 0 <= i < |p.statements| && i != goal ==> ClosureTrue(m, p.statements[i].formula))
      ==> ClosureTrue(m, p.statements[goal].formula)
  }

  lemma RefutableIffNotEntailed<D(!new)>(p: Problem, goal: nat)
    requires SingleGoal(p) && goal < |p.statements| && p.statements[goal].role == Conjecture
    ensures Refutable<D>(p) <==> !Entailed<D>(p, goal)
  {
    forall m: Structure<D>
      ensures IsCounterModel(m, p) <==>
        ((forall i :: 0 <= i < |p.statements| && i != goal ==> ClosureTrue(m, p.statements[i].formula))
         && !ClosureTrue(m, p.statements[goal].formula))
    {
      OnlyGoal(m, p, goal);
    }
  }

  lemma OnlyGoal<D(!new)>(m: Structure<D>, p: Problem, goal: nat)
    requires SingleGoal(p) && goal < |p.statements| && p.statements[goal].role == Conjecture
    ensures IsCounterModel(m, p) <==>
        ((forall i :: 0 <= i < |p.statements| && i != goal ==> ClosureTrue(m, p.statements[i].formula))
         && !ClosureTrue(m, p.statements[goal].formula))
  {
    assert forall i :: 0 <= i < |p.statements| && i != goal ==> p.statements[i].role != Conjecture;
    assert forall i :: 0 <= i < |p.statements| ==>
      (StatementMet(m, p.statements[i]) <==>
       if i == goal then !ClosureTrue(m, p.statements[i].formula) else ClosureTrue(m, p.statements[i].formula));
  }

  lemma {:induction false} GoalFound(ss: seq<Statement>, goal: nat)
    requires goal < |ss| && IsGoal(ss[goal].role)
    ensures HasGoal(ss)
  {
    if goal < |ss| - 1 {
      GoalFound(ss[..|ss| - 1], goal);
    }
  }

  /** The status decides whether the script was satisfiable, if the answer was right about it. */
  lemma StatusFromAnswer(result: string, satisfiable: bool)
    requires Contains(result, "unsat") ==> !satisfiable
    requires Contains(result, "sat") && !Contains(result, "unsat") ==> satisfiable
    ensures StatusOf(result, true) == Theorem ==> !satisfiable
    ensures StatusOf(result, true) == CounterSatisfiable ==> satisfiable
    ensures StatusOf(result, true) != SzsSatisfiable && StatusOf(result, true) != Unsatisfiable
  {
  }

  lemma TextDecidesGoal<D(!new)>(letters: char -> bool, theories: Structure<D>, p: Problem, text: string, goal: nat)
    requires IsTextFor(p, text) && R.PlainProblem(letters, p) && Proper(VocabularyOf(p)) && SingleGoal(p)
    requires goal < |p.statements| && p.statements[goal].role == Conjecture
    ensures R.TextSatisfiable(letters, theories, text) <==> !Entailed<D>(p, goal)
  {
    R.TextPreservesMeaning(letters, theories, p, text);
    RefutableIffNotEntailed<D>(p, goal);
  }

  /** For a plain problem with a conjecture, names of one role and arity each that the solver leaves free, and
      a right answer about its text: "Theorem" is reported exactly when the answer says unsat, and then the
      conjecture is entailed; "CounterSatisfiable" means it is not. */
  lemma StatusIsRight<D(!new)>(letters: char -> bool, theories: Structure<D>, p: Problem, text: string, goal: nat,
                               result: string)
    requires IsTextFor(p, text) && R.PlainProblem(letters, p) && Proper(VocabularyOf(p)) && SingleGoal(p)
    requires Consistent(FunctionUsesOf(p)) && Consistent(PredicateUsesOf(p))
    requires goal < |p.statements| && p.statements[goal].role == Conjecture
    requires RightAnswer(letters, theories, text, result)
    ensures StatusOf(result, HasConjecture(p)) == Theorem ==> Entailed<D>(p, goal)
    ensures StatusOf(result, HasConjecture(p)) == CounterSatisfiable ==> !Entailed<D>(p, goal)
    ensures StatusOf(result, HasConjecture(p)) != SzsSatisfiable && StatusOf(result, HasConjecture(p)) != Unsatisfiable
  {
    GoalFound(p.statements, goal);
    WellSortedTextIff(letters, p, text);
    TextDecidesGoal(letters, theories, p, text, goal);
    StatusFromAnswer(result, R.TextSatisfiable(letters, theories, text));
  }

  // ---------------------------------------------------------------- a comment of two lines

  /** One conjecture, $false, after a comment of two lines, the second of which is (assert false). */
  predicate Injecting(p: Problem, first: string) {
    && |p.statements| == 1 && p.statements[0].role == Conjecture && p.statements[0].formula == False
    && |p.comments| == 1 && R.Injects(p.comments[0], first)
  }

  lemma InjectingIsFine(p: Problem, first: string)
    requires Injecting(p, first)
    ensures Proper(VocabularyOf(p)) && SingleGoal(p) && HasConjecture(p)
  {
    GoalFound(p.statements, 0);
    var fs := FormulasOf(p.statements);
    assert fs[0] == False && fs[1..] == [];
    assert PredicateUsesOfAll(fs) == PredicateUses(False) + PredicateUsesOfAll([]) == {};
    assert FunctionUsesOfAll(fs) == FunctionUses(False) + FunctionUsesOfAll([]) == {};
    assert AllVarsOfAll(fs) == AllVars(False) + AllVarsOfAll([]) == {};
    assert OccurrencesOfAll(fs) == Occurrences(False) + OccurrencesOfAll([]) == {};
    assert NamesOf({}) == {};
  }

  lemma FalseNotEntailed<D(!new)>(d: D, p: Problem, first: string)
    requires Injecting(p, first)
    ensures !Entailed<D>(p, 0)
  {
    var m := Structure((f: string, args: seq<D>) => d, (f: string, args: seq<D>) => true);
    var env: map<string, D> := map[];
    assert !FormulaVal(m, env, False);
    assert !ClosureTrue(m, p.statements[0].formula);
  }

  lemma TwoLinesNotPlain(letters: char -> bool, p: Problem, first: string)
    requires Injecting(p, first)
    ensures !R.PlainProblem(letters, p)
  {
    assert p.comments[0] in p.comments && p.comments[0][|first|] == '\n';
  }

  lemma UnsatIsUnsat()
    ensures Contains("unsat", "unsat") && StatusOf("unsat", true) == Theorem
  {
    assert OccursAt("unsat", "unsat", 0);
  }

  /** On an answer that is right about the text, $false is reported to be a theorem. */
  lemma CommentMakesTheorem<D(!new)>(d: D, letters: char -> bool, theories: Structure<D>, p: Problem, first: string,
                                     text: string)
    requires Injecting(p, first) && IsTextFor(p, text)
    ensures !R.TextSatisfiable(letters, theories, text) && RightAnswer(letters, theories, text, "unsat")
    ensures StatusOf("unsat", HasConjecture(p)) == Theorem && !Entailed<D>(p, 0)
    ensures Proper(VocabularyOf(p)) && SingleGoal(p) && !R.PlainProblem(letters, p)
  {
    var s :| IsScriptOf(p, s) && text == ScriptText(p, s);
    R.CommentInjects(letters, theories, p, s, first);
    UnsatIsUnsat();
    InjectingIsFine(p, first);
    TwoLinesNotPlain(letters, p, first);
    FalseNotEntailed(d, p, first);
  }
}
