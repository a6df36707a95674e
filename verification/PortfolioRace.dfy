/** The portfolio's threads race for the one result (portfolio.rs:375-455). */
module PortfolioRace {
  import opened Prelude

  /** A thread before its first look at the flag, in its solver, between the swap it won and its
      message, and over. */
  datatype Thread = Ready | Solving | Winner | Bailed | Failed | Lost | Sent

  datatype Message<T> = Message(thread: nat, output: T)

  datatype Caller<T> = Waiting | Returned(message: Message<T>) | TimedOut | AllFailed

  /** `sent` remembers every message ever sent. */
  datatype Race<T> = Race(threads: seq<Thread>, solved: bool, channel: seq<Message<T>>, caller: Caller<T>,
                          ghost sent: seq<Message<T>>)

  datatype Action = Look(i: nat) | Finish(i: nat) | Send(i: nat) | Receive | StoreSolved | Disconnect | TimeOut

  predicate Over(t: Thread) { t in {Bailed, Failed, Lost, Sent} }

  predicate Enabled<T(==)>(r: Race<T>, a: Action) {
    match a
    case Look(i) => i < |r.threads| && r.threads[i] == Ready
    case Finish(i) => i < |r.threads| && r.threads[i] == Solving
    case Send(i) => i < |r.threads| && r.threads[i] == Winner
    case Receive => r.caller.Waiting? && r.channel != []
    case StoreSolved => r.caller.Returned?
    case Disconnect => r.caller.Waiting? && r.channel == [] && forall i :: 0 <= i < |r.threads| ==> Over(r.threads[i])
    case TimeOut => r.caller.Waiting?
  }

  /** One step; `answers` is what each strategy's solver makes of its script. */
  ghost function Perform<T>(answers: seq<Option<T>>, r: Race<T>, a: Action): Race<T>
    requires |answers| == |r.threads| && Enabled(r, a)
  {
    match a
    case Look(i) => r.(threads := r.threads[i := if r.solved then Bailed else Solving])
    case Finish(i) =>
      if answers[i].None? then r.(threads := r.threads[i := Failed])
      else r.(threads := r.threads[i := if r.solved then Lost else Winner], solved := true)
    case Send(i) =>
      // A thread only wins with an answer.
      if answers[i].None? then r
      else
        var message := Message(i, answers[i].value);
        r.(threads := r.threads[i := Sent], channel := r.channel + [message], sent := r.sent + [message])
    case Receive => r.(caller := Returned(r.channel[0]), channel := r.channel[1..])
    case StoreSolved => r.(solved := true)
    case Disconnect => r.(caller := AllFailed)
    case TimeOut => r.(caller := TimedOut)
  }

  ghost predicate Starts<T>(answers: seq<Option<T>>, r: Race<T>) {
    && |r.threads| == |answers| && (forall i :: 0 <= i < |r.threads| ==> r.threads[i] == Ready)
    && !r.solved && r.channel == [] && r.sent == [] && r.caller.Waiting?
  }

  ghost predicate Step<T>(answers: seq<Option<T>>, r: Race<T>, s: Race<T>) {
    |answers| == |r.threads| && exists a :: Enabled(r, a) && s == Perform(answers, r, a)
  }

  ghost predicate IsRun<T>(answers: seq<Option<T>>, run: seq<Race<T>>) {
    && run != [] && Starts(answers, run[0])
    && forall k :: 0 < k < |run| ==> Step(answers, run[k - 1], run[k])
  }

  predicate Won(t: Thread) { t == Winner || t == Sent }

  /** At most one thread has won, exactly when the flag is up; a thread lost or bailed out only then. */
  ghost predicate Inv<T>(answers: seq<Option<T>>, r: Race<T>) {
    && |r.threads| == |answers|
    && (forall i, j :: 0 <= i < j < |r.threads| ==> !(Won(r.threads[i]) && Won(r.threads[j])))
    && (r.solved <==> exists i :: 0 <= i < |r.threads| && Won(r.threads[i]))
    && (forall i :: 0 <= i < |r.threads| ==>
          && (r.threads[i] in {Bailed, Lost} ==> r.solved)
          && (Won(r.threads[i]) ==> answers[i].Some?)
          && (r.threads[i] == Failed ==> answers[i].None?)
          && (r.threads[i] == Sent ==> r.sent == [Message(i, answers[i].value)]))
    && (r.sent != [] ==> exists i :: 0 <= i < |r.threads| && r.threads[i] == Sent)
    && (r.caller.Waiting? ==> r.channel == r.sent)
    && (r.caller.Returned? ==> r.sent == [r.caller.message])
    && (r.caller.AllFailed? ==> forall i :: 0 <= i < |r.threads| ==> r.threads[i] == Failed)
  }

  lemma LookStep<T>(answers: seq<Option<T>>, r: Race<T>, i: nat)
    requires Inv(answers, r) && Enabled(r, Look(i))
    ensures Inv(answers, Perform(answers, r, Look(i)))
  {
    var s := Perform(answers, r, Look(i));
    assert forall k :: 0 <= k < |r.threads| && k != i ==> s.threads[k] == r.threads[k];
  }

  lemma FinishStep<T>(answers: seq<Option<T>>, r: Race<T>, i: nat)
    requires Inv(answers, r) && Enabled(r, Finish(i))
    ensures Inv(answers, Perform(answers, r, Finish(i)))
  {
    var s := Perform(answers, r, Finish(i));
    assert forall k :: 0 <= k < |r.threads| && k != i ==> s.threads[k] == r.threads[k];
    assert answers[i].Some? && !r.solved ==> Won(s.threads[i]);
  }

  lemma SendStep<T>(answers: seq<Option<T>>, r: Race<T>, i: nat)
    requires Inv(answers, r) && Enabled(r, Send(i))
    ensures Inv(answers, Perform(answers, r, Send(i)))
  {
    var s := Perform(answers, r, Send(i));
    assert forall k :: 0 <= k < |r.threads| && k != i ==> s.threads[k] == r.threads[k];
    assert Won(r.threads[i]) && s.threads[i] == Sent;
    assert r.sent == [];
  }

  lemma InvStep<T>(answers: seq<Option<T>>, r: Race<T>, a: Action)
    requires Inv(answers, r) && Enabled(r, a)
    ensures Inv(answers, Perform(answers, r, a))
  {
    match a {
      case Look(i) => LookStep(answers, r, i);
      case Finish(i) => FinishStep(answers, r, i);
      case Send(i) => SendStep(answers, r, i);
      case _ =>
    }
  }

  lemma {:induction false} InvRun<T>(answers: seq<Option<T>>, run: seq<Race<T>>, k: nat)
    requires IsRun(answers, run) && k < |run|
    ensures Inv(answers, run[k])
  {
    if k > 0 {
      InvRun(answers, run, k - 1);
      var a :| Enabled(run[k - 1], a) && run[k] == Perform(answers, run[k - 1], a);
      InvStep(answers, run[k - 1], a);
    }
  }

  /** In every interleaving at most one result is ever sent, and it is the answer of the strategy
      named with it; the caller returns that one. */
  lemma SingleWinner<T>(answers: seq<Option<T>>, run: seq<Race<T>>, k: nat)
    requires IsRun(answers, run) && k < |run|
    ensures |run[k].sent| <= 1
    ensures forall m :: m in run[k].sent ==> m.thread < |answers| && answers[m.thread] == Some(m.output)
    ensures run[k].caller.Returned? ==> run[k].sent == [run[k].caller.message]
  {
    InvRun(answers, run, k);
  }

  /** "All strategies failed" is reported only when every strategy did fail: a thread that bails out
      or loses the swap leaves a winner behind whose message arrives. */
  lemma FailureMeansAllFailed<T>(answers: seq<Option<T>>, run: seq<Race<T>>, k: nat)
    requires IsRun(answers, run) && k < |run| && run[k].caller.AllFailed?
    ensures forall i :: 0 <= i < |answers| ==> answers[i].None?
  {
    InvRun(answers, run, k);
  }
}
