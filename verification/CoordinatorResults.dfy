/** The guarantees of the coordinator over whole runs. */
module CoordinatorResults {
  import opened Prelude
  import opened Cubes
  import opened Coordinator
  import opened CoordinatorProofs

  // ================================================================ the verdict

  ghost predicate ProblemSatisfiable(k: Config) {
    exists v :: v in k.problem
  }

  /** Whatever the interleaving, with time-outs, re-queued cubes, late and duplicate answers:
      a final Sat or Unsat is right. Unknown is reported only when every cube was completed,
      none of them Sat and some of them undecided. */
  lemma VerdictCorrect(k: Config, states: seq<State>, actions: seq<Action>, i: nat)
    requires IsRun(k, states, actions) && i < |states| && states[i].main.Returned?
    ensures states[i].main.verdict == Sat ==> ProblemSatisfiable(k)
    ensures states[i].main.verdict == Unsat ==> !ProblemSatisfiable(k)
    ensures states[i].main.verdict == Unknown ==>
              && AllCompleted(states[i].tables)
              && !SomeSat(states[i].tables)
              && exists id :: id in states[i].tables.cubes && states[i].tables.cubes[id].result == Some(Unknown)
  {
    InvRun(k, states, actions, i);
    var t := states[i].tables;
    if SomeSat(t) {
      var id :| id in t.cubes && t.cubes[id].result == Some(Sat);
      assert TruthfulFor(k, id, Sat);
      var v :| v in k.problem && CubeHolds(CubesOf(k)[id], k.names, v);
    } else if AllUnsat(t) {
      forall v ensures v !in k.problem {
        AllUnsatRefutes(k, t, v);
      }
    } else {
      var id :| id in t.cubes && t.cubes[id].result != Some(Unsat);
      assert t.cubes[id].completed && t.cubes[id].result.Some?;
    }
  }

  lemma AllUnsatRefutes(k: Config, t: Tables, v: Valuation)
    requires CubesIntact(k, t) && TablesHonest(k, t) && AllUnsat(t)
    ensures v !in k.problem
  {
    CubesPartition(k.numCubes, k.names, v);
    var id := CubeIndex(k.numCubes, k.names, v);
    assert id in t.cubes && TruthfulFor(k, id, Unsat);
  }

  /** all_done is never set early. */
  lemma AllDoneMeansDecided(k: Config, states: seq<State>, actions: seq<Action>, i: nat)
    requires IsRun(k, states, actions) && i < |states| && states[i].tables.allDone
    ensures SomeSat(states[i].tables) || AllCompleted(states[i].tables)
    ensures states[i].tables.foundSat <==> SomeSat(states[i].tables)
  {
    InvRun(k, states, actions, i);
  }

  // ================================================================ completed cubes

  ghost predicate Completed(s: State, id: nat) {
    id in s.tables.cubes && s.tables.cubes[id].completed
  }

  lemma CompletedStep(k: Config, s: State, a: Action, s': State, id: nat)
    requires Step(k, s, a, s') && Completed(s, id)
    ensures Completed(s', id) && Count(s'.handouts, id) == Count(s.handouts, id)
    ensures Count(s'.requeues, id) == Count(s.requeues, id)
  {
    if IsHandlerAction(a) {
      if a.HandlerTake? && a.choice.Some? {
        assert a.choice.value != id;
      } else {
        HandlerLedger(a, s.conns[a.h], s.tables);
      }
    } else {
      OtherCompletedStep(k, s, a, s', id);
    }
  }

  lemma OtherCompletedStep(k: Config, s: State, a: Action, s': State, id: nat)
    requires Step(k, s, a, s') && Completed(s, id) && !IsHandlerAction(a)
    ensures Completed(s', id) && s'.handouts == s.handouts && Count(s'.requeues, id) == Count(s.requeues, id)
  {
  }

  /** A completed cube stays completed and is neither handed out nor re-queued again. */
  lemma {:induction false} CompletedForever(k: Config, states: seq<State>, actions: seq<Action>, i: nat, j: nat,
                                            id: nat)
    requires IsRun(k, states, actions) && i <= j < |states| && Completed(states[i], id)
    ensures Completed(states[j], id)
    ensures Count(states[j].handouts, id) == Count(states[i].handouts, id)
    ensures Count(states[j].requeues, id) == Count(states[i].requeues, id)
    decreases j - i
  {
    if i < j {
      CompletedForever(k, states, actions, i, j - 1, id);
      assert StepAt(k, states, actions, j - 1);
      CompletedStep(k, states[j - 1], actions[j - 1], states[j], id);
    }
  }

  // ================================================================ ownership

  /** At most one registered worker is recorded as owner of an uncompleted cube; the cube is
      then marked as taken. Hand-outs minus re-queues always equal that mark. */
  lemma SingleOwner(k: Config, states: seq<State>, actions: seq<Action>, i: nat, id: nat)
    requires IsRun(k, states, actions) && i < |states| && Open(states[i].tables, id)
    ensures forall w, w' :: Holds(states[i], ByWorker(w), id) && Holds(states[i], ByWorker(w'), id) ==> w == w'
    ensures forall w :: Holds(states[i], ByWorker(w), id) ==> states[i].tables.cubes[id].taken
    ensures Count(states[i].handouts, id)
            == Count(states[i].requeues, id) + (if states[i].tables.cubes[id].taken then 1 else 0)
  {
    InvRun(k, states, actions, i);
    forall w, w' | Holds(states[i], ByWorker(w), id) && Holds(states[i], ByWorker(w'), id)
      ensures w == w'
    {
      assert ByWorker(w) == ByWorker(w');
    }
  }
}
