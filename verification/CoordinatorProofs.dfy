/** What every step of the coordinator keeps: the cubes unaltered, every message truthful, the flags,
    the aggregator and the stored results in agreement, a single holder for every uncompleted cube, and
    hand-outs balanced against re-queues. */
module CoordinatorProofs {
  import opened Prelude
  import opened Cubes
  import opened Coordinator

  // ================================================================ invariants

  ghost predicate CubesIntact(k: Config, t: Tables) {
    && (forall id: nat :: id in t.cubes <==> id < |CubesOf(k)|)
    && (forall id :: id in t.cubes ==> t.cubes[id].assumptions == CubesOf(k)[id])
  }

  ghost predicate IsUnit(k: Config, id: nat, assumptions: Cube) {
    id < |CubesOf(k)| && assumptions == CubesOf(k)[id]
  }

  ghost predicate HonestIn(k: Config, m: ToCoordinator) {
    m.Answer? ==> TruthfulFor(k, m.cubeId, m.status)
  }

  ghost predicate HonestOut(k: Config, m: ToWorker) {
    m.WorkUnit? ==> IsUnit(k, m.cubeId, m.assumptions)
  }

  /** Everything a connection carries is a true answer or an unaltered cube. */
  ghost predicate ConnHonest(k: Config, c: Conn) {
    && (forall i :: 0 <= i < |c.inbox| ==> HonestIn(k, c.inbox[i]))
    && (forall i :: 0 <= i < |c.outbox| ==> HonestOut(k, c.outbox[i]))
    && (c.worker.Solving? ==> IsUnit(k, c.worker.cubeId, c.worker.assumptions))
    && (match c.pc
        case Clearing(id, status) => TruthfulFor(k, id, status)
        case Forwarding(id, status) => TruthfulFor(k, id, status)
        case Recording(id, assumptions) => IsUnit(k, id, assumptions)
        case Sending(m) => HonestOut(k, m)
        case _ => true)
  }

  ghost predicate TablesHonest(k: Config, t: Tables) {
    && (forall i :: 0 <= i < |t.results| ==> TruthfulFor(k, t.results[i].0, t.results[i].1))
    && (forall id :: id in t.cubes && t.cubes[id].result.Some? ==> TruthfulFor(k, id, t.cubes[id].result.value))
  }

  ghost predicate Honest(k: Config, s: State) {
    && (forall h :: h in s.conns ==> ConnHonest(k, s.conns[h]))
    && TablesHonest(k, s.tables)
    && (s.aggregator.Applying? ==> TruthfulFor(k, s.aggregator.cubeId, s.aggregator.status))
  }

  ghost predicate SomeSat(t: Tables) {
    exists id :: id in t.cubes && t.cubes[id].result == Some(Sat)
  }

  /** The verdict the stored results call for. */
  ghost function Judgement(t: Tables): Status {
    if SomeSat(t) then Sat else if AllUnsat(t) then Unsat else Unknown
  }

  /** The two flags, the aggregator and the final reading of the tables agree. */
  ghost predicate Phase(s: State) {
    var t := s.tables;
    && (forall id :: id in t.cubes ==> (t.cubes[id].completed <==> t.cubes[id].result.Some?))
    && (t.foundSat <==> SomeSat(t))
    && (t.allDone <==> s.aggregator == Exited)
    && (t.receiverAlive <==> s.aggregator != Exited)
    && (s.aggregator == Receiving || s.aggregator.Applying? ==> !t.foundSat)
    && (s.aggregator == Announcing || s.aggregator == Exited ==> t.foundSat || AllCompleted(t))
    && (s.main == Accepting || s.main.Requeueing? || s.aggregator == Exited)
    && (s.main == ReadingTables ==> !t.foundSat)
    && (s.main.Returned? ==> s.main.verdict == Judgement(t))
  }

  /** Who is responsible for a cube that was taken: the handler between the two critical
      sections, the registered worker it recorded, or the sweep that just removed that worker. */
  datatype Holder = ByWorker(wid: string) | ByHandler(h: ConnId) | BySweep

  ghost predicate Holds(s: State, x: Holder, id: nat) {
    match x
    case ByWorker(wid) => wid in s.tables.workers && s.tables.workers[wid].currentCube == Some(id)
    case ByHandler(h) => h in s.conns && s.conns[h].pc.Recording? && s.conns[h].pc.cubeId == id
    case BySweep => s.main == Requeueing(id)
  }

  ghost predicate Open(t: Tables, id: nat) {
    id in t.cubes && !t.cubes[id].completed
  }

  /** An uncompleted cube has at most one holder, and is taken while it has one. */
  ghost predicate Exclusive(s: State) {
    && (forall id, x :: Open(s.tables, id) && Holds(s, x, id) ==> s.tables.cubes[id].taken)
    && (forall id, x, y :: Open(s.tables, id) && Holds(s, x, id) && Holds(s, y, id) ==> x == y)
  }

  function Count(m: map<nat, nat>, id: nat): nat {
    if id in m then m[id] else 0
  }

  /** Hand-outs minus re-queues is the assigned flag. */
  ghost predicate Ledger(s: State) {
    forall id :: id in s.tables.cubes ==>
      Count(s.handouts, id) == Count(s.requeues, id) + (if s.tables.cubes[id].taken then 1 else 0)
  }

  ghost predicate Inv(k: Config, s: State) {
    && CubesIntact(k, s.tables)
    && Honest(k, s)
    && Phase(s)
    && Exclusive(s)
    && Ledger(s)
  }

  // ================================================================ preservation

  /** Two tables that differ at most in the assigned flags, the registry and the channel. */
  ghost predicate SameOutcomes(t: Tables, t': Tables) {
    && t'.cubes.Keys == t.cubes.Keys
    && t'.foundSat == t.foundSat && t'.allDone == t.allDone && t'.receiverAlive == t.receiverAlive
    && (forall id :: id in t.cubes ==>
          t'.cubes[id].assumptions == t.cubes[id].assumptions
          && t'.cubes[id].completed == t.cubes[id].completed
          && t'.cubes[id].result == t.cubes[id].result)
  }

  lemma SameOutcomesSameJudgement(t: Tables, t': Tables)
    requires SameOutcomes(t, t')
    ensures SomeSat(t') == SomeSat(t) && AllUnsat(t') == AllUnsat(t) && AllCompleted(t') == AllCompleted(t)
  {
    assert forall id :: id in t.cubes <==> id in t'.cubes;
    if SomeSat(t) {
      var id :| id in t.cubes && t.cubes[id].result == Some(Sat);
      assert t'.cubes[id].result == Some(Sat);
    }
    if SomeSat(t') {
      var id :| id in t'.cubes && t'.cubes[id].result == Some(Sat);
      assert t.cubes[id].result == Some(Sat);
    }
  }

  lemma HandlerOutcomes(a: Action, c: Conn, t: Tables)
    requires IsHandlerAction(a) && HandlerEnabled(a, c, t)
    ensures SameOutcomes(t, HandlerTables(a, c, t))
  {
  }

  lemma OtherOutcomes(k: Config, s: State, a: Action, s': State)
    requires Step(k, s, a, s') && !IsHandlerAction(a) && !a.AggregatorApply? && !a.AggregatorAnnounce?
    ensures SameOutcomes(s.tables, s'.tables)
  {
  }

  /** Only the aggregator changes what is completed and with which result. */
  lemma OutcomesFrame(k: Config, s: State, a: Action, s': State)
    requires Step(k, s, a, s') && !a.AggregatorApply? && !a.AggregatorAnnounce?
    ensures SameOutcomes(s.tables, s'.tables)
  {
    if IsHandlerAction(a) {
      HandlerOutcomes(a, s.conns[a.h], s.tables);
    } else {
      OtherOutcomes(k, s, a, s');
    }
  }

  lemma CubesIntactStep(k: Config, s: State, a: Action, s': State)
    requires CubesIntact(k, s.tables) && Step(k, s, a, s')
    ensures CubesIntact(k, s'.tables)
  {
    if !a.AggregatorApply? && !a.AggregatorAnnounce? {
      OutcomesFrame(k, s, a, s');
      assert forall id :: id in s'.tables.cubes <==> id in s.tables.cubes;
    }
  }

  lemma HandlerKeepsConnHonest(k: Config, a: Action, c: Conn, t: Tables)
    requires CubesIntact(k, t) && ConnHonest(k, c) && IsHandlerAction(a) && HandlerEnabled(a, c, t)
    ensures ConnHonest(k, HandlerConn(a, c, t))
  {
    if a.HandlerRead? {
      assert HonestIn(k, c.inbox[0]);
    }
  }

  lemma WorkerKeepsConnHonest(k: Config, a: Action, c: Conn)
    requires ConnHonest(k, c) && IsWorkerAction(a) && WorkerEnabled(k, a, c)
    ensures ConnHonest(k, WorkerConn(k, a, c))
  {
    if a.WorkerReceive? {
      assert HonestOut(k, c.outbox[0]);
    }
  }

  lemma ConnsHonestStep(k: Config, s: State, a: Action, s': State)
    requires CubesIntact(k, s.tables) && Honest(k, s) && Step(k, s, a, s')
    ensures forall h :: h in s'.conns ==> ConnHonest(k, s'.conns[h])
  {
    if IsHandlerAction(a) {
      HandlerKeepsConnHonest(k, a, s.conns[a.h], s.tables);
    } else if IsWorkerAction(a) {
      WorkerKeepsConnHonest(k, a, s.conns[a.h]);
    } else {
      OtherKeepsConnHonest(k, s, a, s');
    }
  }

  lemma OtherKeepsConnHonest(k: Config, s: State, a: Action, s': State)
    requires Honest(k, s) && Step(k, s, a, s') && !IsHandlerAction(a) && !IsWorkerAction(a)
    ensures forall h :: h in s'.conns ==> ConnHonest(k, s'.conns[h])
  {
  }

  lemma HandlerTablesHonest(k: Config, a: Action, c: Conn, t: Tables)
    requires TablesHonest(k, t) && ConnHonest(k, c) && IsHandlerAction(a) && HandlerEnabled(a, c, t)
    ensures TablesHonest(k, HandlerTables(a, c, t))
  {
  }

  lemma TablesHonestStep(k: Config, s: State, a: Action, s': State)
    requires CubesIntact(k, s.tables) && Honest(k, s) && Step(k, s, a, s')
    ensures TablesHonest(k, s'.tables)
    ensures s'.aggregator.Applying? ==> TruthfulFor(k, s'.aggregator.cubeId, s'.aggregator.status)
  {
    if IsHandlerAction(a) {
      HandlerTablesHonest(k, a, s.conns[a.h], s.tables);
    } else if a.AggregatorReceive? {
      assert TruthfulFor(k, s.tables.results[0].0, s.tables.results[0].1);
    }
  }

  lemma PhaseStep(k: Config, s: State, a: Action, s': State)
    requires Phase(s) && Step(k, s, a, s')
    ensures Phase(s')
  {
    if a.AggregatorApply? {
      ApplyKeepsPhase(k, s, s');
    } else if !a.AggregatorAnnounce? {
      OutcomesFrame(k, s, a, s');
      SameOutcomesSameJudgement(s.tables, s'.tables);
    } else {
      assert SomeSat(s'.tables) == SomeSat(s.tables);
    }
  }

  lemma ApplyKeepsPhase(k: Config, s: State, s': State)
    requires Phase(s) && Step(k, s, AggregatorApply, s')
    ensures Phase(s')
  {
    var t, t' := s.tables, s'.tables;
    var id, status := s.aggregator.cubeId, s.aggregator.status;
    if id in t.cubes && status == Sat {
      assert t'.cubes[id].result == Some(Sat);
    }
  }

  // ---------------------------------------------------------------- ownership

  /** A step that leaves every cube's flags alone, or only completes one, keeps Exclusive if
      it creates no holder. */
  lemma FewerHoldersKeepExclusive(s: State, s': State)
    requires Exclusive(s)
    requires forall id :: Open(s'.tables, id) ==>
              Open(s.tables, id) && s'.tables.cubes[id].taken == s.tables.cubes[id].taken
    requires forall x, id :: Holds(s', x, id) ==> Holds(s, x, id)
    ensures Exclusive(s')
  {
  }

  /** A step in which one holder passes a cube on to another keeps Exclusive. */
  lemma PassingOnKeepsExclusive(s: State, s': State, from: Holder, to: Holder, cube: nat)
    requires Exclusive(s)
    requires forall id :: Open(s'.tables, id) ==>
              Open(s.tables, id) && s'.tables.cubes[id].taken == s.tables.cubes[id].taken
    requires Holds(s, from, cube) && !Holds(s', from, cube)
    requires forall x, id :: Holds(s', x, id) ==> Holds(s, x, id) || (x == to && id == cube)
    ensures Exclusive(s')
  {
    forall id, x | Open(s'.tables, id) && Holds(s', x, id)
      ensures s'.tables.cubes[id].taken
    {
      if id == cube { assert Holds(s, from, id); }
    }
    forall id, x, y | Open(s'.tables, id) && Holds(s', x, id) && Holds(s', y, id)
      ensures x == y
    {
      if id == cube {
        assert Holds(s, from, id) && x != from && y != from;
      }
    }
  }

  lemma RecordKeepsExclusive(k: Config, s: State, a: Action, s': State)
    requires Exclusive(s) && Step(k, s, a, s') && a.HandlerRecord?
    ensures Exclusive(s')
  {
    var c := s.conns[a.h];
    PassingOnKeepsExclusive(s, s', ByHandler(a.h), ByWorker(c.wid), c.pc.cubeId);
  }

  lemma SweepKeepsExclusive(k: Config, s: State, a: Action, s': State)
    requires Exclusive(s) && Step(k, s, a, s') && a.Sweep? && s.tables.workers[a.wid].currentCube.Some?
    ensures Exclusive(s')
  {
    PassingOnKeepsExclusive(s, s', ByWorker(a.wid), BySweep, s.tables.workers[a.wid].currentCube.value);
  }

  lemma OtherKeepsExclusive(k: Config, s: State, a: Action, s': State)
    requires Exclusive(s) && Step(k, s, a, s') && !IsHandlerAction(a) && !a.Requeue?
    requires a.Sweep? ==> s.tables.workers[a.wid].currentCube.None?
    ensures Exclusive(s')
  {
    if IsWorkerAction(a) {
      assert s'.tables == s.tables && s'.main == s.main && s'.conns[a.h].pc == s.conns[a.h].pc;
    }
    FewerHoldersKeepExclusive(s, s');
  }

  lemma HandlerKeepsExclusive(k: Config, s: State, a: Action, s': State)
    requires Exclusive(s) && Step(k, s, a, s') && IsHandlerAction(a) && !a.HandlerTake? && !a.HandlerRecord?
    ensures Exclusive(s')
  {
    HandlerHoldsNoMore(a, s.conns[a.h], s.tables);
    FewerHoldersKeepExclusive(s, s');
  }

  lemma HandlerHoldsNoMore(a: Action, c: Conn, t: Tables)
    requires IsHandlerAction(a) && HandlerEnabled(a, c, t) && !a.HandlerTake? && !a.HandlerRecord?
    ensures !HandlerConn(a, c, t).pc.Recording? && HandlerTables(a, c, t).cubes == t.cubes
    ensures var after := HandlerTables(a, c, t).workers;
            forall w :: w in after && after[w].currentCube.Some? ==>
                          w in t.workers && after[w].currentCube == t.workers[w].currentCube
  {
  }

  lemma TakeKeepsExclusive(k: Config, s: State, a: Action, s': State)
    requires Exclusive(s) && Step(k, s, a, s') && a.HandlerTake?
    ensures Exclusive(s')
  {
    assert forall x, id: nat :: Holds(s', x, id) ==> Holds(s, x, id) || (a.choice == Some(id) && x == ByHandler(a.h));
    if a.choice.Some? {
      var cube := a.choice.value;
      assert forall x :: !Holds(s, x, cube);
      forall id, x, y | Open(s'.tables, id) && Holds(s', x, id) && Holds(s', y, id)
        ensures x == y
      {
      }
    }
  }

  lemma RequeueKeepsExclusive(k: Config, s: State, s': State)
    requires Exclusive(s) && Step(k, s, Requeue, s')
    ensures Exclusive(s')
  {
    var cube := s.main.cubeId;
    assert Holds(s, BySweep, cube);
    forall id, x | Open(s'.tables, id) && Holds(s', x, id)
      ensures s'.tables.cubes[id].taken
    {
      assert Holds(s, x, id) && x != BySweep;
    }
    assert forall x, id :: Holds(s', x, id) ==> Holds(s, x, id);
  }

  lemma ExclusiveStep(k: Config, s: State, a: Action, s': State)
    requires Exclusive(s) && Step(k, s, a, s')
    ensures Exclusive(s')
  {
    if a.HandlerTake? {
      TakeKeepsExclusive(k, s, a, s');
    } else if a.Requeue? {
      RequeueKeepsExclusive(k, s, s');
    } else if a.HandlerRecord? {
      RecordKeepsExclusive(k, s, a, s');
    } else if a.Sweep? && s.tables.workers[a.wid].currentCube.Some? {
      SweepKeepsExclusive(k, s, a, s');
    } else if IsHandlerAction(a) {
      HandlerKeepsExclusive(k, s, a, s');
    } else {
      OtherKeepsExclusive(k, s, a, s');
    }
  }

  /** Nothing the ledger counts has changed. */
  ghost predicate SameLedger(s: State, s': State) {
    && s'.handouts == s.handouts && s'.requeues == s.requeues && s'.tables.cubes.Keys == s.tables.cubes.Keys
    && forall id :: id in s.tables.cubes ==> s'.tables.cubes[id].taken == s.tables.cubes[id].taken
  }

  lemma SameLedgerKept(s: State, s': State)
    requires Ledger(s) && SameLedger(s, s')
    ensures Ledger(s')
  {
    assert forall id :: id in s'.tables.cubes <==> id in s.tables.cubes;
  }

  lemma HandlerLedger(a: Action, c: Conn, t: Tables)
    requires IsHandlerAction(a) && HandlerEnabled(a, c, t) && !(a.HandlerTake? && a.choice.Some?)
    ensures HandlerTables(a, c, t).cubes == t.cubes
  {
  }

  lemma OtherLedger(k: Config, s: State, a: Action, s': State)
    requires Step(k, s, a, s') && !IsHandlerAction(a) && !a.Requeue?
    ensures SameLedger(s, s')
  {
  }

  lemma TakeLedger(k: Config, s: State, a: Action, s': State)
    requires Ledger(s) && Step(k, s, a, s') && a.HandlerTake? && a.choice.Some?
    ensures Ledger(s')
  {
  }

  lemma RequeueLedger(k: Config, s: State, s': State)
    requires Exclusive(s) && Ledger(s) && Step(k, s, Requeue, s')
    ensures Ledger(s')
  {
    assert Holds(s, BySweep, s.main.cubeId);
  }

  lemma LedgerStep(k: Config, s: State, a: Action, s': State)
    requires Exclusive(s) && Ledger(s) && Step(k, s, a, s')
    ensures Ledger(s')
  {
    if a.HandlerTake? && a.choice.Some? {
      TakeLedger(k, s, a, s');
    } else if a.Requeue? {
      RequeueLedger(k, s, s');
    } else {
      if IsHandlerAction(a) {
        HandlerLedger(a, s.conns[a.h], s.tables);
      } else {
        OtherLedger(k, s, a, s');
      }
      SameLedgerKept(s, s');
    }
  }

  lemma InvInit(k: Config)
    ensures Inv(k, Init(k))
  {
  }

  lemma InvStep(k: Config, s: State, a: Action, s': State)
    requires Inv(k, s) && Step(k, s, a, s')
    ensures Inv(k, s')
  {
    CubesIntactStep(k, s, a, s');
    ConnsHonestStep(k, s, a, s');
    TablesHonestStep(k, s, a, s');
    PhaseStep(k, s, a, s');
    ExclusiveStep(k, s, a, s');
    LedgerStep(k, s, a, s');
  }

  lemma {:induction false} InvRun(k: Config, states: seq<State>, actions: seq<Action>, i: nat)
    requires IsRun(k, states, actions) && i < |states|
    ensures Inv(k, states[i])
  {
    if i == 0 {
      InvInit(k);
    } else {
      InvRun(k, states, actions, i - 1);
      assert StepAt(k, states, actions, i - 1);
      InvStep(k, states[i - 1], actions[i - 1], states[i]);
    }
  }
}
