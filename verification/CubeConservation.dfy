/** Exactly when the coordinator loses a cube (distributed.rs). */
module CubeConservation {
  import opened Prelude
  import opened Coordinator
  import opened CoordinatorProofs

  // ================================================================ where a taken cube is

  /** A handler that still relays between its worker and the tables. */
  ghost predicate Live(c: Conn) {
    c.pc != Sending(Shutdown) && c.pc != Unregistering && c.pc != Gone
  }

  /** The cube, or an answer about it, is somewhere between this handler and its worker. */
  ghost predicate Carries(c: Conn, id: nat) {
    || (c.pc.Recording? && c.pc.cubeId == id)
    || (c.pc.Sending? && c.pc.message.WorkUnit? && c.pc.message.cubeId == id)
    || ((c.pc.Clearing? || c.pc.Forwarding?) && c.pc.cubeId == id)
    || (c.worker.Solving? && c.worker.cubeId == id)
    || (exists i :: 0 <= i < |c.outbox| && IsUnitFor(c.outbox[i], id))
    || (exists i :: 0 <= i < |c.inbox| && IsAnswerFor(c.inbox[i], id))
  }

  predicate IsUnitFor(m: ToWorker, id: nat) { m.WorkUnit? && m.cubeId == id }

  predicate IsAnswerFor(m: ToCoordinator, id: nat) { m.Answer? && m.cubeId == id }

  ghost predicate Arriving(s: State, id: nat) {
    || (exists i :: 0 <= i < |s.tables.results| && s.tables.results[i].0 == id)
    || (s.aggregator.Applying? && s.aggregator.cubeId == id)
  }

  ghost predicate VerdictOpen(s: State) {
    s.aggregator == Receiving || s.aggregator.Applying?
  }

  /** The places from which a cube that was taken can still be answered for or come back. */
  datatype Place = AtConnection(h: ConnId) | AtEntry(wid: string) | InSweep | InChannel

  ghost predicate At(s: State, place: Place, id: nat) {
    match place
    case AtConnection(h) => h in s.conns && Live(s.conns[h]) && Carries(s.conns[h], id)
    case AtEntry(wid) => wid in s.tables.workers && s.tables.workers[wid].currentCube == Some(id)
    case InSweep => s.main == Requeueing(id)
    case InChannel => Arriving(s, id)
  }

  ghost predicate Placed(s: State, id: nat) {
    exists place :: At(s, place, id)
  }

  ghost predicate OpenTaken(s: State, id: nat) {
    Open(s.tables, id) && s.tables.cubes[id].taken
  }

  /** No cube is lost: every taken cube without a result is somewhere. */
  ghost predicate Conserved(s: State) {
    forall id :: OpenTaken(s, id) ==> Placed(s, id)
  }

  /** The place that a step takes away: a handler that leaves takes its connection, and the entry of
      a worker is overwritten, cleared or removed. */
  function GivesUp(s: State, a: Action): Option<Place> {
    match a
    case HandlerClosed(h) => Some(AtConnection(h))
    case HandlerFail(h) => Some(AtConnection(h))
    case HandlerRegister(h) => if h in s.conns then Some(AtEntry(s.conns[h].wid)) else None
    case HandlerClear(h) => if h in s.conns then Some(AtEntry(s.conns[h].wid)) else None
    case HandlerRecord(h) => if h in s.conns then Some(AtEntry(s.conns[h].wid)) else None
    case HandlerUnregister(h) => if h in s.conns then Some(AtEntry(s.conns[h].wid)) else None
    case _ => None
  }

  /** ... and it was the only place of a cube. */
  ghost predicate Abandons(s: State, a: Action) {
    GivesUp(s, a).Some? && exists id :: OpenTaken(s, id) && OnlyAt(s, GivesUp(s, a).value, id)
  }

  ghost predicate OnlyAt(s: State, place: Place, id: nat) {
    At(s, place, id) && forall other :: At(s, other, id) ==> other == place
  }

  // ================================================================ places that stay

  lemma HandlerKeepsCube(a: Action, c: Conn, t: Tables, id: nat)
    requires IsHandlerAction(a) && HandlerEnabled(a, c, t) && !t.foundSat && !t.allDone && Live(c)
    requires !a.HandlerClosed? && !a.HandlerFail?
    ensures Live(HandlerConn(a, c, t))
    ensures Carries(c, id) && !(a.HandlerForward? && c.pc.cubeId == id) ==> Carries(HandlerConn(a, c, t), id)
  {
    var c' := HandlerConn(a, c, t);
    if Carries(c, id) && exists i :: 0 <= i < |c.outbox| && IsUnitFor(c.outbox[i], id) {
      var i :| 0 <= i < |c.outbox| && IsUnitFor(c.outbox[i], id);
      assert IsUnitFor(c'.outbox[i], id);
    } else if Carries(c, id) && exists i :: 0 <= i < |c.inbox| && IsAnswerFor(c.inbox[i], id) {
      var i :| 0 <= i < |c.inbox| && IsAnswerFor(c.inbox[i], id);
      if !a.HandlerRead? {
        assert IsAnswerFor(c'.inbox[i], id);
      } else if i > 0 {
        assert IsAnswerFor(c'.inbox[i - 1], id);
      }
    } else if a.HandlerSend? {
      assert c'.outbox[|c.outbox|] == c.pc.message;
      assert Carries(c, id) && !c.worker.Solving? ==> IsUnitFor(c'.outbox[|c.outbox|], id);
    }
  }

  lemma WorkerKeepsCube(k: Config, a: Action, c: Conn, id: nat)
    requires IsWorkerAction(a) && WorkerEnabled(k, a, c) && Live(c) && Carries(c, id)
    ensures Live(WorkerConn(k, a, c)) && Carries(WorkerConn(k, a, c), id)
  {
    var c' := WorkerConn(k, a, c);
    if i :| 0 <= i < |c.inbox| && IsAnswerFor(c.inbox[i], id) {
      assert IsAnswerFor(c'.inbox[i], id);
    } else if i :| 0 <= i < |c.outbox| && IsUnitFor(c.outbox[i], id) {
      if !a.WorkerReceive? {
        assert IsUnitFor(c'.outbox[i], id);
      } else if i > 0 {
        assert IsUnitFor(c'.outbox[i - 1], id);
      }
    } else if a.WorkerAnswer? && c.worker.cubeId == id {
      assert IsAnswerFor(c'.inbox[|c.inbox|], id);
    }
  }

  lemma ConnectionKept(k: Config, s: State, a: Action, s': State, h: ConnId, id: nat)
    requires Phase(s) && VerdictOpen(s) && !s.tables.foundSat && !s.tables.allDone && Step(k, s, a, s')
    requires At(s, AtConnection(h), id) && GivesUp(s, a) != Some(AtConnection(h))
    ensures Placed(s', id)
  {
    if IsHandlerAction(a) && a.h == h {
      if a.HandlerForward? && s.conns[h].pc.cubeId == id {
        assert s'.tables.results[|s.tables.results|] == (id, s.conns[h].pc.status);
        assert At(s', InChannel, id);
      } else {
        HandlerKeepsCube(a, s.conns[h], s.tables, id);
        assert At(s', AtConnection(h), id);
      }
    } else if IsWorkerAction(a) && a.h == h {
      WorkerKeepsCube(k, a, s.conns[h], id);
      assert At(s', AtConnection(h), id);
    } else {
      assert s'.conns[h] == s.conns[h];
      assert At(s', AtConnection(h), id);
    }
  }

  lemma EntryKept(k: Config, s: State, a: Action, s': State, wid: string, id: nat)
    requires Step(k, s, a, s')
    requires At(s, AtEntry(wid), id) && GivesUp(s, a) != Some(AtEntry(wid))
    ensures Placed(s', id)
  {
    if a == Sweep(wid) {
      assert At(s', InSweep, id);
    } else {
      assert At(s', AtEntry(wid), id);
    }
  }

  lemma SweepKept(k: Config, s: State, a: Action, s': State, id: nat)
    requires Step(k, s, a, s') && At(s, InSweep, id)
    ensures At(s', InSweep, id) || !OpenTaken(s', id)
  {
  }

  lemma HandlerResults(a: Action, c: Conn, t: Tables)
    requires IsHandlerAction(a) && HandlerEnabled(a, c, t)
    ensures t.results <= HandlerTables(a, c, t).results
  {
  }

  /** The channel only grows, but for what the aggregator takes. */
  lemma ResultsStep(k: Config, s: State, a: Action, s': State)
    requires Step(k, s, a, s')
    ensures if a.AggregatorReceive? then s.tables.results != [] && s'.tables.results == s.tables.results[1..]
            else s.tables.results <= s'.tables.results
  {
    if IsHandlerAction(a) {
      HandlerResults(a, s.conns[a.h], s.tables);
    }
  }

  lemma ChannelKept(k: Config, s: State, a: Action, s': State, id: nat)
    requires Phase(s) && VerdictOpen(s) && Step(k, s, a, s') && At(s, InChannel, id)
    ensures At(s', InChannel, id) || !OpenTaken(s', id)
  {
    ResultsStep(k, s, a, s');
    if i :| 0 <= i < |s.tables.results| && s.tables.results[i].0 == id {
      if !a.AggregatorReceive? {
        assert s'.tables.results[i] == s.tables.results[i];
      } else if i > 0 {
        assert s'.tables.results[i - 1] == s.tables.results[i];
      }
    }
  }

  lemma OpenBefore(k: Config, s: State, a: Action, s': State)
    requires Phase(s) && Step(k, s, a, s') && VerdictOpen(s')
    ensures VerdictOpen(s) && !s.tables.foundSat && !s.tables.allDone
  {
  }

  /** Only a place given up is lost. */
  lemma PlaceKept(k: Config, s: State, a: Action, s': State, place: Place, id: nat)
    requires Phase(s) && Step(k, s, a, s') && VerdictOpen(s') && OpenTaken(s', id)
    requires At(s, place, id) && GivesUp(s, a) != Some(place)
    ensures Placed(s', id)
  {
    OpenBefore(k, s, a, s');
    match place
    case AtConnection(h) => ConnectionKept(k, s, a, s', h, id);
    case AtEntry(wid) => EntryKept(k, s, a, s', wid, id);
    case InSweep => SweepKept(k, s, a, s', id); assert At(s', InSweep, id);
    case InChannel => ChannelKept(k, s, a, s', id); assert At(s', InChannel, id);
  }

  // ================================================================ places that are lost

  /** A step that gives up a place touches no cube, and opens no other place. */
  lemma NoNewPlace(k: Config, s: State, a: Action, s': State, id: nat, place: Place)
    requires Step(k, s, a, s') && GivesUp(s, a).Some? && OnlyAt(s, GivesUp(s, a).value, id)
    ensures !At(s', place, id)
  {
    var h := a.h;
    match place
    case AtConnection(g) =>
      if g in s'.conns && Live(s'.conns[g]) && Carries(s'.conns[g], id) {
        assert g in s.conns;
        if g == h {
          assert Live(s.conns[h]) && Carries(s.conns[h], id);
          assert At(s, AtConnection(h), id);
        } else {
          assert At(s, AtConnection(g), id);
        }
      }
    case AtEntry(wid) =>
      if wid in s'.tables.workers && s'.tables.workers[wid].currentCube == Some(id) {
        if a.HandlerRecord? && wid == s.conns[h].wid {
          assert At(s, AtConnection(h), id);
        } else {
          assert At(s, AtEntry(wid), id);
        }
      }
    case InSweep => assert At(s, InSweep, id) <==> At(s', InSweep, id);
    case InChannel => assert At(s, InChannel, id) <==> At(s', InChannel, id);
  }

  // ================================================================ steps and runs

  /** While the verdict is open a step loses a cube if and only if it gives up that cube's only place:
      a connection that closes or fails, or the entry of a worker that is unregistered, registered
      again or recorded with another cube. */
  lemma ConservedStepIff(k: Config, s: State, a: Action, s': State)
    requires Phase(s) && Conserved(s) && Step(k, s, a, s') && VerdictOpen(s')
    ensures Conserved(s') <==> !Abandons(s, a)
  {
    if Abandons(s, a) {
      var id: nat :| OpenTaken(s, id) && OnlyAt(s, GivesUp(s, a).value, id);
      forall place
        ensures !At(s', place, id)
      {
        NoNewPlace(k, s, a, s', id, place);
      }
      assert OpenTaken(s', id) && !Placed(s', id);
    } else {
      forall id: nat | OpenTaken(s', id)
        ensures Placed(s', id)
      {
        StaysPlaced(k, s, a, s', id);
      }
    }
  }

  lemma StaysPlaced(k: Config, s: State, a: Action, s': State, id: nat)
    requires Phase(s) && Conserved(s) && Step(k, s, a, s') && VerdictOpen(s')
    requires !Abandons(s, a) && OpenTaken(s', id)
    ensures Placed(s', id)
  {
    if a.HandlerTake? && a.choice == Some(id) {
      assert At(s', AtConnection(a.h), id);
    } else {
      assert OpenTaken(s, id);
      var place :| At(s, place, id);
      if GivesUp(s, a) == Some(place) {
        assert !OnlyAt(s, place, id);
        place :| At(s, place, id) && GivesUp(s, a) != Some(place);
      }
      PlaceKept(k, s, a, s', place, id);
    }
  }

  /** Up to any moment at which the verdict is still open: no cube was ever lost if and only if no
      step abandoned one. */
  lemma {:induction false} NoCubeLostIff(k: Config, states: seq<State>, actions: seq<Action>, i: nat)
    requires IsRun(k, states, actions) && i < |states| && VerdictOpen(states[i])
    ensures (forall j :: 0 <= j <= i ==> Conserved(states[j]))
       <==> (forall j :: 0 <= j < i ==> !Abandons(states[j], actions[j]))
  {
    if i > 0 {
      InvRun(k, states, actions, i - 1);
      assert StepAt(k, states, actions, i - 1);
      OpenBefore(k, states[i - 1], actions[i - 1], states[i]);
      NoCubeLostIff(k, states, actions, i - 1);
      if Conserved(states[i - 1]) {
        ConservedStepIff(k, states[i - 1], actions[i - 1], states[i]);
      }
    }
  }

  // ================================================================ while nobody leaves

  /** The cube is with a handler that still relays for its worker, or its result is in the channel. */
  ghost predicate Outstanding(s: State, id: nat) {
    (exists h :: At(s, AtConnection(h), id)) || At(s, InChannel, id)
  }

  ghost predicate AllOutstanding(s: State) {
    && (forall h :: h in s.conns ==> Live(s.conns[h]))
    && (forall id :: OpenTaken(s, id) ==> Outstanding(s, id))
  }

  /** No handler has left before step n. */
  predicate NobodyLeft(actions: seq<Action>, n: nat)
    requires n <= |actions|
  {
    forall j :: 0 <= j < n ==> !actions[j].HandlerClosed? && !actions[j].HandlerFail?
  }

  lemma HandlersStay(k: Config, s: State, a: Action, s': State)
    requires Step(k, s, a, s') && !s.tables.foundSat && !s.tables.allDone && !a.HandlerClosed? && !a.HandlerFail?
    requires forall h :: h in s.conns ==> Live(s.conns[h])
    ensures forall h :: h in s'.conns ==> Live(s'.conns[h])
  {
    if IsHandlerAction(a) {
      HandlerStays(a, s.conns[a.h], s.tables);
    }
    forall h | h in s'.conns
      ensures Live(s'.conns[h])
    {
      assert h in s.conns && !(IsHandlerAction(a) && a.h == h) ==> s'.conns[h].pc == s.conns[h].pc;
    }
  }

  lemma HandlerStays(a: Action, c: Conn, t: Tables)
    requires IsHandlerAction(a) && HandlerEnabled(a, c, t) && !t.foundSat && !t.allDone && Live(c)
    requires !a.HandlerClosed? && !a.HandlerFail?
    ensures Live(HandlerConn(a, c, t))
  {
  }

  /** No step but a handler's leaving takes an outstanding cube away. */
  lemma OutstandingStep(k: Config, s: State, a: Action, s': State, id: nat)
    requires Phase(s) && Step(k, s, a, s') && VerdictOpen(s') && !a.HandlerClosed? && !a.HandlerFail?
    requires Outstanding(s, id) && OpenTaken(s', id)
    ensures Outstanding(s', id)
  {
    OpenBefore(k, s, a, s');
    if At(s, InChannel, id) {
      ChannelKept(k, s, a, s', id);
    } else {
      var h :| At(s, AtConnection(h), id);
      if IsHandlerAction(a) && a.h == h {
        if a.HandlerForward? && s.conns[h].pc.cubeId == id {
          assert s'.tables.results[|s.tables.results|] == (id, s.conns[h].pc.status);
        } else {
          HandlerKeepsCube(a, s.conns[h], s.tables, id);
          assert At(s', AtConnection(h), id);
        }
      } else {
        if IsWorkerAction(a) && a.h == h {
          WorkerKeepsCube(k, a, s.conns[h], id);
        }
        assert At(s', AtConnection(h), id);
      }
    }
  }

  lemma AllOutstandingStep(k: Config, s: State, a: Action, s': State)
    requires Phase(s) && Step(k, s, a, s') && VerdictOpen(s') && !a.HandlerClosed? && !a.HandlerFail?
    requires AllOutstanding(s)
    ensures AllOutstanding(s')
  {
    OpenBefore(k, s, a, s');
    HandlersStay(k, s, a, s');
    forall id: nat | OpenTaken(s', id)
      ensures Outstanding(s', id)
    {
      if a.HandlerTake? && a.choice == Some(id) {
        assert At(s', AtConnection(a.h), id);
      } else {
        OutstandingStep(k, s, a, s', id);
      }
    }
  }

  /** In a run in which no handler has left, whatever messages arrive and whichever workers time out: while
      the verdict is open every uncompleted cube that is taken is with a live handler or in the channel. */
  lemma {:induction false} OutstandingUntilSomebodyLeaves(k: Config, states: seq<State>, actions: seq<Action>, i: nat)
    requires IsRun(k, states, actions) && i < |states| && VerdictOpen(states[i]) && NobodyLeft(actions, i)
    ensures AllOutstanding(states[i]) && Conserved(states[i])
  {
    if i > 0 {
      InvRun(k, states, actions, i - 1);
      assert StepAt(k, states, actions, i - 1);
      OpenBefore(k, states[i - 1], actions[i - 1], states[i]);
      OutstandingUntilSomebodyLeaves(k, states, actions, i - 1);
      AllOutstandingStep(k, states[i - 1], actions[i - 1], states[i]);
    }
    OutstandingIsPlaced(states[i]);
  }

  lemma OutstandingIsPlaced(s: State)
    requires AllOutstanding(s)
    ensures Conserved(s)
  {
    forall id | OpenTaken(s, id)
      ensures Placed(s, id)
    {
      assert Outstanding(s, id);
    }
  }

  // ================================================================ a cube lost

  ghost predicate Reachable(k: Config, s: State) {
    exists states, actions :: IsRun(k, states, actions) && states[|actions|] == s
  }

  lemma Next(k: Config, s: State, a: Action) returns (s': State)
    requires Reachable(k, s) && Enabled(k, s, a)
    ensures s' == Perform(k, s, a) && Reachable(k, s')
  {
    s' := Perform(k, s, a);
    var states, actions :| IsRun(k, states, actions) && states[|actions|] == s;
    var states', actions' := states + [s'], actions + [a];
    forall i | 0 <= i < |actions'|
      ensures StepAt(k, states', actions', i)
    {
      if i < |actions| { assert StepAt(k, states, actions, i); }
    }
    assert IsRun(k, states', actions') && states'[|actions'|] == s';
  }

  /** The coordinator after one connection, seen from the steps below. */
  ghost predicate Single(s: State, t: Tables, c: Conn) {
    s.tables == t && s.conns == map[0 := c] && s.aggregator == Receiving && s.main == Accepting
  }

  lemma NextSingle(k: Config, s: State, a: Action, t: Tables, c: Conn) returns (s': State)
    requires Reachable(k, s) && Single(s, t, c)
    requires IsHandlerAction(a) && a.h == 0 && HandlerEnabled(a, c, t)
    ensures Reachable(k, s') && Single(s', HandlerTables(a, c, t), HandlerConn(a, c, t))
  {
    s' := Next(k, s, a);
    assert s'.conns == map[0 := HandlerConn(a, c, t)];
  }

  lemma NextWorker(k: Config, s: State, a: Action, t: Tables, c: Conn) returns (s': State)
    requires Reachable(k, s) && Single(s, t, c) && IsWorkerAction(a) && a.h == 0 && WorkerEnabled(k, a, c)
    ensures Reachable(k, s') && Single(s', t, WorkerConn(k, a, c))
  {
    s' := Next(k, s, a);
    assert s'.conns == map[0 := WorkerConn(k, a, c)];
  }

  function Joined(k: Config): Tables { RegisterWorker(InitialTables(CubesOf(k)), "w", 0) }

  lemma ReachProblem(k: Config) returns (s: State)
    ensures Reachable(k, s) && Single(s, Joined(k), Conn("w", CheckingFoundSat, [], [Problem], Joining))
  {
    s := Init(k);
    var none: seq<Action> := [];
    assert IsRun(k, [s], none) && [s][|none|] == s;
    s := Next(k, s, Accept(0, "w"));
    assert s.conns == map[0 := Conn("w", Starting, [], [], Joining)];
    s := NextSingle(k, s, HandlerRegister(0), InitialTables(CubesOf(k)), Conn("w", Starting, [], [], Joining));
    s := NextSingle(k, s, HandlerSend(0), Joined(k), Conn("w", Sending(Problem), [], [], Joining));
    assert [] + [Problem] == [Problem];
  }

  /** A worker has connected, sent its registration and its first request. */
  lemma ReachRequest(k: Config) returns (s: State)
    ensures Reachable(k, s)
    ensures Single(s, Joined(k), Conn("w", CheckingFoundSat, [Register, RequestWork], [], Waiting))
  {
    s := ReachProblem(k);
    s := NextWorker(k, s, WorkerJoin(0), Joined(k), Conn("w", CheckingFoundSat, [], [Problem], Joining));
    assert [] + [Register] == [Register];
    assert [Problem][1..] == [] && [Register] + [RequestWork] == [Register, RequestWork];
    s := NextWorker(k, s, WorkerReceive(0), Joined(k), Conn("w", CheckingFoundSat, [Register], [Problem], Waiting));
    s := NextWorker(k, s, WorkerRequest(0), Joined(k), Conn("w", CheckingFoundSat, [Register], [], Requesting));
  }

  /** The handler goes once round its loop up to the read. */
  lemma ReachRead(k: Config, s: State, t: Tables, c: Conn) returns (s': State)
    requires Reachable(k, s) && Single(s, t, c) && c.pc == CheckingFoundSat && !t.foundSat && !t.allDone
    ensures Reachable(k, s') && Single(s', t, c.(pc := Reading))
  {
    s' := NextSingle(k, s, HandlerCheckFoundSat(0), t, c);
    s' := NextSingle(k, s', HandlerCheckAllDone(0), t, c.(pc := CheckingAllDone));
  }

  lemma ReachTaking(k: Config) returns (s: State)
    ensures Reachable(k, s) && Single(s, Joined(k), Conn("w", Taking, [], [Ack], Waiting))
  {
    var t := Joined(k);
    var c := Conn("w", Reading, [Register, RequestWork], [], Waiting);
    s := ReachRequest(k);
    s := ReachRead(k, s, t, c.(pc := CheckingFoundSat));
    assert [Register, RequestWork][1..] == [RequestWork] && [RequestWork][1..] == [] && [] + [Ack] == [Ack];
    s := NextSingle(k, s, HandlerRead(0), t, c);
    s := NextSingle(k, s, HandlerSend(0), t, Conn("w", Sending(Ack), [RequestWork], [], Waiting));
    s := ReachRead(k, s, t, Conn("w", CheckingFoundSat, [RequestWork], [Ack], Waiting));
    s := NextSingle(k, s, HandlerRead(0), t, Conn("w", Reading, [RequestWork], [Ack], Waiting));
  }

  function Assigned(k: Config): Tables { RecordOwner(MarkAssigned(Joined(k), 0), "w", 0) }

  lemma ReachAssigned(k: Config) returns (s: State)
    ensures Reachable(k, s)
    ensures Single(s, Assigned(k), Conn("w", Reading, [], [Ack, WorkUnit(0, CubesOf(k)[0])], Waiting))
  {
    var cube := CubesOf(k)[0];
    var t := Joined(k);
    s := ReachTaking(k);
    s := NextSingle(k, s, HandlerTake(0, Some(0)), t, Conn("w", Taking, [], [Ack], Waiting));
    t := MarkAssigned(t, 0);
    s := NextSingle(k, s, HandlerRecord(0), t, Conn("w", Recording(0, cube), [], [Ack], Waiting));
    s := NextSingle(k, s, HandlerSend(0), Assigned(k), Conn("w", Sending(WorkUnit(0, cube)), [], [Ack], Waiting));
    assert [Ack] + [WorkUnit(0, cube)] == [Ack, WorkUnit(0, cube)];
    s := ReachRead(k, s, Assigned(k), Conn("w", CheckingFoundSat, [], [Ack, WorkUnit(0, cube)], Waiting));
  }

  /** With one worker that does nothing but what run_worker does: its connection closes after it was
      sent a cube, the handler unregisters it, and the cube stays taken with nobody left to answer for
      it and no entry whose time-out could bring it back. */
  lemma ClosedConnectionLosesCube(k: Config)
    ensures exists s ::
              Reachable(k, s) && VerdictOpen(s) && s.tables.workers == map[] && OpenTaken(s, 0) && !Placed(s, 0)
  {
    var c := Conn("w", Reading, [], [Ack, WorkUnit(0, CubesOf(k)[0])], Waiting);
    var s := ReachAssigned(k);
    s := NextSingle(k, s, HandlerClosed(0), Assigned(k), c);
    s := NextSingle(k, s, HandlerUnregister(0), Assigned(k), c.(pc := Unregistering));
    assert s.tables.workers == map[];
    assert OpenTaken(s, 0);
    forall place
      ensures !At(s, place, 0)
    {
    }
  }

  lemma SweepGivesBack(k: Config, s: State, t: Tables, c: Conn) returns (s': State)
    requires Reachable(k, s) && Single(s, t, c) && Open(t, 0)
    requires "w" in t.workers && t.workers["w"].currentCube == Some(0)
    ensures Reachable(k, s') && s'.conns == s.conns && CanTake(s'.tables, 0)
  {
    s' := Next(k, s, Sweep("w"));
    assert s'.main == Requeueing(0) && s'.tables == RemoveWorker(t, "w") && s'.conns == s.conns;
    s' := Next(k, s', Requeue);
  }

  /** A handler that fails instead leaves the entry, and the sweep brings the cube back. */
  lemma FailedConnectionGivesCubeBack(k: Config)
    ensures exists s :: Reachable(k, s) && 0 in s.conns && s.conns[0].pc == Gone && CanTake(s.tables, 0)
  {
    var c := Conn("w", Reading, [], [Ack, WorkUnit(0, CubesOf(k)[0])], Waiting);
    var s := ReachAssigned(k);
    s := NextSingle(k, s, HandlerFail(0), Assigned(k), c);
    s := SweepGivesBack(k, s, Assigned(k), c.(pc := Gone));
  }
}
