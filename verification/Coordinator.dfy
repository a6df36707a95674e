/** The cube-and-conquer coordinator (distributed.rs) as a step system. Every critical
    section, every atomic load or store and every message transfer is a step of its own, so a
    run is any interleaving of the accept loop, the timeout sweep, the aggregator, one handler
    per connection and the workers behind them. */
module Coordinator {
  import opened Prelude
  import opened Cubes

  datatype Status = Sat | Unsat | Unknown

  /** taken is the flag the source calls assigned (a reserved word here). */
  datatype CubeState = CubeState(assumptions: Cube, taken: bool, completed: bool, result: Option<Status>)

  type ConnId = nat

  datatype WorkerEntry = WorkerEntry(currentCube: Option<nat>, stream: ConnId)

  /** What the threads share: the two locked tables, the result channel and the two flags. */
  datatype Tables = Tables(
    cubes: map<nat, CubeState>,
    workers: map<string, WorkerEntry>,
    results: seq<(nat, Status)>,
    receiverAlive: bool,
    foundSat: bool,
    allDone: bool)

  // ------------------------------------------------ critical sections on the tables

  function RegisterWorker(t: Tables, wid: string, stream: ConnId): Tables {
    t.(workers := t.workers[wid := WorkerEntry(None, stream)])
  }

  function ClearOwner(t: Tables, wid: string): Tables {
    if wid in t.workers then t.(workers := t.workers[wid := t.workers[wid].(currentCube := None)]) else t
  }

  predicate CanTake(t: Tables, id: nat) {
    id in t.cubes && !t.cubes[id].taken && !t.cubes[id].completed
  }

  function MarkAssigned(t: Tables, id: nat): Tables
    requires id in t.cubes
  {
    t.(cubes := t.cubes[id := t.cubes[id].(taken := true)])
  }

  function RecordOwner(t: Tables, wid: string, id: nat): Tables {
    if wid in t.workers then t.(workers := t.workers[wid := t.workers[wid].(currentCube := Some(id))]) else t
  }

  function ForwardResult(t: Tables, id: nat, status: Status): Tables {
    if t.receiverAlive then t.(results := t.results + [(id, status)]) else t
  }

  function RemoveWorker(t: Tables, wid: string): Tables {
    t.(workers := t.workers - {wid})
  }

  predicate WillRequeue(t: Tables, id: nat) {
    id in t.cubes && !t.cubes[id].completed
  }

  function RequeueCube(t: Tables, id: nat): Tables {
    if WillRequeue(t, id) then t.(cubes := t.cubes[id := t.cubes[id].(taken := false)]) else t
  }

  /** The aggregator's update; the caller turns foundSat into allDone afterwards. */
  function StoreResult(t: Tables, id: nat, status: Status): Tables {
    if id !in t.cubes then t
    else
      t.(cubes := t.cubes[id := t.cubes[id].(completed := true, result := Some(status))],
         foundSat := t.foundSat || status == Sat)
  }

  predicate AllCompleted(t: Tables) {
    forall id :: id in t.cubes ==> t.cubes[id].completed
  }

  predicate AllUnsat(t: Tables) {
    forall id :: id in t.cubes ==> t.cubes[id].result == Some(Unsat)
  }

  // ------------------------------------------------ threads and messages

  datatype ToCoordinator = Register | Heartbeat | RequestWork | Answer(cubeId: nat, status: Status) | Unexpected

  datatype ToWorker = Problem | WorkUnit(cubeId: nat, assumptions: Cube) | NoMoreWork | Shutdown | Ack

  datatype HandlerPc =
    | Starting
    | CheckingFoundSat
    | CheckingAllDone
    | Reading
    | Clearing(cubeId: nat, status: Status)
    | Forwarding(cubeId: nat, status: Status)
    | Taking
    | Recording(cubeId: nat, assumptions: Cube)
    | Sending(message: ToWorker)
    | Unregistering
    | Gone

  datatype WorkerPc =
    | Joining
    | Waiting
    | Requesting
    | Solving(cubeId: nat, assumptions: Cube)
    | Stopped

  datatype Conn = Conn(
    wid: string,
    pc: HandlerPc,
    inbox: seq<ToCoordinator>,
    outbox: seq<ToWorker>,
    worker: WorkerPc)

  datatype AggregatorPc = Receiving | Applying(cubeId: nat, status: Status) | Announcing | Exited

  datatype MainPc = Accepting | Requeueing(cubeId: nat) | Leaving | ReadingFlag | ReadingTables
    | Returned(verdict: Status)

  /** handouts and requeues are history: how often a cube was handed out and re-queued. */
  datatype State = State(
    tables: Tables,
    conns: map<ConnId, Conn>,
    aggregator: AggregatorPc,
    main: MainPc,
    handouts: map<nat, nat>,
    requeues: map<nat, nat>)

  // ------------------------------------------------ the problem being solved

  /** problem holds the valuations of the Boolean variables that extend to a model. */
  datatype Config = Config(names: seq<string>, numCubes: nat, problem: iset<Valuation>)

  function CubesOf(k: Config): (cubes: seq<Cube>)
    ensures |cubes| >= 1
  {
    CubeList(k.numCubes, |k.names|)
  }

  ghost predicate CubeSatisfiable(k: Config, cube: Cube) {
    exists v :: v in k.problem && CubeHolds(cube, k.names, v)
  }

  ghost predicate Truthful(k: Config, cube: Cube, status: Status) {
    && (status == Sat ==> CubeSatisfiable(k, cube))
    && (status == Unsat ==> !CubeSatisfiable(k, cube))
  }

  /** An answer for an id the coordinator never issued is unconstrained: it is ignored. */
  ghost predicate TruthfulFor(k: Config, id: nat, status: Status) {
    id < |CubesOf(k)| ==> Truthful(k, CubesOf(k)[id], status)
  }

  // ------------------------------------------------ steps

  datatype Action =
    | Accept(h: ConnId, wid: string)
    // handler
    | HandlerRegister(h: ConnId)
    | HandlerCheckFoundSat(h: ConnId)
    | HandlerCheckAllDone(h: ConnId)
    | HandlerRead(h: ConnId)
    | HandlerReadTimeout(h: ConnId)
    | HandlerClear(h: ConnId)
    | HandlerForward(h: ConnId)
    | HandlerTake(h: ConnId, choice: Option<nat>)
    | HandlerRecord(h: ConnId)
    | HandlerSend(h: ConnId)
    | HandlerUnregister(h: ConnId)
    | HandlerClosed(h: ConnId)
    | HandlerFail(h: ConnId)
    // worker
    | WorkerJoin(h: ConnId)
    | WorkerReceive(h: ConnId)
    | WorkerAnswer(h: ConnId, status: Status)
    | WorkerRequest(h: ConnId)
    | WorkerHeartbeat(h: ConnId)
    | RogueMessage(h: ConnId, message: ToCoordinator)
    // coordinator
    | Sweep(wid: string)
    | Requeue
    | Leave
    | BroadcastShutdown
    | ReadFlag
    | ReadTables
    // aggregator
    | AggregatorReceive
    | AggregatorApply
    | AggregatorAnnounce

  predicate IsHandlerAction(a: Action) {
    a.HandlerRegister? || a.HandlerCheckFoundSat? || a.HandlerCheckAllDone? || a.HandlerRead? ||
    a.HandlerReadTimeout? || a.HandlerClear? || a.HandlerForward? || a.HandlerTake? || a.HandlerRecord? ||
    a.HandlerSend? || a.HandlerUnregister? || a.HandlerClosed? || a.HandlerFail?
  }

  predicate IsWorkerAction(a: Action) {
    a.WorkerJoin? || a.WorkerReceive? || a.WorkerAnswer? || a.WorkerRequest? || a.WorkerHeartbeat? || a.RogueMessage?
  }

  predicate HandlerEnabled(a: Action, c: Conn, t: Tables)
    requires IsHandlerAction(a)
  {
    match a
    case HandlerRegister(_) => c.pc == Starting
    case HandlerCheckFoundSat(_) => c.pc == CheckingFoundSat
    case HandlerCheckAllDone(_) => c.pc == CheckingAllDone
    case HandlerRead(_) => c.pc == Reading && c.inbox != []
    case HandlerReadTimeout(_) => c.pc == Reading
    case HandlerClear(_) => c.pc.Clearing?
    case HandlerForward(_) => c.pc.Forwarding?
    case HandlerTake(_, choice) =>
      && c.pc == Taking
      && (match choice case Some(id) => CanTake(t, id) case None => forall id :: id in t.cubes ==> !CanTake(t, id))
    case HandlerRecord(_) => c.pc.Recording?
    case HandlerSend(_) => c.pc.Sending?
    case HandlerUnregister(_) => c.pc == Unregistering
    case HandlerClosed(_) => c.pc == Reading
    case HandlerFail(_) => c.pc == Reading || c.pc.Sending? || c.pc == Starting
  }

  function Dispatch(m: ToCoordinator): HandlerPc {
    match m
    case Answer(id, status) => Clearing(id, status)
    case RequestWork => Taking
    case Register => Sending(Ack)
    case Heartbeat => CheckingFoundSat
    case Unexpected => CheckingFoundSat
  }

  function HandlerConn(a: Action, c: Conn, t: Tables): Conn
    requires IsHandlerAction(a) && HandlerEnabled(a, c, t)
  {
    match a
    case HandlerRegister(_) => c.(pc := Sending(Problem))
    case HandlerCheckFoundSat(_) => c.(pc := if t.foundSat then Sending(Shutdown) else CheckingAllDone)
    case HandlerCheckAllDone(_) => c.(pc := if t.allDone then Sending(Shutdown) else Reading)
    case HandlerRead(_) => c.(pc := Dispatch(c.inbox[0]), inbox := c.inbox[1..])
    case HandlerReadTimeout(_) => c.(pc := CheckingFoundSat)
    case HandlerClear(_) => c.(pc := Forwarding(c.pc.cubeId, c.pc.status))
    case HandlerForward(_) => c.(pc := CheckingFoundSat)
    case HandlerTake(_, choice) =>
      (match choice
       case Some(id) => c.(pc := Recording(id, t.cubes[id].assumptions))
       case None => c.(pc := Sending(NoMoreWork)))
    case HandlerRecord(_) => c.(pc := Sending(WorkUnit(c.pc.cubeId, c.pc.assumptions)))
    case HandlerSend(_) =>
      c.(outbox := c.outbox + [c.pc.message],
         pc := if c.pc.message == Shutdown then Unregistering else CheckingFoundSat)
    case HandlerUnregister(_) => c.(pc := Gone)
    case HandlerClosed(_) => c.(pc := Unregistering)
    case HandlerFail(_) => c.(pc := Gone)
  }

  function HandlerTables(a: Action, c: Conn, t: Tables): Tables
    requires IsHandlerAction(a) && HandlerEnabled(a, c, t)
  {
    match a
    case HandlerRegister(h) => RegisterWorker(t, c.wid, h)
    case HandlerClear(_) => ClearOwner(t, c.wid)
    case HandlerForward(_) => ForwardResult(t, c.pc.cubeId, c.pc.status)
    case HandlerTake(_, choice) => if choice.Some? then MarkAssigned(t, choice.value) else t
    case HandlerRecord(_) => RecordOwner(t, c.wid, c.pc.cubeId)
    case HandlerUnregister(_) => RemoveWorker(t, c.wid)
    case _ => t
  }

  /** All but RogueMessage are the moves of run_worker. A rogue peer may send anything at any
      time, as long as what it says about a cube is true. */
  ghost predicate WorkerEnabled(k: Config, a: Action, c: Conn)
    requires IsWorkerAction(a)
  {
    match a
    case WorkerJoin(_) => c.worker == Joining
    case WorkerReceive(_) => c.worker == Waiting && c.outbox != []
    case WorkerAnswer(_, status) => c.worker.Solving? && Truthful(k, c.worker.assumptions, status)
    case WorkerRequest(_) => c.worker == Requesting
    case WorkerHeartbeat(_) => c.worker != Stopped
    case RogueMessage(_, m) => m.Answer? ==> TruthfulFor(k, m.cubeId, m.status)
  }

  function React(m: ToWorker): WorkerPc {
    match m
    case Problem => Requesting
    case WorkUnit(id, assumptions) => Solving(id, assumptions)
    case NoMoreWork => Requesting
    case Shutdown => Stopped
    case Ack => Waiting
  }

  ghost function WorkerConn(k: Config, a: Action, c: Conn): Conn
    requires IsWorkerAction(a) && WorkerEnabled(k, a, c)
  {
    match a
    case WorkerJoin(_) => c.(inbox := c.inbox + [Register], worker := Waiting)
    case WorkerReceive(_) => c.(outbox := c.outbox[1..], worker := React(c.outbox[0]))
    case WorkerAnswer(_, status) => c.(inbox := c.inbox + [Answer(c.worker.cubeId, status)], worker := Requesting)
    case WorkerRequest(_) => c.(inbox := c.inbox + [RequestWork], worker := Waiting)
    case WorkerHeartbeat(_) => c.(inbox := c.inbox + [Heartbeat])
    case RogueMessage(_, m) => c.(inbox := c.inbox + [m])
  }

  ghost predicate Enabled(k: Config, s: State, a: Action) {
    if IsHandlerAction(a) then a.h in s.conns && HandlerEnabled(a, s.conns[a.h], s.tables)
    else if IsWorkerAction(a) then a.h in s.conns && WorkerEnabled(k, a, s.conns[a.h])
    else
      match a
      case Accept(h, _) => s.main == Accepting && h !in s.conns
      case Sweep(wid) => s.main == Accepting && wid in s.tables.workers
      case Requeue => s.main.Requeueing?
      case Leave => s.main == Accepting && s.tables.allDone
      case BroadcastShutdown => s.main == Leaving
      case ReadFlag => s.main == ReadingFlag
      case ReadTables => s.main == ReadingTables
      case AggregatorReceive => s.aggregator == Receiving && s.tables.results != []
      case AggregatorApply => s.aggregator.Applying?
      case AggregatorAnnounce => s.aggregator == Announcing
      case _ => false
  }

  function Bump(m: map<nat, nat>, id: nat): map<nat, nat> {
    m[id := (if id in m then m[id] else 0) + 1]
  }

  ghost function Perform(k: Config, s: State, a: Action): State
    requires Enabled(k, s, a)
  {
    if IsHandlerAction(a) then
      s.(conns := s.conns[a.h := HandlerConn(a, s.conns[a.h], s.tables)],
         tables := HandlerTables(a, s.conns[a.h], s.tables),
         handouts := if a.HandlerTake? && a.choice.Some? then Bump(s.handouts, a.choice.value) else s.handouts)
    else if IsWorkerAction(a) then
      s.(conns := s.conns[a.h := WorkerConn(k, a, s.conns[a.h])])
    else
      match a
      case Accept(h, wid) => s.(conns := s.conns[h := Conn(wid, Starting, [], [], Joining)])
      case Sweep(wid) =>
        s.(tables := RemoveWorker(s.tables, wid),
           main := match s.tables.workers[wid].currentCube case Some(id) => Requeueing(id) case None => Accepting)
      case Requeue =>
        s.(tables := RequeueCube(s.tables, s.main.cubeId),
           requeues := if WillRequeue(s.tables, s.main.cubeId) then Bump(s.requeues, s.main.cubeId) else s.requeues,
           main := Accepting)
      case Leave => s.(main := Leaving)
      case BroadcastShutdown => s.(conns := NotifyAll(s), main := ReadingFlag)
      case ReadFlag => s.(main := if s.tables.foundSat then Returned(Sat) else ReadingTables)
      case ReadTables => s.(main := Returned(if AllUnsat(s.tables) then Unsat else Unknown))
      case AggregatorReceive =>
        s.(aggregator := Applying(s.tables.results[0].0, s.tables.results[0].1),
           tables := s.tables.(results := s.tables.results[1..]))
      case AggregatorApply =>
        var t := StoreResult(s.tables, s.aggregator.cubeId, s.aggregator.status);
        s.(tables := t, aggregator := if t.foundSat || AllCompleted(t) then Announcing else Receiving)
      case AggregatorAnnounce =>
        s.(tables := s.tables.(allDone := true, receiverAlive := false), aggregator := Exited)
      case _ => s
  }

  /** The shutdown message goes to the stream of every worker still registered. */
  ghost function NotifyAll(s: State): map<ConnId, Conn> {
    map h | h in s.conns ::
      if exists w :: w in s.tables.workers && s.tables.workers[w].stream == h
      then s.conns[h].(outbox := s.conns[h].outbox + [Shutdown]) else s.conns[h]
  }

  ghost predicate Step(k: Config, s: State, a: Action, s': State) {
    Enabled(k, s, a) && s' == Perform(k, s, a)
  }

  function InitialTables(cubes: seq<Cube>): Tables {
    Tables(map id | 0 <= id < |cubes| :: CubeState(cubes[id], false, false, None), map[], [], true, false, false)
  }

  function Init(k: Config): State {
    State(InitialTables(CubesOf(k)), map[], Receiving, Accepting, map[], map[])
  }

  ghost predicate StepAt(k: Config, states: seq<State>, actions: seq<Action>, i: nat)
    requires i < |actions| && |states| == |actions| + 1
  {
    Step(k, states[i], actions[i], states[i + 1])
  }

  ghost predicate IsRun(k: Config, states: seq<State>, actions: seq<Action>) {
    && |states| == |actions| + 1
    && states[0] == Init(k)
    && forall i :: 0 <= i < |actions| ==> StepAt(k, states, actions, i)
  }
}
