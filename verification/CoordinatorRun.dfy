/** A run of the coordinator, executed on the shared tables (distributed.rs). */
module CoordinatorRun {
  import opened Cubes
  import opened Coordinator
  import opened CoordinatorProofs
  import opened CoordinatorResults
  import opened SharedTables

  /** The critical section of a handler's step, on behalf of its connection. */
  method HandlerSection(shared: Shared, c: Conn, a: Action)
    requires IsHandlerAction(a) && HandlerEnabled(a, c, shared.View())
    modifies shared
    ensures shared.View() == HandlerTables(a, c, old(shared.View()))
  {
    match a {
      case HandlerRegister(h) => shared.Register(c.wid, h);
      case HandlerClear(_) => shared.ClearCurrent(c.wid);
      case HandlerForward(_) => shared.Forward(c.pc.cubeId, c.pc.status);
      case HandlerTake(_, choice) => if choice.Some? { shared.Take(choice.value); }
      case HandlerRecord(_) => shared.Record(c.wid, c.pc.cubeId);
      case HandlerUnregister(_) => shared.Unregister(c.wid);
      case _ =>
    }
  }

  /** One step of any thread: what it does to the tables is what the class does. */
  method TablesStep(shared: Shared, ghost k: Config, s: State, a: Action, ghost s': State)
    requires Step(k, s, a, s') && shared.View() == s.tables
    modifies shared
    ensures shared.View() == s'.tables
  {
    if IsHandlerAction(a) {
      HandlerSection(shared, s.conns[a.h], a);
    } else if !IsWorkerAction(a) {
      match a {
        case Sweep(wid) => var orphan := shared.Sweep(wid);
        case Requeue => shared.Requeue(s.main.cubeId);
        case AggregatorReceive => var result := shared.Receive();
        case AggregatorApply => var sat := shared.Store(s.aggregator.cubeId, s.aggregator.status);
        case AggregatorAnnounce => shared.Announce();
        case _ =>
      }
    }
  }

  /** Any run of the step system, executed section by section on the class, ends with the tables of its
      last state; once the main thread has returned, the class gives the verdict it returned, and
      that verdict is right. */
  method ExecuteRun(ghost k: Config, names: seq<string>, numCubes: nat, states: seq<State>, actions: seq<Action>)
    returns (verdict: Status)
    requires IsRun(k, states, actions) && names == k.names && numCubes == k.numCubes
    ensures states[|actions|].main.Returned? ==> verdict == states[|actions|].main.verdict
    ensures states[|actions|].main.Returned? && verdict == Sat ==> ProblemSatisfiable(k)
    ensures states[|actions|].main.Returned? && verdict == Unsat ==> !ProblemSatisfiable(k)
  {
    var cubes := GenerateCubes(numCubes, |names|);
    var shared := new Shared(cubes);
    for i := 0 to |actions|
      invariant shared.View() == states[i].tables
    {
      assert StepAt(k, states, actions, i);
      TablesStep(shared, k, states[i], actions[i], states[i + 1]);
    }
    verdict := shared.Verdict();
    InvRun(k, states, actions, |actions|);
    if states[|actions|].main.Returned? {
      VerdictCorrect(k, states, actions, |actions|);
    }
  }
}
