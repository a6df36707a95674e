/** The state the coordinator's threads share: one method per critical section. */
module SharedTables {
  import opened Prelude
  import opened Cubes
  import opened Coordinator

  class Shared {
    var cubes: map<nat, CubeState>
    var workers: map<string, WorkerEntry>
    var results: seq<(nat, Status)>
    var receiverAlive: bool
    var foundSat: bool
    var allDone: bool

    ghost function View(): Tables
      reads this
    {
      Tables(cubes, workers, results, receiverAlive, foundSat, allDone)
    }

    constructor (cubeList: seq<Cube>)
      ensures View() == InitialTables(cubeList)
    {
      workers, results, receiverAlive, foundSat, allDone := map[], [], true, false, false;
      cubes := map[];
      new;
      for i := 0 to |cubeList|
        invariant View() == InitialTables(cubeList[..i])
      {
        cubes := cubes[i := CubeState(cubeList[i], false, false, None)];
      }
      assert cubeList[..|cubeList|] == cubeList;
    }

    method Register(wid: string, stream: ConnId)
      modifies this
      ensures View() == RegisterWorker(old(View()), wid, stream)
    {
      workers := workers[wid := WorkerEntry(None, stream)];
    }

    method Unregister(wid: string)
      modifies this
      ensures View() == RemoveWorker(old(View()), wid)
    {
      workers := workers - {wid};
    }

    method ClearCurrent(wid: string)
      modifies this
      ensures View() == ClearOwner(old(View()), wid)
    {
      if wid in workers {
        workers := workers[wid := workers[wid].(currentCube := None)];
      }
    }

    method Forward(id: nat, status: Status)
      modifies this
      ensures View() == ForwardResult(old(View()), id, status)
    {
      if receiverAlive {
        results := results + [(id, status)];
      }
    }

    /** First critical section of a hand-out: any available cube, in no particular order. */
    method TakeCube() returns (choice: Option<nat>)
      modifies this
      ensures choice.None? ==> View() == old(View()) && forall id :: id in cubes ==> !CanTake(View(), id)
      ensures choice.Some? ==> CanTake(old(View()), choice.value) && View() == MarkAssigned(old(View()), choice.value)
    {
      if exists id :: id in cubes && !cubes[id].taken && !cubes[id].completed {
        var id :| id in cubes && !cubes[id].taken && !cubes[id].completed;
        Take(id);
        choice := Some(id);
      } else {
        choice := None;
      }
    }

    method Take(id: nat)
      requires CanTake(View(), id)
      modifies this
      ensures View() == MarkAssigned(old(View()), id)
    {
      cubes := cubes[id := cubes[id].(taken := true)];
    }

    /** Second critical section of a hand-out, under the other lock. */
    method Record(wid: string, id: nat)
      modifies this
      ensures View() == RecordOwner(old(View()), wid, id)
    {
      if wid in workers {
        workers := workers[wid := workers[wid].(currentCube := Some(id))];
      }
    }

    /** Remove a worker that timed out; its current cube, if any, is to be re-queued. */
    method Sweep(wid: string) returns (orphan: Option<nat>)
      requires wid in workers
      modifies this
      ensures View() == RemoveWorker(old(View()), wid) && orphan == old(workers[wid].currentCube)
    {
      orphan := workers[wid].currentCube;
      workers := workers - {wid};
    }

    method Requeue(id: nat)
      modifies this
      ensures View() == RequeueCube(old(View()), id)
    {
      if id in cubes && !cubes[id].completed {
        cubes := cubes[id := cubes[id].(taken := false)];
      }
    }

    method Receive() returns (result: (nat, Status))
      requires results != []
      modifies this
      ensures result == old(results)[0] && View() == old(View()).(results := old(results)[1..])
    {
      result := results[0];
      results := results[1..];
    }

    /** The aggregator's update of the cube table; a Sat ends the search at once. */
    method Store(id: nat, status: Status) returns (sat: bool)
      modifies this
      ensures View() == StoreResult(old(View()), id, status) && sat == (id in cubes && status == Sat)
    {
      if id in cubes {
        cubes := cubes[id := cubes[id].(completed := true, result := Some(status))];
        if status == Sat {
          foundSat := true;
          return true;
        }
      }
      return false;
    }

    /** One turn of the aggregator loop after its receive; finished says that it left the loop. */
    method Aggregate(id: nat, status: Status) returns (finished: bool)
      modifies this
      ensures var t := StoreResult(old(View()), id, status);
              && finished == ((id in t.cubes && status == Sat) || AllCompleted(t))
              && View() == if finished then t.(allDone := true) else t
    {
      finished := Store(id, status);
      if !finished && forall other :: other in cubes ==> cubes[other].completed {
        finished := true;
      }
      if finished {
        allDone := true;
      }
    }

    /** The aggregator leaves, and the receiving end of the channel with it. */
    method Announce()
      modifies this
      ensures View() == old(View()).(allDone := true, receiverAlive := false)
    {
      allDone := true;
      receiverAlive := false;
    }

    method Verdict() returns (status: Status)
      ensures status == if foundSat then Sat else if AllUnsat(View()) then Unsat else Unknown
    {
      if foundSat {
        return Sat;
      }
      if forall id :: id in cubes ==> cubes[id].result == Some(Unsat) {
        return Unsat;
      }
      return Unknown;
    }
  }

  // ================================================================ the worker's side

  /** A named Boolean constant with the value it is forced to. */
  datatype Assumption = Assumption(name: string, value: bool)

  ghost predicate AssumptionsHold(assumed: seq<Assumption>, v: Valuation) {
    forall i :: 0 <= i < |assumed| ==> ((assumed[i].name in v) == assumed[i].value)
  }

  /** A solver loaded with the script: what it says about the script plus assumptions is right. */
  ghost predicate SoundSolver(k: Config, solver: seq<Assumption> -> Status) {
    forall assumed :: SoundAnswer(k, assumed, solver(assumed))
  }

  ghost predicate SoundAnswer(k: Config, assumed: seq<Assumption>, status: Status) {
    && (status == Sat ==> exists v :: v in k.problem && AssumptionsHold(assumed, v))
    && (status == Unsat ==> !exists v :: v in k.problem && AssumptionsHold(assumed, v))
  }

  function AssumptionOf(l: Literal, names: seq<string>): Assumption
    requires l.index < |names|
  {
    Assumption(names[l.index], !l.negated)
  }

  predicate InRange(cube: Cube, names: seq<string>) {
    forall i :: 0 <= i < |cube| ==> cube[i].index < |names|
  }

  /** solve_cube: script errors and out-of-range literals give an honest Unknown; otherwise the
      answer is the solver's on exactly the cube, and it is truthful for that cube. */
  method SolveCube(ghost k: Config, solver: seq<Assumption> -> Status, scriptOk: bool, names: seq<string>, cube: Cube)
    returns (status: Status)
    requires names == k.names && SoundSolver(k, solver)
    ensures Truthful(k, cube, status)
    ensures !scriptOk || !InRange(cube, names) ==> status == Unknown
    ensures scriptOk && InRange(cube, names) ==>
              status == solver(seq(|cube|, i requires 0 <= i < |cube| => AssumptionOf(cube[i], names)))
  {
    if !scriptOk {
      return Unknown;
    }
    var assumed := [];
    for i := 0 to |cube|
      invariant |assumed| == i
      invariant forall j :: 0 <= j < i ==> cube[j].index < |names| && assumed[j] == AssumptionOf(cube[j], names)
    {
      if cube[i].index >= |names| {
        return Unknown;
      }
      assumed := assumed + [Assumption(names[cube[i].index], !cube[i].negated)];
    }
    status := solver(assumed);
    assert assumed == seq(|cube|, i requires 0 <= i < |cube| => AssumptionOf(cube[i], names));
    AssumptionsAreTheCube(k, cube, assumed);
    assert SoundAnswer(k, assumed, status);
  }

  lemma AssumptionsAreTheCube(k: Config, cube: Cube, assumed: seq<Assumption>)
    requires |assumed| == |cube| && InRange(cube, k.names)
    requires forall j :: 0 <= j < |cube| ==> assumed[j] == AssumptionOf(cube[j], k.names)
    ensures forall v :: AssumptionsHold(assumed, v) <==> CubeHolds(cube, k.names, v)
  {
    forall v
      ensures AssumptionsHold(assumed, v) <==> CubeHolds(cube, k.names, v)
    {
      assert forall j :: 0 <= j < |cube| ==>
        (LiteralHolds(cube[j], k.names, v) <==> (assumed[j].name in v) == assumed[j].value);
    }
  }
}
