/** Concrete lives in which the program does less than its documentation or its comments say.
    Each is played with the coordinator's own steps and fixed answers of the outside world. */
module Takeovers {
  import opened Common
  import opened Runs
  import opened RunTheory
  import opened RunHistory
  import opened SourceManager
  import opened Coordinators
  import opened Reaper

  function Free(name: string): NodeInfo {
    NodeInfo(name, [])
  }

  function TwoNodes(a: string, b: string, status: NodeStatus): RunState {
    RunState(3, map[a := status, b := Pending], map[a := [], b := []], [Free(a), Free(b)])
  }

  lemma TwoNodesAre(a: string, b: string, status: NodeStatus)
    requires a != b
    ensures var state := TwoNodes(a, b, status);
      && state.statuses.Keys == state.dependencies.Keys == Names(state.pipeline) == {a, b}
      && DependencySets(state.dependencies) == map[a := {}, b := {}]
  {
    var nodes := [Free(a), Free(b)];
    assert nodes[0].name == a && nodes[1].name == b;
    assert Elements<string>([]) == {};
  }

  lemma OneNodeIs(x: string)
    ensures Names([Free(x)]) == {x}
    ensures InitialStatuses([Free(x)]) == map[x := Pending]
    ensures InitialDependencies([Free(x)]) == DependencySets(map[x := []]) == map[x := {}]
  {
    assert [Free(x)][0].name == x;
    assert [Free(x)][..0] == [];
    assert Elements<string>([]) == {};
    assert InitialDependencies([Free(x)]) == map[][x := {}];
  }

  /** Starts the one node of a run; `accepted` is the answer to the save that follows. */
  method StartOnly(c: Coordinator, x: string, accepted: bool)
    requires c.Steady() && c.reported == [] && !c.cleanedUp
    requires c.run.statuses == map[x := Pending] && c.run.dependencies == map[x := {}] && x in Names(c.pipeline)
    modifies c, c.run`statuses
    ensures c.LoopHead()
    ensures c.run.statuses == map[x := Running] && c.asked == old(c.asked) + {x}
    ensures c.durable == if accepted then c.run.statuses else old(c.durable)
    ensures c.stateVersion == old(c.stateVersion) + if accepted then 1 else 0
    ensures c.rows == RecordDispatched(old(c.rows), x)
  {
    hide Coordinator.TraceValid;
    assert c.Ready() == {x};
    c.DispatchAnswered(x, true, accepted, true);
    assert x in WithStatus(c.run.statuses, Running);
  }

  /** The save after a dispatch is refused: the node runs, the store still shows it Pending, the
      version stays, and the loop waits as if nothing had happened. */
  method RefusedDispatchSave(x: string) returns (c: Coordinator)
    ensures fresh(c) && fresh(c.run)
    ensures c.LoopHead() && c.asked == {x}
    ensures c.run.statuses == map[x := Running] && c.durable == map[x := Pending] && c.stateVersion == 0
  {
    hide Coordinator.TraceValid;
    OneNodeIs(x);
    c := new Coordinator.Fresh([Free(x)], true, map[], []);
    StartOnly(c, x, false);
  }

  /** A dispatch fails, the save is refused, the row is written, and the server dies. The next
      coordinator finds the node Pending and starts it; its row says Failed, and goes on saying
      so while the node runs. */
  method FailureOutlivesItsSave(x: string) returns (first: Coordinator, second: Coordinator)
    ensures fresh(first) && fresh(first.run) && fresh(second) && fresh(second.run)
    ensures first.run.statuses == map[x := Failed] && first.durable == map[x := Pending] && first.stateVersion == 0
    ensures second.origin == first.durable && x !in second.tracked
    ensures second.LoopHead() && second.run.statuses == map[x := Running]
    ensures RebuiltStatuses(second.pipeline, second.rows) == map[x := Failed]
  {
    hide Coordinator.TraceValid;
    OneNodeIs(x);
    first := FailDispatch(x);
    second := new Coordinator.Rehydrated(
      RunState(0, map[x := Pending], map[x := []], [Free(x)]), [Free(x)], true, first.rows, []);
    StartOnly(second, x, true);
  }

  method FailDispatch(x: string) returns (c: Coordinator)
    ensures fresh(c) && fresh(c.run)
    ensures c.run.statuses == map[x := Failed] && c.durable == map[x := Pending] && c.stateVersion == 0
    ensures c.rows == map[x := Some(false)]
  {
    hide Coordinator.TraceValid;
    OneNodeIs(x);
    c := new Coordinator.Fresh([Free(x)], true, map[], []);
    assert c.Ready() == {x};
    c.DispatchAnswered(x, false, false, true);
  }

  method JudgeFirst(c: Coordinator, a: string, success: bool)
    requires c.Steady()
    modifies c, c.run`statuses
    ensures c.Steady() && c.run.statuses == Judged(old(c.run.statuses), a, success)
    ensures c.asked == old(c.asked) && c.setbacks == old(c.setbacks)
  {
    hide Coordinator.TraceValid;
    c.SaveVerdict(a, success, true);
    c.RecordNodeCompleted(a, true);
  }

  /** Takes and saves a verdict for one of two nodes, and starts the other. */
  method JudgeAndStart(c: Coordinator, a: string, success: bool, b: string)
    requires c.Steady() && a != b && {a, b} <= Names(c.pipeline)
    requires c.run.statuses == map[a := Running, b := Pending] && c.run.dependencies == map[a := {}, b := {}]
    modifies c, c.run`statuses
    ensures c.run.statuses == map[a := if success then Success else Failed, b := Running]
    ensures c.asked == old(c.asked) + {b} && c.setbacks == old(c.setbacks)
  {
    hide Coordinator.Steady;
    JudgeFirst(c, a, success);
    assert b in c.Ready();
    c.DispatchAnswered(b, true, true, true);
  }

  /** A takeover while S3 shows `a` finished and `b` started, though the store shows `b` Pending:
      folding the completion of `a` dispatches `b` again, before it could be promoted. */
  method RedispatchWhileFolding(a: string, b: string) returns (c: Coordinator)
    requires a != b
    ensures fresh(c) && fresh(c.run)
    ensures c.origin == map[a := Running, b := Pending] && c.asked == {b}
    ensures c.run.statuses == map[a := Success, b := Running] && c.setbacks == 0
    ensures var outcomes := map[a := Completed(true, None, 1), b := InProgress(1)];
      && b in StartedElsewhere(c.origin, outcomes)
      && DepsEndInSuccess(c.origin, c.run.dependencies, VerdictsIn(outcomes), b)
      && c.run.statuses == Settled(c.origin, c.run.dependencies, VerdictsIn(outcomes))
  {
    hide Coordinator.TraceValid;
    TwoNodesAre(a, b, Running);
    c := new Coordinator.Rehydrated(TwoNodes(a, b, Running), TwoNodes(a, b, Running).pipeline, false, map[], []);
    JudgeAndStart(c, a, true, b);
  }

  /** A takeover while S3 shows `a` and `b` started, though the store shows both Pending, and the
      pod of `a` is gone: failing `a` dispatches `b` again, before it is promoted in its turn. */
  method RedispatchAfterMissingPod(a: string, b: string) returns (c: Coordinator)
    requires a != b
    ensures fresh(c) && fresh(c.run)
    ensures c.origin == map[a := Pending, b := Pending] && c.asked == {b}
    ensures c.run.statuses == map[a := Failed, b := Running]
    ensures StartedElsewhere(c.origin, map[a := InProgress(1), b := InProgress(1)]) == {a, b}
  {
    hide Coordinator.TraceValid;
    TwoNodesAre(a, b, Pending);
    c := new Coordinator.Rehydrated(TwoNodes(a, b, Pending), TwoNodes(a, b, Pending).pipeline, false, map[], []);
    c.MarkPromoted(a);
    JudgeAndStart(c, a, false, b);
  }

  method Takeover(x: string, rows: NodeRuns) returns (c: Coordinator)
    requires rows == map[x := None]
    ensures fresh(c) && fresh(c.run)
    ensures c.LoopHead() && c.run.statuses == map[x := Running] && c.rows == rows
    ensures c.pipeline == [Free(x)] && c.tracked == {x}
  {
    hide Coordinator.TraceValid;
    OneNodeIs(x);
    c := new Coordinator.Rehydrated(RunState(1, map[x := Running], map[x := []], [Free(x)]), [Free(x)], true, rows, []);
    c.RehydratePhaseTimers(map[], {});
    assert x in WithStatus(c.run.statuses, Running);
    assert x in RowsBehind(rows, map[x := Running]);
  }

  /** An early exit while `x` runs; S3 shows nothing of it, so its final record says failure. */
  method ExitEarly(c: Coordinator, x: string)
    requires c.LoopHead() && c.run.statuses == map[x := Running] && c.rows == map[x := None]
    modifies c, c.run`statuses
    ensures c.cleanedUp && c.reported == [RunFailure] && c.rows == map[x := Some(false)]
  {
    hide Coordinator.TraceValid;
    c.FinalizeNode(x, false, true);
    assert WithStatus(c.run.statuses, Running) == {};
    var _ := c.StopEarly(RunFailure);
    assert forall n :: n in c.rows <==> n == x;
  }

  /** The first server starts `x`, saves, and hangs. A second one takes over, finds `x` Running and
      its row in order, and waits in its loop. The first wakes up and exits early: its final record
      turns the row into a failure while the second goes on with `x` Running. */
  method LateFinalization(x: string) returns (first: Coordinator, second: Coordinator)
    ensures fresh(first) && fresh(first.run) && fresh(second) && fresh(second.run)
    ensures second.LoopHead() && second.run.statuses == map[x := Running] && x in second.tracked
    ensures first.cleanedUp && first.reported == [RunFailure]
    ensures first.rows == RecordRun(second.rows, x, false)
    ensures RebuiltStatuses(second.pipeline, first.rows) == map[x := Failed]
  {
    hide Coordinator.TraceValid, Coordinator.Steady, Coordinator.LoopHead;
    OneNodeIs(x);
    first := new Coordinator.Fresh([Free(x)], true, map[], []);
    StartOnly(first, x, true);
    second := Takeover(x, first.rows);
    ExitEarly(first, x);
  }
}
