/** The reaper's Postgres-driven pass: a run whose stored state is gone is either finalized
    straight from its node rows or rebuilt from them and taken over. */
module Reaper {
  import opened Common
  import opened Runs
  import opened RunTheory
  import opened RunHistory
  import opened SourceManager
  import opened Coordinators
  import P = Protocol

  datatype Decision = Finalize(status: RunStatus) | Resume(state: RunState)

  predicate AllKnown(nodes: seq<NodeInfo>, rows: NodeRuns) {
    forall n :: n in Names(nodes) ==> n in rows && rows[n].Some?
  }

  function RebuiltStatuses(nodes: seq<NodeInfo>, rows: NodeRuns): Statuses {
    map n | n in Names(nodes) :: StatusFromRow(rows, n)
  }

  /** A row whose verdict is missing takes it from the node's status file, where the file shows both
      the verdict and the finish time and the write to the table goes through. */
  method ReadStatusFiles(
      nodes: seq<NodeInfo>, rows: NodeRuns, outcomes: map<string, NodeOutcome>, writable: set<string>)
    returns (byName: NodeRuns)
    ensures byName.Keys == rows.Keys
    ensures forall n :: n in rows && rows[n].Some? ==> byName[n] == rows[n]
    ensures forall n :: n in rows && rows[n].None? ==>
      byName[n] ==
        if n in Names(nodes) && n in writable && n in outcomes && outcomes[n].finishedAt.Some? then outcomes[n].success
        else None
  {
    byName := rows;
    var i := 0;
    while i < |nodes|
      invariant i <= |nodes|
      invariant byName.Keys == rows.Keys
      invariant forall n :: n in rows && rows[n].Some? ==> byName[n] == rows[n]
      invariant forall n :: n in rows && rows[n].None? ==>
        byName[n] ==
          if n in Names(nodes[..i]) && n in writable && n in outcomes && outcomes[n].finishedAt.Some?
          then outcomes[n].success
          else None
    {
      var node := nodes[i].name;
      NamesGrow(nodes, i);
      i := i + 1;
      if node !in byName || byName[node].Some? {
        continue;
      }
      if node !in outcomes {
        continue;
      }
      var outcome := outcomes[node];
      if outcome.success.None? || outcome.finishedAt.None? {
        continue;
      }
      if node !in writable {
        continue;
      }
      byName := byName[node := outcome.success];
    }
    assert nodes[..|nodes|] == nodes;
  }

  lemma NamesGrow(nodes: seq<NodeInfo>, i: nat)
    requires i < |nodes|
    ensures Names(nodes[..i + 1]) == Names(nodes[..i]) + {nodes[i].name}
  {
  }

  lemma RebuiltGrows(nodes: seq<NodeInfo>, rows: NodeRuns, dependencies: map<string, seq<string>>, i: nat)
    requires i < |nodes|
    ensures var node := nodes[i];
      && RebuiltStatuses(nodes[..i + 1], rows)
         == RebuiltStatuses(nodes[..i], rows)[node.name := StatusFromRow(rows, node.name)]
      && InitialDependencies(nodes[..i + 1])
         == InitialDependencies(nodes[..i])[node.name := Elements(node.dependencies)]
      && DependencySets(dependencies[node.name := node.dependencies])
         == DependencySets(dependencies)[node.name := Elements(node.dependencies)]
  {
    NamesGrow(nodes, i);
    assert nodes[..i + 1][..i] == nodes[..i];
  }

  method ReconstructRunState(nodes: seq<NodeInfo>, rows: NodeRuns) returns (state: RunState)
    ensures state.version == 0 && state.pipeline == nodes
    ensures state.statuses == RebuiltStatuses(nodes, rows) && state.statuses.Keys == Names(nodes)
    ensures forall n :: n in Names(nodes) ==>
      && (state.statuses[n] == Pending <==> n !in rows)
      && (state.statuses[n] == Running <==> n in rows && rows[n] == None)
      && (state.statuses[n] == Success <==> n in rows && rows[n] == Some(true))
      && (state.statuses[n] == Failed <==> n in rows && rows[n] == Some(false))
    ensures DependencySets(state.dependencies) == InitialDependencies(nodes)
  {
    var statuses: Statuses := map[];
    var dependencies: map<string, seq<string>> := map[];
    var i := 0;
    while i < |nodes|
      invariant i <= |nodes|
      invariant statuses == RebuiltStatuses(nodes[..i], rows)
      invariant DependencySets(dependencies) == InitialDependencies(nodes[..i])
    {
      var node := nodes[i];
      RebuiltGrows(nodes, rows, dependencies, i);
      statuses := statuses[node.name := StatusFromRow(rows, node.name)];
      dependencies := dependencies[node.name := node.dependencies];
      i := i + 1;
    }
    assert nodes[..|nodes|] == nodes;
    state := RunState(0, statuses, dependencies, nodes);
  }

  /** The pass over one run: a verdict when every node's is known, otherwise a state to resume. */
  method Reconcile(nodes: seq<NodeInfo>, rows: NodeRuns, outcomes: map<string, NodeOutcome>, writable: set<string>)
    returns (decision: Decision)
    ensures decision.Finalize? <==>
      forall n :: n in Names(nodes) ==>
        && n in rows
        && (rows[n].None? ==>
              n in writable && n in outcomes && outcomes[n].success.Some? && outcomes[n].finishedAt.Some?)
    ensures decision.Finalize? ==> decision.status == RunSuccess || decision.status == RunFailure
    ensures decision == Finalize(RunSuccess) <==>
      forall n :: n in Names(nodes) ==>
        && n in rows
        && (rows[n].None? ==>
              n in writable && n in outcomes && outcomes[n].success == Some(true) && outcomes[n].finishedAt.Some?)
        && (rows[n].Some? ==> rows[n].value)
    ensures decision.Resume? ==>
      && decision.state.version == 0 && decision.state.pipeline == nodes
      && DependencySets(decision.state.dependencies) == InitialDependencies(nodes)
      && decision.state.statuses.Keys == decision.state.dependencies.Keys == Names(nodes)
      && forall n :: n in Names(nodes) ==>
           var status := decision.state.statuses[n];
           if n !in rows then status == Pending
           else if rows[n].Some? then status == if rows[n].value then Success else Failed
           else if
             n in writable && n in outcomes && outcomes[n].success.Some? && outcomes[n].finishedAt.Some?
           then status == if outcomes[n].success.value then Success else Failed
           else status == Running
  {
    var byName := ReadStatusFiles(nodes, rows, outcomes, writable);
    if forall n | n in Names(nodes) :: n in byName && byName[n].Some? {
      var allSuccess := forall n | n in Names(nodes) :: n in byName && byName[n] == Some(true);
      DirectVerdictAgrees(nodes, byName);
      return Finalize(if allSuccess then RunSuccess else RunFailure);
    }
    var state := ReconstructRunState(nodes, byName);
    InitialKeysAgree(nodes);
    assert state.dependencies.Keys == DependencySets(state.dependencies).Keys;
    return Resume(state);
  }

  /** When every verdict is known, reading it off the rows, off the rebuilt state, or letting a
      coordinator finish the rebuilt state all give the same answer, and both tests of "done" hold. */
  lemma DirectVerdictAgrees(nodes: seq<NodeInfo>, rows: NodeRuns)
    requires AllKnown(nodes, rows)
    ensures var statuses := RebuiltStatuses(nodes, rows);
      && (OutcomeStatus(statuses) == RunSuccess <==> forall n :: n in Names(nodes) ==> rows[n] == Some(true))
      && IsComplete(statuses, InitialDependencies(nodes))
      && forall state: RunState ::
          state.statuses == statuses && DependencySets(state.dependencies) == InitialDependencies(nodes)
          ==> RunStateIsTerminal(state)
  {
    var statuses := RebuiltStatuses(nodes, rows);
    assert forall n :: n in statuses ==> rows[n].Some? && statuses[n].Terminal();
    forall state: RunState |
      state.statuses == statuses && DependencySets(state.dependencies) == InitialDependencies(nodes)
      ensures RunStateIsTerminal(state)
    {
      DoneEncodings(state);
    }
  }

  /** While a coordinator waits in its loop, and as long as no other coordinator has written the
      table since this one began, losing the stored state loses nothing of the nodes whose row was
      not ahead of the statuses it began with: rebuilt from the rows, each is at or below its true
      status and shows no wrong verdict. For a run begun afresh whose writes all arrived the rebuilt
      state is exactly the run, with nothing in it ready to be started again. What other writers
      can do is the matter of `SharedTable`. */
  lemma RecoveryMirror(c: Coordinator)
    requires c.LoopHead()
    requires c.origin.Keys == Names(c.pipeline) && c.run.dependencies == InitialDependencies(c.pipeline)
    ensures var rebuilt := RebuiltStatuses(c.pipeline, c.rows);
      && rebuilt.Keys == c.run.statuses.Keys
      && (forall n :: n in rebuilt && n in c.tracked ==>
            && rebuilt[n].AtMost(c.run.statuses[n])
            && (rebuilt[n].Terminal() ==> rebuilt[n] == c.run.statuses[n]))
      && (forall n :: n in rebuilt && n in c.tracked && c.Exact() ==> rebuilt[n] == c.run.statuses[n])
      && (c.tracked >= Names(c.pipeline) && c.Exact() ==>
            rebuilt == c.run.statuses && ReadyNodes(rebuilt, InitialDependencies(c.pipeline)) == {})
  {
    var rebuilt := RebuiltStatuses(c.pipeline, c.rows);
    P.MemoryMovesUp(c.origin, c.trace, 0);
    forall n | n in rebuilt && n in c.tracked
      ensures rebuilt[n].AtMost(c.run.statuses[n])
      ensures c.Exact() ==> rebuilt[n] == c.run.statuses[n]
    {
      assert Follows(StatusFromRow(c.rows, n), c.run.statuses[n], c.Exact() && n !in {});
    }
  }

  /** At a takeover the table mirrors the loaded state exactly when no row is ahead of it. */
  lemma MirroredAtTakeover(nodes: seq<NodeInfo>, rows: NodeRuns, loaded: Statuses)
    requires loaded.Keys == Names(nodes)
    ensures Below(RebuiltStatuses(nodes, rows), loaded) <==> RowsBehind(rows, loaded) == loaded.Keys
  {
    if Below(RebuiltStatuses(nodes, rows), loaded) {
      assert forall n :: n in loaded ==> n in RowsBehind(rows, loaded);
    } else {
      var n :| n in loaded && !StatusFromRow(rows, n).AtMost(loaded[n]);
      assert n !in RowsBehind(rows, loaded);
    }
  }

  /** A fresh run lives through any events with the table to itself, then its server and its
      stored state are lost and the reaper rebuilds it from the table alone. */
  method RunThenRebuild(nodes: seq<NodeInfo>, rows: NodeRuns, failFast: bool, subscribed: bool, events: seq<Event>)
    returns (c: Coordinator, rebuilt: Option<RunState>)
    ensures fresh(c) && fresh(c.run)
    ensures rebuilt.Some? ==>
      && c.LoopHead()
      && rebuilt.value.pipeline == nodes && rebuilt.value.version == 0
      && DependencySets(rebuilt.value.dependencies) == c.run.dependencies
      && rebuilt.value.statuses.Keys == c.run.statuses.Keys == Names(nodes)
      && (forall n :: n in Names(nodes) && n !in rows ==>
            && rebuilt.value.statuses[n].AtMost(c.run.statuses[n])
            && (!c.lostRows ==> rebuilt.value.statuses[n] == c.run.statuses[n]))
    ensures rebuilt.None? ==> exists summary :: c.Ended(summary)
  {
    InitialKeysAgree(nodes);
    c := new Coordinator.Fresh(nodes, failFast, rows, []);
    var summary := c.Run(map[], subscribed, events);
    if summary.Some? {
      return c, None;
    }
    RecoveryMirror(c);
    var state := ReconstructRunState(nodes, c.rows);
    rebuilt := Some(state);
  }
}
