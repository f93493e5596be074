/** `PipelineRun`: the in-memory state machine of one pipeline run, a dependency graph of
    nodes that are Pending, Running, Success or Failed. */
module Runs {
  import opened Common

  datatype NodeStatus = Pending | Running | Success | Failed {
    predicate Terminal() {
      Success? || Failed?
    }

    /** The order in which a node may move: Pending, then Running, then one verdict. */
    predicate AtMost(later: NodeStatus) {
      this == later || this.Pending? || (this.Running? && later.Terminal())
    }
  }

  datatype NodeInfo = NodeInfo(name: string, dependencies: seq<string>)

  datatype RunStatus = RunSuccess | RunFailure | RunCancelled

  type Statuses = map<string, NodeStatus>

  type Dependencies = map<string, set<string>>

  /** The stored form of a run; `pipeline` stands for the pipeline definition it carries. */
  datatype RunState = RunState(
    version: nat,
    statuses: Statuses,
    dependencies: map<string, seq<string>>,
    pipeline: seq<NodeInfo>)

  function Names(nodes: seq<NodeInfo>): set<string> {
    set i | 0 <= i < |nodes| :: nodes[i].name
  }

  predicate Has(statuses: Statuses, node: string, status: NodeStatus) {
    node in statuses && statuses[node] == status
  }

  /** Pointwise progress between two snapshots of the same nodes. */
  ghost predicate Below(earlier: Statuses, later: Statuses) {
    && earlier.Keys == later.Keys
    && forall n :: n in earlier ==> earlier[n].AtMost(later[n])
  }

  predicate DepsSatisfied(statuses: Statuses, dependencies: Dependencies, node: string) {
    node in dependencies ==> forall d :: d in dependencies[node] ==> Has(statuses, d, Success)
  }

  function ReadyNodes(statuses: Statuses, dependencies: Dependencies): set<string> {
    set n | n in statuses && statuses[n] == Pending && DepsSatisfied(statuses, dependencies, n)
  }

  function WithStatus(statuses: Statuses, status: NodeStatus): set<string> {
    set n | n in statuses && statuses[n] == status
  }

  predicate IsComplete(statuses: Statuses, dependencies: Dependencies) {
    && WithStatus(statuses, Running) == {}
    && ReadyNodes(statuses, dependencies) == {}
  }

  predicate AllSuccess(statuses: Statuses) {
    forall n :: n in statuses ==> statuses[n] == Success
  }

  function OutcomeStatus(statuses: Statuses): RunStatus {
    if AllSuccess(statuses) then RunSuccess else RunFailure
  }

  function Promoted(statuses: Statuses, node: string): Statuses {
    if Has(statuses, node, Pending) then statuses[node := Running] else statuses
  }

  /** A verdict is taken from Running or straight from Pending; a node that already has one keeps it. */
  function Judged(statuses: Statuses, node: string, success: bool): Statuses {
    if node in statuses && !statuses[node].Terminal()
    then statuses[node := if success then Success else Failed]
    else statuses
  }

  function InitialStatuses(nodes: seq<NodeInfo>): Statuses {
    map n | n in Names(nodes) :: Pending
  }

  function InitialDependencies(nodes: seq<NodeInfo>): Dependencies {
    if nodes == [] then map[]
    else
      var last := nodes[|nodes| - 1];
      InitialDependencies(nodes[..|nodes| - 1])[last.name := Elements(last.dependencies)]
  }

  function DependencySets(dependencies: map<string, seq<string>>): Dependencies {
    map n | n in dependencies :: Elements(dependencies[n])
  }

  lemma {:induction false} InitialKeysAgree(nodes: seq<NodeInfo>)
    ensures InitialDependencies(nodes).Keys == InitialStatuses(nodes).Keys == Names(nodes)
  {
    if nodes == [] {
    } else {
      var front, last := nodes[..|nodes| - 1], nodes[|nodes| - 1];
      InitialKeysAgree(front);
      assert Names(nodes) == Names(front) + {last.name} by {
        assert forall i :: 0 <= i < |front| ==> nodes[i] == front[i];
        forall n | n in Names(front) + {last.name} ensures n in Names(nodes) {
          if n == last.name {
            assert nodes[|nodes| - 1].name == n;
          } else {
            var i :| 0 <= i < |front| && front[i].name == n;
            assert nodes[i].name == n;
          }
        }
      }
    }
  }

  class PipelineRun {
    var statuses: Statuses
    var dependencies: Dependencies

    constructor New(nodes: seq<NodeInfo>)
      ensures statuses == InitialStatuses(nodes)
      ensures dependencies == InitialDependencies(nodes)
      ensures statuses.Keys == dependencies.Keys == Names(nodes)
    {
      statuses := InitialStatuses(nodes);
      dependencies := InitialDependencies(nodes);
      new;
      InitialKeysAgree(nodes);
    }

    constructor FromRunState(state: RunState)
      ensures statuses == state.statuses
      ensures dependencies == DependencySets(state.dependencies)
    {
      statuses := state.statuses;
      dependencies := DependencySets(state.dependencies);
    }

    method MarkRunning(node: string) returns (changed: bool)
      modifies this`statuses
      ensures statuses == Promoted(old(statuses), node)
        == if Has(old(statuses), node, Pending) then old(statuses)[node := Running] else old(statuses)
      ensures changed <==> Has(old(statuses), node, Pending)
    {
      if node in statuses && statuses[node] == Pending {
        statuses := statuses[node := Running];
        return true;
      }
      return false;
    }

    method MarkSuccess(node: string) returns (changed: bool)
      modifies this`statuses
      ensures changed <==> Has(old(statuses), node, Pending) || Has(old(statuses), node, Running)
      ensures statuses == Judged(old(statuses), node, true)
        == if changed then old(statuses)[node := Success] else old(statuses)
    {
      if node in statuses && (statuses[node] == Running || statuses[node] == Pending) {
        statuses := statuses[node := Success];
        return true;
      }
      return false;
    }

    method MarkFailed(node: string) returns (changed: bool)
      modifies this`statuses
      ensures changed <==> Has(old(statuses), node, Pending) || Has(old(statuses), node, Running)
      ensures statuses == Judged(old(statuses), node, false)
        == if changed then old(statuses)[node := Failed] else old(statuses)
    {
      if node in statuses && (statuses[node] == Running || statuses[node] == Pending) {
        statuses := statuses[node := Failed];
        return true;
      }
      return false;
    }

    method MarkDispatchFailed(node: string) returns (changed: bool)
      modifies this`statuses
      ensures statuses == if Has(old(statuses), node, Pending) then old(statuses)[node := Failed] else old(statuses)
      ensures changed <==> Has(old(statuses), node, Pending)
    {
      if node in statuses && statuses[node] == Pending {
        statuses := statuses[node := Failed];
        return true;
      }
      return false;
    }

    /** The stored form lists each dependency set as a vector, in no particular order. */
    method ToRunState(version: nat, pipeline: seq<NodeInfo>) returns (state: RunState)
      ensures state.version == version && state.pipeline == pipeline
      ensures state.statuses == statuses
      ensures DependencySets(state.dependencies) == dependencies
      ensures forall n :: n in state.dependencies ==> Distinct(state.dependencies[n])
    {
      var lists: map<string, seq<string>> := map[];
      var rest := dependencies.Keys;
      while rest != {}
        invariant rest <= dependencies.Keys
        invariant lists.Keys == dependencies.Keys - rest
        invariant forall n :: n in lists ==> Elements(lists[n]) == dependencies[n] && Distinct(lists[n])
        decreases rest
      {
        var n :| n in rest;
        var deps := InAnyOrder(dependencies[n]);
        lists := lists[n := deps];
        rest := rest - {n};
      }
      state := RunState(version, statuses, lists, pipeline);
      assert DependencySets(lists) == dependencies;
    }
  }
}
