/** What one coordinator does to its own memory, as a trace of atomic actions. The
    `Coordinators.Coordinator` class keeps such a trace and proves it legal; `Fencing`
    interleaves the actions of any number of coordinators over one store.

    A coordinator begins with the statuses and the graph it created or loaded, so at first
    its memory and the stored copy it knows of are the same. */
module Protocol {
  import opened Common
  import opened Runs
  import opened RunTheory

  datatype Action =
    /** A Pending node seen started elsewhere becomes Running. */
    | Promotion(node: string)
    /** A verdict arrives: a completion, an infrastructure failure or a timeout. */
    | Verdict(node: string, success: bool)
    /** The cluster was asked to start a node, and took it or not. */
    | Dispatch(node: string, taken: bool)
    /** A ready node that has no definition is failed without asking the cluster. */
    | Undefined(node: string)
    /** The whole memory was sent to the store; the coordinator heard back whether it was accepted. */
    | Save(accepted: bool)

  function Move(statuses: Statuses, a: Action): Statuses {
    match a
    case Promotion(n) => Promoted(statuses, n)
    case Verdict(n, success) => Judged(statuses, n, success)
    case Dispatch(n, taken) =>
      if Has(statuses, n, Pending) then statuses[n := if taken then Running else Failed] else statuses
    case Undefined(n) => if Has(statuses, n, Pending) then statuses[n := Failed] else statuses
    case Save(_) => statuses
  }

  function Memory(origin: Statuses, trace: seq<Action>): Statuses {
    if trace == [] then origin else Move(Memory(origin, trace[..|trace| - 1]), trace[|trace| - 1])
  }

  /** The statuses the store last gave to this coordinator or accepted from it. */
  function Stored(origin: Statuses, trace: seq<Action>): Statuses {
    if trace == [] then origin
    else
      var front := trace[..|trace| - 1];
      if trace[|trace| - 1] == Save(true) then Memory(origin, front) else Stored(origin, front)
  }

  function AcceptedSaves(trace: seq<Action>): nat {
    if trace == [] then 0
    else AcceptedSaves(trace[..|trace| - 1]) + if trace[|trace| - 1] == Save(true) then 1 else 0
  }

  /** Dispatch is allowed only for a node that is ready in memory and in the stored copy. */
  predicate Enabled(memory: Statuses, stored: Statuses, graph: Dependencies, a: Action) {
    match a
    case Dispatch(n, _) => n in ReadyNodes(memory, graph) && n in ReadyNodes(stored, graph)
    case Undefined(n) => n in ReadyNodes(memory, graph)
    case _ => true
  }

  ghost predicate Legal(origin: Statuses, graph: Dependencies, trace: seq<Action>) {
    trace == [] ||
    var front := trace[..|trace| - 1];
    && Legal(origin, graph, front)
    && Enabled(Memory(origin, front), Stored(origin, front), graph, trace[|trace| - 1])
  }

  lemma Extend(origin: Statuses, graph: Dependencies, trace: seq<Action>, a: Action)
    ensures Memory(origin, trace + [a]) == Move(Memory(origin, trace), a)
    ensures Stored(origin, trace + [a]) == if a == Save(true) then Memory(origin, trace) else Stored(origin, trace)
    ensures AcceptedSaves(trace + [a]) == AcceptedSaves(trace) + if a == Save(true) then 1 else 0
    ensures Legal(origin, graph, trace) && Enabled(Memory(origin, trace), Stored(origin, trace), graph, a)
      ==> Legal(origin, graph, trace + [a])
  {
  }

  ghost predicate Moved(before: Statuses, after: Statuses, n: string)
    requires n in before
  {
    && n in after
    && before[n].AtMost(after[n]) && before[n] != after[n]
    && after == before[n := after[n]]
  }

  /** An action leaves every node alone or moves one node up. */
  lemma ActionMovesUp(statuses: Statuses, a: Action)
    ensures Below(statuses, Move(statuses, a))
    ensures a.Dispatch? && Has(statuses, a.node, Pending) ==> !Has(Move(statuses, a), a.node, Pending)
    ensures Move(statuses, a) == statuses || exists n :: n in statuses && Moved(statuses, Move(statuses, a), n)
  {
  }

  /** Over any trace nodes only move up and the node set stays. */
  lemma {:induction false} MemoryMovesUp(origin: Statuses, trace: seq<Action>, i: nat)
    requires i <= |trace|
    ensures Below(Memory(origin, trace[..i]), Memory(origin, trace))
    ensures Memory(origin, trace).Keys == origin.Keys
    decreases |trace|
  {
    assert trace[..|trace|] == trace;
    if i < |trace| {
      var front := trace[..|trace| - 1];
      MemoryMovesUp(origin, front, i);
      assert front[..i] == trace[..i];
      ActionMovesUp(Memory(origin, front), trace[|trace| - 1]);
      BelowTransitive(Memory(origin, trace[..i]), Memory(origin, front), Memory(origin, trace));
    } else if trace != [] {
      var front := trace[..|trace| - 1];
      MemoryMovesUp(origin, front, |front|);
      ActionMovesUp(Memory(origin, front), trace[|trace| - 1]);
    }
  }

  /** The stored copy never overtakes the memory. */
  lemma {:induction false} StoredIsBehind(origin: Statuses, trace: seq<Action>)
    ensures Below(Stored(origin, trace), Memory(origin, trace))
  {
    if trace != [] {
      var front := trace[..|trace| - 1];
      StoredIsBehind(origin, front);
      ActionMovesUp(Memory(origin, front), trace[|trace| - 1]);
      BelowTransitive(Stored(origin, front), Memory(origin, front), Memory(origin, trace));
    }
  }

  /** A node that has a verdict keeps it. */
  lemma FirstVerdictWins(origin: Statuses, trace: seq<Action>, i: nat, node: string)
    requires i <= |trace|
    requires node in Memory(origin, trace[..i]) && Memory(origin, trace[..i])[node].Terminal()
    ensures Has(Memory(origin, trace), node, Memory(origin, trace[..i])[node])
  {
    MemoryMovesUp(origin, trace, i);
    assert Memory(origin, trace[..i])[node].AtMost(Memory(origin, trace)[node]);
  }

  lemma {:induction false} EnabledAt(origin: Statuses, graph: Dependencies, trace: seq<Action>, i: nat)
    requires Legal(origin, graph, trace) && i < |trace|
    ensures Legal(origin, graph, trace[..i])
    ensures Enabled(Memory(origin, trace[..i]), Stored(origin, trace[..i]), graph, trace[i])
    ensures Memory(origin, trace[..i + 1]) == Move(Memory(origin, trace[..i]), trace[i])
    decreases |trace|
  {
    var front := trace[..|trace| - 1];
    if i == |trace| - 1 {
      assert trace[..i] == front && trace[..i + 1] == trace;
    } else {
      EnabledAt(origin, graph, front, i);
      assert front[..i] == trace[..i] && front[..i + 1] == trace[..i + 1];
    }
  }

  /** At every dispatch the node is Pending and all its dependencies are Success, both in
      memory and in what the store last gave or accepted. */
  lemma DispatchIsDurable(origin: Statuses, graph: Dependencies, trace: seq<Action>, i: nat)
    requires origin.Keys == graph.Keys && Legal(origin, graph, trace) && i < |trace| && trace[i].Dispatch?
    ensures var memory, stored, n := Memory(origin, trace[..i]), Stored(origin, trace[..i]), trace[i].node;
      && Has(memory, n, Pending) && Has(stored, n, Pending)
      && n in graph
      && forall d :: d in graph[n] ==> Has(memory, d, Success) && Has(stored, d, Success)
  {
    EnabledAt(origin, graph, trace, i);
    MemoryMovesUp(origin, trace[..i], 0);
    assert DepsSatisfied(Memory(origin, trace[..i]), graph, trace[i].node);
    assert DepsSatisfied(Stored(origin, trace[..i]), graph, trace[i].node);
  }

  /** A node that is not Pending at some point of the trace is not dispatched from there on. */
  lemma NeverDispatchedOnceStarted(
      origin: Statuses, graph: Dependencies, trace: seq<Action>, i: nat, j: nat, node: string)
    requires Legal(origin, graph, trace) && i <= j < |trace|
    requires node in Memory(origin, trace[..i]) && Memory(origin, trace[..i])[node] != Pending
    ensures !(trace[j].Dispatch? && trace[j].node == node)
  {
    EnabledAt(origin, graph, trace, j);
    MemoryMovesUp(origin, trace[..j], i);
    assert trace[..j][..i] == trace[..i];
    assert Memory(origin, trace[..i])[node].AtMost(Memory(origin, trace[..j])[node]);
  }

  /** One coordinator asks the cluster to start a node at most once in its life. */
  lemma DispatchedAtMostOnce(origin: Statuses, graph: Dependencies, trace: seq<Action>, i: nat, j: nat)
    requires Legal(origin, graph, trace) && i < j < |trace|
    requires trace[i].Dispatch? && trace[j].Dispatch?
    ensures trace[i].node != trace[j].node
  {
    if trace[i].node == trace[j].node {
      EnabledAt(origin, graph, trace, i);
      ActionMovesUp(Memory(origin, trace[..i]), trace[i]);
      NeverDispatchedOnceStarted(origin, graph, trace, i + 1, j, trace[i].node);
    }
  }

  // ---------- how long a coordinator can go on ----------

  function Dispatches(trace: seq<Action>): nat {
    if trace == [] then 0
    else Dispatches(trace[..|trace| - 1]) + if trace[|trace| - 1].Dispatch? then 1 else 0
  }

  /** The nodes the cluster was asked to start. */
  function Asked(trace: seq<Action>): set<string> {
    if trace == [] then {}
    else
      var last := trace[|trace| - 1];
      Asked(trace[..|trace| - 1]) + if last.Dispatch? then {last.node} else {}
  }

  lemma {:induction false} AskedMeansDispatched(trace: seq<Action>, node: string)
    ensures node in Asked(trace) <==> exists i :: 0 <= i < |trace| && trace[i].Dispatch? && trace[i].node == node
  {
    if trace != [] {
      var front := trace[..|trace| - 1];
      AskedMeansDispatched(front, node);
      assert forall i :: 0 <= i < |front| ==> front[i] == trace[i];
    }
  }

  /** The calls to the cluster, in order, each with its answer. */
  function Calls(trace: seq<Action>): seq<(string, bool)> {
    if trace == [] then []
    else
      var last := trace[|trace| - 1];
      Calls(trace[..|trace| - 1]) + if last.Dispatch? then [(last.node, last.taken)] else []
  }

  lemma {:induction false} AskedAreCalled(trace: seq<Action>, node: string)
    ensures node in Asked(trace) <==> exists i :: 0 <= i < |Calls(trace)| && Calls(trace)[i].0 == node
  {
    if trace != [] {
      var front, calls := trace[..|trace| - 1], Calls(trace);
      AskedAreCalled(front, node);
      assert forall i :: 0 <= i < |Calls(front)| ==> calls[i] == Calls(front)[i];
      if trace[|trace| - 1].Dispatch? {
        assert calls[|calls| - 1].0 == trace[|trace| - 1].node;
      }
    }
  }

  /** Whatever the cluster was asked to start is not Pending any more. */
  lemma {:induction false} AskedIsNotPending(origin: Statuses, graph: Dependencies, trace: seq<Action>, node: string)
    requires Legal(origin, graph, trace) && node in Asked(trace)
    ensures !Has(Memory(origin, trace), node, Pending)
  {
    var front, last := trace[..|trace| - 1], trace[|trace| - 1];
    ActionMovesUp(Memory(origin, front), last);
    if node in Asked(front) {
      AskedIsNotPending(origin, graph, front, node);
      if node in Memory(origin, front) {
        assert Memory(origin, front)[node].AtMost(Memory(origin, trace)[node]);
      }
    }
  }

  /** Actions that changed some node's status. */
  function Transitions(origin: Statuses, trace: seq<Action>): nat {
    if trace == [] then 0
    else
      var front := trace[..|trace| - 1];
      Transitions(origin, front) + if Memory(origin, trace) != Memory(origin, front) then 1 else 0
  }

  /** Actions that gave some node its verdict. */
  function Verdicts(origin: Statuses, trace: seq<Action>): nat {
    if trace == [] then 0
    else
      var front := trace[..|trace| - 1];
      Verdicts(origin, front) + if |Open(Memory(origin, trace))| < |Open(Memory(origin, front))| then 1 else 0
  }

  /** Pending nodes pay for dispatches, the potential for transitions, open nodes for verdicts. */
  lemma {:induction false} Accounting(origin: Statuses, graph: Dependencies, trace: seq<Action>)
    requires Legal(origin, graph, trace)
    ensures Dispatches(trace) + |WithStatus(Memory(origin, trace), Pending)| <= |WithStatus(origin, Pending)|
    ensures Transitions(origin, trace) + Potential(Memory(origin, trace)) <= Potential(origin)
    ensures Verdicts(origin, trace) + |Open(Memory(origin, trace))| == |Open(origin)|
  {
    if trace != [] {
      var front, a := trace[..|trace| - 1], trace[|trace| - 1];
      Accounting(origin, graph, front);
      var before, after := Memory(origin, front), Memory(origin, trace);
      ActionMovesUp(before, a);
      OpenCount(before);
      OpenCount(after);
      if after != before {
        var n :| n in before && Moved(before, after, n);
        MoveUp(before, n, after[n]);
        if a.Dispatch? {
          assert Has(before, a.node, Pending);
          assert n == a.node;
        }
      }
    }
  }

  /** A coordinator over N nodes asks for at most N dispatches and makes at most 2N transitions;
      while a node is Running fewer than N verdicts have been given. */
  lemma TerminationBound(origin: Statuses, graph: Dependencies, trace: seq<Action>)
    requires Legal(origin, graph, trace)
    ensures Dispatches(trace) <= |origin|
    ensures Transitions(origin, trace) <= 2 * |origin|
    ensures Verdicts(origin, trace) <= |origin|
    ensures WithStatus(Memory(origin, trace), Running) != {} ==> Verdicts(origin, trace) < |origin|
  {
    Accounting(origin, graph, trace);
    OpenCount(origin);
    OpenCount(Memory(origin, trace));
    SubsetSize(Open(origin), origin.Keys);
    var running := WithStatus(Memory(origin, trace), Running);
    if running != {} {
      var n :| n in running;
      SubsetSize({n}, running);
    }
  }
}
