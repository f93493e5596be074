/** When the overall verdict of a complete run can be trusted. Pipelines are checked for self
    and unknown dependencies but not for longer cycles, and on a cyclic graph a run can end
    with nothing failed and yet not succeed. */
module Completion {
  import opened Runs
  import opened RunTheory
  import P = Protocol

  function Fresh(graph: Dependencies): Statuses {
    map n | n in graph :: Pending
  }

  /** Success means that nothing failed, and the other way round. */
  ghost predicate Faithful(statuses: Statuses) {
    OutcomeStatus(statuses) == RunSuccess <==> WithStatus(statuses, Failed) == {}
  }

  /** Every way to run this graph to completion ends with a faithful verdict. */
  ghost predicate AlwaysFaithful(graph: Dependencies) {
    forall trace :: P.Legal(Fresh(graph), graph, trace) && IsComplete(P.Memory(Fresh(graph), trace), graph)
      ==> Faithful(P.Memory(Fresh(graph), trace))
  }

  /** Nothing failed or runs, and the numbering covers exactly the successes, dependencies first. */
  ghost predicate Numbered(graph: Dependencies, memory: Statuses, rank: map<string, nat>, bound: nat) {
    && memory.Keys == graph.Keys
    && (forall n :: n in memory ==> memory[n] == Success || memory[n] == Pending)
    && rank.Keys == WithStatus(memory, Success)
    && forall n :: n in rank ==>
        && n in graph && rank[n] < bound
        && forall d :: d in graph[n] ==> d in rank && rank[d] < rank[n]
  }

  /** A run in which every dispatched node succeeded at once, with a numbering of those nodes. */
  ghost predicate AllGoesWell(graph: Dependencies, trace: seq<P.Action>, rank: map<string, nat>, bound: nat) {
    && P.Legal(Fresh(graph), graph, trace)
    && P.Stored(Fresh(graph), trace) == P.Memory(Fresh(graph), trace)
    && Numbered(graph, P.Memory(Fresh(graph), trace), rank, bound)
  }

  lemma NumberOneMore(graph: Dependencies, memory: Statuses, rank: map<string, nat>, bound: nat, node: string)
    requires Numbered(graph, memory, rank, bound) && node in ReadyNodes(memory, graph)
    ensures Numbered(graph, memory[node := Success], rank[node := bound], bound + 1)
  {
  }

  lemma RunOneMore(origin: Statuses, graph: Dependencies, trace: seq<P.Action>, node: string)
    returns (longer: seq<P.Action>)
    requires P.Legal(origin, graph, trace) && P.Stored(origin, trace) == P.Memory(origin, trace)
    requires node in ReadyNodes(P.Memory(origin, trace), graph)
    ensures P.Legal(origin, graph, longer)
    ensures P.Memory(origin, longer) == P.Stored(origin, longer) == P.Memory(origin, trace)[node := Success]
  {
    var memory := P.Memory(origin, trace);
    var t1 := trace + [P.Dispatch(node, true)];
    var t2 := t1 + [P.Verdict(node, true)];
    longer := t2 + [P.Save(true)];
    P.Extend(origin, graph, trace, P.Dispatch(node, true));
    P.Extend(origin, graph, t1, P.Verdict(node, true));
    P.Extend(origin, graph, t2, P.Save(true));
    assert memory[node := Running][node := Success] == memory[node := Success];
  }

  lemma {:induction false} Exhaust(graph: Dependencies, trace: seq<P.Action>, rank: map<string, nat>, bound: nat)
    returns (last: seq<P.Action>, numbering: map<string, nat>, top: nat)
    requires AllGoesWell(graph, trace, rank, bound)
    ensures AllGoesWell(graph, last, numbering, top)
    ensures ReadyNodes(P.Memory(Fresh(graph), last), graph) == {}
    decreases |WithStatus(P.Memory(Fresh(graph), trace), Pending)|
  {
    var memory := P.Memory(Fresh(graph), trace);
    if ReadyNodes(memory, graph) == {} {
      return trace, rank, bound;
    }
    var node :| node in ReadyNodes(memory, graph);
    var longer := RunOneMore(Fresh(graph), graph, trace, node);
    NumberOneMore(graph, memory, rank, bound, node);
    MoveUp(memory, node, Success);
    last, numbering, top := Exhaust(graph, longer, rank[node := bound], bound + 1);
  }

  /** The verdict is faithful for every complete run of a graph if and only if the graph has no cycle. */
  lemma FaithfulExactlyWhenAcyclic(graph: Dependencies)
    requires Closed(graph.Keys, graph)
    ensures AlwaysFaithful(graph) <==> Acyclic(graph)
  {
    if Acyclic(graph) {
      forall trace | P.Legal(Fresh(graph), graph, trace) && IsComplete(P.Memory(Fresh(graph), trace), graph)
        ensures Faithful(P.Memory(Fresh(graph), trace))
      {
        P.MemoryMovesUp(Fresh(graph), trace, 0);
        CompletionMeaning(P.Memory(Fresh(graph), trace), graph);
      }
    }
    if AlwaysFaithful(graph) {
      assert WithStatus(Fresh(graph), Success) == {};
      var last, numbering, top := Exhaust(graph, [], map[], 0);
      var memory := P.Memory(Fresh(graph), last);
      assert IsComplete(memory, graph);
      assert WithStatus(memory, Failed) == {};
      assert Faithful(memory);
      assert forall n :: n in memory ==> n in WithStatus(memory, Success);
      assert Ranked(graph, numbering);
    }
  }

  /** Two nodes that wait for each other pass the pipeline checks, never start, and leave a
      complete run in which nothing failed and which is reported as a failure. */
  lemma MutualWaiting(a: string, b: string)
    requires a != b
    ensures var graph := map[a := {b}, b := {a}];
      && Closed(graph.Keys, graph)
      && IsComplete(Fresh(graph), graph)
      && WithStatus(Fresh(graph), Failed) == {}
      && OutcomeStatus(Fresh(graph)) == RunFailure
  {
    var graph := map[a := {b}, b := {a}];
    assert !DepsSatisfied(Fresh(graph), graph, a) && !DepsSatisfied(Fresh(graph), graph, b) by {
      assert b in graph[a] && a in graph[b];
    }
    assert Fresh(graph)[a] == Pending;
  }
}
