/** What the status map of a run means: completion on acyclic graphs, the two encodings of
    "done", the progress measure, and the closed form of a reconcile pass. */
module RunTheory {
  import opened Common
  import opened Runs

  // ---------- completion ----------

  /** Every dependency list belongs to a node and names only nodes. */
  ghost predicate Closed(nodes: set<string>, dependencies: Dependencies) {
    && dependencies.Keys == nodes
    && forall n :: n in dependencies ==> dependencies[n] <= nodes
  }

  ghost predicate Ranked(dependencies: Dependencies, rank: map<string, nat>) {
    && rank.Keys == dependencies.Keys
    && forall n, d :: n in dependencies && d in dependencies[n] && d in dependencies ==> rank[d] < rank[n]
  }

  /** The nodes can be numbered so that every dependency comes before its dependants. */
  ghost predicate Acyclic(dependencies: Dependencies) {
    exists rank: map<string, nat> :: Ranked(dependencies, rank)
  }

  /** A path of Pending nodes, each waiting for the next, that ends in a Failed node. */
  ghost predicate BlockingChain(statuses: Statuses, dependencies: Dependencies, path: seq<string>) {
    && |path| >= 2
    && (forall i :: 0 <= i < |path| - 1 ==>
          Has(statuses, path[i], Pending) && path[i] in dependencies && path[i + 1] in dependencies[path[i]])
    && Has(statuses, path[|path| - 1], Failed)
  }

  lemma {:induction false} ChainFrom(
      statuses: Statuses, dependencies: Dependencies, rank: map<string, nat>, node: string)
    returns (path: seq<string>)
    requires Closed(statuses.Keys, dependencies) && Ranked(dependencies, rank)
    requires IsComplete(statuses, dependencies)
    requires Has(statuses, node, Pending)
    ensures BlockingChain(statuses, dependencies, path) && path[0] == node
    decreases rank[node]
  {
    assert node !in ReadyNodes(statuses, dependencies);
    var d :| d in dependencies[node] && !Has(statuses, d, Success);
    assert d !in WithStatus(statuses, Running);
    if statuses[d] == Failed {
      path := [node, d];
    } else {
      var rest := ChainFrom(statuses, dependencies, rank, d);
      path := [node] + rest;
      forall i | 0 <= i < |path| - 1
        ensures Has(statuses, path[i], Pending) && path[i] in dependencies && path[i + 1] in dependencies[path[i]]
      {
        if i > 0 {
          assert path[i] == rest[i - 1] && path[i + 1] == rest[i];
        }
      }
    }
  }

  ghost predicate Blocked(statuses: Statuses, dependencies: Dependencies, node: string) {
    exists path :: BlockingChain(statuses, dependencies, path) && path[0] == node
  }

  /** On an acyclic closed graph a complete run has decided every node it could: what is left
      waits, through a chain of Pending nodes, for a Failed one; so the run succeeded exactly
      when nothing failed. */
  lemma {:induction false} CompletionMeaning(statuses: Statuses, dependencies: Dependencies)
    requires Closed(statuses.Keys, dependencies) && Acyclic(dependencies)
    requires IsComplete(statuses, dependencies)
    ensures forall n :: n in statuses ==>
      || statuses[n] == Success
      || statuses[n] == Failed
      || (statuses[n] == Pending && Blocked(statuses, dependencies, n))
    ensures OutcomeStatus(statuses) == RunSuccess <==> WithStatus(statuses, Failed) == {}
  {
    var rank :| Ranked(dependencies, rank);
    forall n | n in statuses && !statuses[n].Terminal()
      ensures statuses[n] == Pending && Blocked(statuses, dependencies, n)
      ensures WithStatus(statuses, Failed) != {}
    {
      assert n !in WithStatus(statuses, Running);
      var path := ChainFrom(statuses, dependencies, rank, n);
      assert path[|path| - 1] in WithStatus(statuses, Failed);
    }
    if AllSuccess(statuses) {
      assert WithStatus(statuses, Failed) == {};
    } else {
      var n :| n in statuses && statuses[n] != Success;
      if statuses[n] == Failed {
        assert n in WithStatus(statuses, Failed);
      }
    }
  }

  // ---------- two encodings of "done" ----------

  /** The state store's own test: no Running node, and no listed node that could be dispatched. */
  predicate RunStateIsTerminal(state: RunState) {
    && !(exists n :: n in state.statuses && state.statuses[n] == Running)
    && !(exists n ::
           && n in state.dependencies
           && Has(state.statuses, n, Pending)
           && forall d :: d in state.dependencies[n] ==> Has(state.statuses, d, Success))
  }

  /** The store walks the dependency table, the run walks the status table: they disagree
      exactly on a Pending node that has no dependency entry. */
  lemma DoneEncodings(state: RunState)
    ensures IsComplete(state.statuses, DependencySets(state.dependencies)) <==>
      && RunStateIsTerminal(state)
      && forall n :: Has(state.statuses, n, Pending) ==> n in state.dependencies
  {
    var deps := DependencySets(state.dependencies);
    assert forall n :: n in deps ==> Elements(state.dependencies[n]) == deps[n];
    forall n | n in state.dependencies
      ensures DepsSatisfied(state.statuses, deps, n) <==>
        forall d :: d in state.dependencies[n] ==> Has(state.statuses, d, Success)
    {
      assert forall d :: d in state.dependencies[n] <==> d in deps[n];
    }
    if IsComplete(state.statuses, deps) {
      forall n | n in state.statuses ensures state.statuses[n] != Running {
        assert n !in WithStatus(state.statuses, Running);
      }
      forall n | Has(state.statuses, n, Pending)
        ensures n in state.dependencies && !DepsSatisfied(state.statuses, deps, n)
      {
        assert n !in ReadyNodes(state.statuses, deps);
      }
    }
  }

  // ---------- the progress measure ----------

  function Open(statuses: Statuses): set<string> {
    set n | n in statuses && !statuses[n].Terminal()
  }

  function Potential(statuses: Statuses): nat {
    2 * |WithStatus(statuses, Pending)| + |WithStatus(statuses, Running)|
  }

  lemma TakenOut(statuses: Statuses, node: string, status: NodeStatus)
    requires node in statuses && statuses[node] != status
    ensures var next, from := statuses[node := status], statuses[node];
      |WithStatus(next, from)| + 1 == |WithStatus(statuses, from)|
  {
    var from := statuses[node];
    assert node in WithStatus(statuses, from);
    assert WithStatus(statuses[node := status], from) == WithStatus(statuses, from) - {node};
  }

  lemma PutIn(statuses: Statuses, node: string, status: NodeStatus)
    requires node in statuses && statuses[node] != status
    ensures |WithStatus(statuses[node := status], status)| == |WithStatus(statuses, status)| + 1
  {
    assert node !in WithStatus(statuses, status);
    assert WithStatus(statuses[node := status], status) == WithStatus(statuses, status) + {node};
  }

  lemma Untouched(statuses: Statuses, node: string, status: NodeStatus, other: NodeStatus)
    requires node in statuses && statuses[node] != other && status != other
    ensures WithStatus(statuses[node := status], other) == WithStatus(statuses, other)
  {
  }

  /** One upward move of one node takes it out of the Pending or the Running nodes. */
  lemma MoveUp(statuses: Statuses, node: string, status: NodeStatus)
    requires node in statuses && statuses[node].AtMost(status) && statuses[node] != status
    ensures Below(statuses, statuses[node := status])
    ensures var next := statuses[node := status];
      if statuses[node] == Pending then
        && |WithStatus(next, Pending)| + 1 == |WithStatus(statuses, Pending)|
        && |WithStatus(next, Running)| == |WithStatus(statuses, Running)| + (if status == Running then 1 else 0)
      else
        && |WithStatus(next, Pending)| == |WithStatus(statuses, Pending)|
        && |WithStatus(next, Running)| + 1 == |WithStatus(statuses, Running)|
  {
    TakenOut(statuses, node, status);
    if statuses[node] == Pending {
      if status == Running {
        PutIn(statuses, node, Running);
      } else {
        Untouched(statuses, node, status, Running);
      }
    } else {
      Untouched(statuses, node, status, Pending);
    }
  }

  lemma OpenCount(statuses: Statuses)
    ensures |Open(statuses)| == |WithStatus(statuses, Pending)| + |WithStatus(statuses, Running)|
  {
    assert Open(statuses) == WithStatus(statuses, Pending) + WithStatus(statuses, Running);
  }

  lemma BelowTransitive(a: Statuses, b: Statuses, c: Statuses)
    requires Below(a, b) && Below(b, c)
    ensures Below(a, c)
  {
  }

  // ---------- dispatching and reconciling ----------

  /** The outcome of trying to dispatch the nodes in `tried`: those in `started` run, the others failed. */
  function AfterDispatch(statuses: Statuses, tried: set<string>, started: set<string>): Statuses {
    map n | n in statuses :: if n in tried then (if n in started then Running else Failed) else statuses[n]
  }

  /** Every ready node dispatched successfully. */
  function Advance(statuses: Statuses, dependencies: Dependencies): Statuses {
    var ready := ReadyNodes(statuses, dependencies);
    AfterDispatch(statuses, ready, ready)
  }

  lemma NothingReadyAfterDispatch(statuses: Statuses, dependencies: Dependencies, started: set<string>)
    ensures ReadyNodes(AfterDispatch(statuses, ReadyNodes(statuses, dependencies), started), dependencies) == {}
  {
  }

  /** Trying some of the ready nodes leaves the other ready nodes ready. */
  lemma StillReady(
      statuses: Statuses, dependencies: Dependencies, tried: set<string>, started: set<string>, node: string)
    requires tried <= ReadyNodes(statuses, dependencies)
    requires node in ReadyNodes(statuses, dependencies) && node !in tried
    ensures node in ReadyNodes(AfterDispatch(statuses, tried, started), dependencies)
  {
  }

  lemma DispatchStep(statuses: Statuses, tried: set<string>, started: set<string>, node: string, taken: bool)
    requires node in statuses && node !in tried && started <= tried
    ensures AfterDispatch(statuses, tried, started)[node := if taken then Running else Failed]
      == AfterDispatch(statuses, tried + {node}, if taken then started + {node} else started)
  {
  }

  predicate JudgedBy(statuses: Statuses, verdicts: map<string, bool>, node: string) {
    node in statuses && node in verdicts && !statuses[node].Terminal()
  }

  predicate EndsInSuccess(statuses: Statuses, verdicts: map<string, bool>, node: string) {
    node in statuses && if JudgedBy(statuses, verdicts, node) then verdicts[node] else statuses[node] == Success
  }

  /** The closed form of a reconcile pass: judged nodes get their verdict, an unjudged Pending
      node runs if and only if all its dependencies end in Success, the rest is unchanged. */
  function Settled(statuses: Statuses, dependencies: Dependencies, verdicts: map<string, bool>): Statuses {
    map n | n in statuses ::
      if JudgedBy(statuses, verdicts, n) then (if verdicts[n] then Success else Failed)
      else if
        && statuses[n] == Pending
        && (n in dependencies ==> forall d :: d in dependencies[n] ==> EndsInSuccess(statuses, verdicts, d))
      then Running
      else statuses[n]
  }

  /** What one more completion does to a pass that has already folded `verdicts`. */
  lemma SettleOneMore(
      statuses: Statuses, dependencies: Dependencies, verdicts: map<string, bool>, before: Statuses,
      node: string, success: bool)
    requires node !in verdicts
    requires before == if verdicts == map[] then statuses else Settled(statuses, dependencies, verdicts)
    ensures Advance(Judged(before, node, success), dependencies)
      == Settled(statuses, dependencies, verdicts[node := success])
  {
    var judged, after := Judged(before, node, success), verdicts[node := success];
    assert forall d :: Has(judged, d, Success) <==> EndsInSuccess(statuses, after, d);
  }

  /** Folding completions one by one, dispatching what each one unlocks. */
  function FoldInOrder(statuses: Statuses, dependencies: Dependencies, order: seq<(string, bool)>): Statuses {
    if order == [] then statuses
    else
      var last := order[|order| - 1];
      Advance(Judged(FoldInOrder(statuses, dependencies, order[..|order| - 1]), last.0, last.1), dependencies)
  }

  function AsVerdicts(order: seq<(string, bool)>): map<string, bool> {
    if order == [] then map[] else AsVerdicts(order[..|order| - 1])[order[|order| - 1].0 := order[|order| - 1].1]
  }

  lemma {:induction false} VerdictKeys(order: seq<(string, bool)>, node: string)
    requires node in AsVerdicts(order)
    ensures exists i :: 0 <= i < |order| && order[i].0 == node
  {
    if node != order[|order| - 1].0 {
      VerdictKeys(order[..|order| - 1], node);
      var i :| 0 <= i < |order| - 1 && order[..|order| - 1][i].0 == node;
      assert order[i].0 == node;
    }
  }

  /** Any order of the same completions ends in the same statuses. */
  lemma {:induction false} OrderDoesNotMatter(
      statuses: Statuses, dependencies: Dependencies, order: seq<(string, bool)>)
    requires order != []
    requires forall i, j :: 0 <= i < j < |order| ==> order[i].0 != order[j].0
    ensures FoldInOrder(statuses, dependencies, order) == Settled(statuses, dependencies, AsVerdicts(order))
  {
    var front, last := order[..|order| - 1], order[|order| - 1];
    if front != [] {
      OrderDoesNotMatter(statuses, dependencies, front);
      assert AsVerdicts(front) != map[] by {
        assert front[|front| - 1].0 in AsVerdicts(front);
      }
    }
    if last.0 in AsVerdicts(front) {
      VerdictKeys(front, last.0);
    }
    var before := FoldInOrder(statuses, dependencies, front);
    SettleOneMore(statuses, dependencies, AsVerdicts(front), before, last.0, last.1);
  }
}
