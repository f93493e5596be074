/** The `node_runs` table of one run under any number of coordinators. It has no version and no
    owner: every coordinator writes it, a zombie included, and the last verdict written stays. */
module SharedTable {
  import opened Common
  import opened Runs
  import opened RunHistory
  import L = Leases
  import F = Fencing

  datatype Shared = Shared(cluster: F.Cluster, rows: NodeRuns)

  datatype Kind =
    /** A node was started; whatever became of the save. */
    | Dispatched
    /** A verdict, after the save of it was accepted. */
    | Verdict
    /** A node could not be started; whatever became of the save. */
    | DispatchFailed
    /** A run is being finalized while the node runs: success as S3 shows it. */
    | Finalized(success: bool)

  datatype Step = Move(step: F.Step) | Write(id: nat, kind: Kind, node: string)

  /** What the writer's own memory must show. */
  predicate MayWrite(c: F.Coord, kind: Kind, node: string) {
    match kind
    case Dispatched => Has(c.memory, node, Running)
    case Verdict => c.memory == c.stored && (node in c.memory ==> c.memory[node].Terminal())
    case DispatchFailed => Has(c.memory, node, Failed)
    case Finalized(_) => Has(c.memory, node, Running)
  }

  function VerdictOf(c: F.Coord, kind: Kind, node: string): bool {
    match kind
    case Verdict => Has(c.memory, node, Success)
    case Finalized(success) => success
    case _ => false
  }

  function Written(rows: NodeRuns, c: F.Coord, kind: Kind, node: string): NodeRuns {
    if kind.Dispatched? then RecordDispatched(rows, node) else RecordRun(rows, node, VerdictOf(c, kind, node))
  }

  ghost predicate Next(graph: Dependencies, s: Shared, step: Step, t: Shared) {
    match step
    case Move(move) => F.Next(graph, s.cluster, move, t.cluster) && t.rows == s.rows
    case Write(id, kind, node) =>
      && !s.cluster.deleted && id in s.cluster.coords && id !in s.cluster.stopped
      && MayWrite(s.cluster.coords[id], kind, node)
      && t == Shared(s.cluster, Written(s.rows, s.cluster.coords[id], kind, node))
  }

  ghost predicate Behaviour(graph: Dependencies, states: seq<Shared>, steps: seq<Step>) {
    && |states| == |steps| + 1
    && F.Init(states[0].cluster)
    && forall i :: 0 <= i < |steps| ==> Next(graph, states[i], steps[i], states[i + 1])
  }

  // ---------- the store underneath ----------

  function Clusters(states: seq<Shared>): seq<F.Cluster> {
    seq(|states|, i requires 0 <= i < |states| => states[i].cluster)
  }

  /** A write to the table is a step in which nothing happens to the store. */
  function ClusterStep(step: Step): F.Step {
    match step
    case Move(move) => move
    case Write(_, _, _) => F.Leasing(L.OtherRun)
  }

  function ClusterSteps(steps: seq<Step>): seq<F.Step> {
    seq(|steps|, i requires 0 <= i < |steps| => ClusterStep(steps[i]))
  }

  lemma StoreUnderneath(graph: Dependencies, states: seq<Shared>, steps: seq<Step>)
    requires Behaviour(graph, states, steps)
    ensures F.Behaviour(graph, Clusters(states), ClusterSteps(steps))
  {
    forall i | 0 <= i < |steps|
      ensures F.Next(graph, Clusters(states)[i], ClusterSteps(steps)[i], Clusters(states)[i + 1])
    {
      assert Next(graph, states[i], steps[i], states[i + 1]);
    }
  }

  /** A verdict the store once shows it shows for ever. */
  lemma StoredForGood(
      graph: Dependencies, states: seq<Shared>, steps: seq<Step>, i: nat, j: nat, node: string, status: NodeStatus)
    requires Behaviour(graph, states, steps) && i <= j < |states|
    requires Has(states[i].cluster.statuses, node, status) && status.Terminal()
    ensures Has(states[j].cluster.statuses, node, status)
  {
    StoreUnderneath(graph, states, steps);
    F.StoredOnlyMovesUp(graph, Clusters(states), ClusterSteps(steps), i, j);
    assert states[i].cluster.statuses[node].AtMost(states[j].cluster.statuses[node]);
  }

  /** What a coordinator knows to be stored, the store shows. */
  lemma KnownIsStored(
      graph: Dependencies, states: seq<Shared>, steps: seq<Step>, i: nat, id: nat, node: string, status: NodeStatus)
    requires Behaviour(graph, states, steps) && i < |states| && id in states[i].cluster.coords
    requires Has(states[i].cluster.coords[id].stored, node, status) && status.Terminal()
    ensures Has(states[i].cluster.statuses, node, status)
  {
    StoreUnderneath(graph, states, steps);
    var s := states[i].cluster;
    F.InvAlways(graph, Clusters(states), ClusterSteps(steps), i);
    assert s == Clusters(states)[i];
    assert F.CoordInv(s.coords[id], s.history);
    assert Below(s.history[s.coords[id].version], s.history[s.version]);
    assert s.coords[id].stored[node].AtMost(s.statuses[node]);
  }

  // ---------- which rows can be wrong ----------

  function AsStatus(success: bool): NodeStatus {
    if success then Success else Failed
  }

  predicate Shows(rows: NodeRuns, node: string, success: bool) {
    node in rows && rows[node] == Some(success)
  }

  /** The step writes this verdict into the node's row. */
  ghost predicate WritesVerdict(s: Shared, step: Step, node: string, success: bool) {
    && step.Write? && !step.kind.Dispatched? && step.node == node
    && step.id in s.cluster.coords && VerdictOf(s.cluster.coords[step.id], step.kind, node) == success
  }

  ghost predicate LastVerdict(
      states: seq<Shared>, steps: seq<Step>, m: nat, j: nat, node: string, success: bool)
    requires |states| == |steps| + 1
  {
    && m < j <= |steps|
    && WritesVerdict(states[m], steps[m], node, success)
    && forall k, v :: m < k < j ==> !WritesVerdict(states[k], steps[k], node, v)
  }

  ghost predicate NoVerdictBefore(states: seq<Shared>, steps: seq<Step>, j: nat, node: string)
    requires |states| == |steps| + 1
  {
    forall k, v :: 0 <= k < j && k < |steps| ==> !WritesVerdict(states[k], steps[k], node, v)
  }

  lemma RowAfterStep(graph: Dependencies, s: Shared, step: Step, t: Shared, node: string)
    requires Next(graph, s, step, t)
    ensures forall v :: WritesVerdict(s, step, node, v) ==> Shows(t.rows, node, v)
    ensures (forall v :: !WritesVerdict(s, step, node, v)) ==>
      forall v :: Shows(t.rows, node, v) <==> Shows(s.rows, node, v)
  {
    if step.Write? && step.node == node && !step.kind.Dispatched? {
      assert WritesVerdict(s, step, node, VerdictOf(s.cluster.coords[step.id], step.kind, node));
    }
  }

  /** A row shows the last verdict written to it, or the one it began with. */
  lemma {:induction false} RowIsLastVerdict(
      graph: Dependencies, states: seq<Shared>, steps: seq<Step>, j: nat, node: string, v: bool)
    requires Behaviour(graph, states, steps) && j < |states|
    ensures Shows(states[j].rows, node, v) <==>
      || (exists m: nat :: LastVerdict(states, steps, m, j, node, v))
      || (NoVerdictBefore(states, steps, j, node) && Shows(states[0].rows, node, v))
    decreases j
  {
    if j > 0 {
      var i := j - 1;
      var s, step, t := states[i], steps[i], states[j];
      assert Next(graph, s, step, t);
      RowIsLastVerdict(graph, states, steps, i, node, v);
      RowAfterStep(graph, s, step, t, node);
      if step.Write? && !step.kind.Dispatched? && step.node == node {
        var w := VerdictOf(s.cluster.coords[step.id], step.kind, node);
        assert WritesVerdict(s, step, node, w);
        assert LastVerdict(states, steps, i, j, node, w);
        if m: nat :| LastVerdict(states, steps, m, j, node, v) {
          assert m == i;
        }
      } else {
        NothingWritten(states, steps, i, j, node, v);
      }
    }
  }

  lemma NothingWritten(states: seq<Shared>, steps: seq<Step>, i: nat, j: nat, node: string, v: bool)
    requires |states| == |steps| + 1 && i < |steps| && j == i + 1
    requires forall w :: !WritesVerdict(states[i], steps[i], node, w)
    ensures NoVerdictBefore(states, steps, j, node) <==> NoVerdictBefore(states, steps, i, node)
    ensures (exists m: nat :: LastVerdict(states, steps, m, j, node, v))
      <==> exists m: nat :: LastVerdict(states, steps, m, i, node, v)
  {
    if m: nat :| LastVerdict(states, steps, m, i, node, v) {
      assert LastVerdict(states, steps, m, j, node, v);
    }
    if m: nat :| LastVerdict(states, steps, m, j, node, v) {
      assert LastVerdict(states, steps, m, i, node, v);
    }
  }

  /** A verdict written after its accepted save is the store's verdict, then and for ever. */
  lemma SavedVerdictIsRight(
      graph: Dependencies, states: seq<Shared>, steps: seq<Step>, m: nat, j: nat, node: string, v: bool)
    requires Behaviour(graph, states, steps) && m < j < |states|
    requires WritesVerdict(states[m], steps[m], node, v) && steps[m].kind.Verdict?
    requires node in states[j].cluster.statuses
    ensures Has(states[j].cluster.statuses, node, AsStatus(v))
  {
    assert Next(graph, states[m], steps[m], states[m + 1]);
    var c := states[m].cluster.coords[steps[m].id];
    NodesStay(graph, states, steps, m, j, steps[m].id);
    KnownIsStored(graph, states, steps, m, steps[m].id, node, AsStatus(v));
    StoredForGood(graph, states, steps, m, j, node, AsStatus(v));
  }

  lemma NodesStay(graph: Dependencies, states: seq<Shared>, steps: seq<Step>, m: nat, j: nat, id: nat)
    requires Behaviour(graph, states, steps) && m <= j < |states| && id in states[m].cluster.coords
    ensures states[m].cluster.coords[id].memory.Keys == states[j].cluster.statuses.Keys
  {
    StoreUnderneath(graph, states, steps);
    F.StoredOnlyMovesUp(graph, Clusters(states), ClusterSteps(steps), m, j);
    F.InvAlways(graph, Clusters(states), ClusterSteps(steps), m);
    var s := states[m].cluster;
    assert s == Clusters(states)[m];
    assert F.CoordInv(s.coords[id], s.history);
    assert Below(s.history[s.coords[id].version], s.history[s.version]);
  }

  /** The table claims a verdict the store does not show. */
  ghost predicate Wrong(s: Shared, node: string) {
    && node in s.cluster.statuses
    && StatusFromRow(s.rows, node).Terminal()
    && s.cluster.statuses[node] != StatusFromRow(s.rows, node)
  }

  /** The last verdict in the row came from a write that does not wait for an accepted save, and
      the store does not show it. */
  ghost predicate UnsavedVerdict(states: seq<Shared>, steps: seq<Step>, m: nat, j: nat, node: string, v: bool)
    requires |states| == |steps| + 1 && j < |states|
  {
    && LastVerdict(states, steps, m, j, node, v)
    && (steps[m].kind.DispatchFailed? || steps[m].kind.Finalized?)
    && !Has(states[j].cluster.statuses, node, AsStatus(v))
  }

  /** Exactly when the table is wrong about a node: the last verdict written to its row came from
      a failed dispatch or from a finalization and the store does not show it, or no verdict was
      written at all and the row was wrong to begin with and still is. */
  lemma WrongIff(graph: Dependencies, states: seq<Shared>, steps: seq<Step>, j: nat, node: string)
    requires Behaviour(graph, states, steps) && j < |states| && node in states[j].cluster.statuses
    ensures Wrong(states[j], node) <==>
      || (exists m: nat, v :: UnsavedVerdict(states, steps, m, j, node, v))
      || (NoVerdictBefore(states, steps, j, node)
          && Wrong(Shared(states[j].cluster, states[0].rows), node))
  {
    RowIsLastVerdict(graph, states, steps, j, node, true);
    RowIsLastVerdict(graph, states, steps, j, node, false);
    if Wrong(states[j], node) {
      var v := states[j].rows[node].value;
      if m: nat :| LastVerdict(states, steps, m, j, node, v) {
        if steps[m].kind.Verdict? {
          SavedVerdictIsRight(graph, states, steps, m, j, node, v);
        }
        assert UnsavedVerdict(states, steps, m, j, node, v);
      }
    }
  }

  /** A failed dispatch whose own save was accepted leaves no wrong row behind. */
  lemma SavedFailureIsRight(
      graph: Dependencies, states: seq<Shared>, steps: seq<Step>, m: nat, j: nat, node: string)
    requires Behaviour(graph, states, steps) && m < j < |states|
    requires steps[m].Write? && steps[m].kind.DispatchFailed? && steps[m].node == node
    requires steps[m].id in states[m].cluster.coords && Has(states[m].cluster.coords[steps[m].id].stored, node, Failed)
    ensures Has(states[j].cluster.statuses, node, Failed)
  {
    KnownIsStored(graph, states, steps, m, steps[m].id, node, Failed);
    StoredForGood(graph, states, steps, m, j, node, Failed);
  }

  /** A caller can rule wrong rows out: no coordinator finalizes while the life goes on, and every
      failed dispatch is recorded only with its save accepted. */
  ghost predicate Careful(states: seq<Shared>, steps: seq<Step>)
    requires |states| == |steps| + 1
  {
    forall m :: 0 <= m < |steps| && steps[m].Write? ==>
      && !steps[m].kind.Finalized?
      && (steps[m].kind.DispatchFailed? ==>
            && steps[m].id in states[m].cluster.coords
            && Has(states[m].cluster.coords[steps[m].id].stored, steps[m].node, Failed))
  }

  lemma CarefulIsNeverWrong(graph: Dependencies, states: seq<Shared>, steps: seq<Step>, j: nat, node: string)
    requires Behaviour(graph, states, steps) && Careful(states, steps) && j < |states|
    requires node in states[j].cluster.statuses && node in states[0].cluster.statuses && !Wrong(states[0], node)
    ensures !Wrong(states[j], node)
  {
    WrongIff(graph, states, steps, j, node);
    if StatusFromRow(states[0].rows, node).Terminal() {
      StoredForGood(graph, states, steps, 0, j, node, StatusFromRow(states[0].rows, node));
    }
    if m: nat, v :| UnsavedVerdict(states, steps, m, j, node, v) {
      SavedFailureIsRight(graph, states, steps, m, j, node);
    }
  }
}
