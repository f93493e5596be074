/** Coordinators and the store that keeps their run: how one begins from what is stored, what its
    saves need, and what the next one gets from it. */
module StoredRuns {
  import opened Common
  import opened Runs
  import opened RunTheory
  import opened RunHistory
  import opened StateStore
  import opened Coordinators

  /** The statuses and the graph of a stored run have the same nodes. */
  ghost predicate Whole(runs: map<string, RunState>) {
    forall r :: r in runs ==> runs[r].statuses.Keys == runs[r].dependencies.Keys
  }

  /** The coordinator is what a run of these nodes starts as. */
  ghost predicate StartsFresh(c: Coordinator, nodes: seq<NodeInfo>)
    reads c, c.run
  {
    && !c.isRehydrate && c.stateVersion == 0
    && c.run.statuses == InitialStatuses(nodes) && c.run.dependencies == InitialDependencies(nodes)
  }

  ghost predicate TakesOver(c: Coordinator, state: RunState)
    reads c, c.run
  {
    && c.isRehydrate && c.stateVersion == state.version
    && c.run.statuses == state.statuses && c.run.dependencies == DependencySets(state.dependencies)
  }

  /** The state of a run that was just created. */
  ghost predicate Created(state: RunState, nodes: seq<NodeInfo>) {
    && state.version == 0 && state.pipeline == nodes
    && state.statuses == InitialStatuses(nodes)
    && DependencySets(state.dependencies) == InitialDependencies(nodes)
  }

  /** Takes over the stored run or creates it. Whether reading the store works and whether the first
      save arrives is up to the world: a run that could not be read starts from the beginning. */
  method InitializeRunState(
      store: InMemoryStateStore, runId: string, nodes: seq<NodeInfo>, failFast: bool, rows: NodeRuns,
      queue: seq<Message>, readable: bool, arrives: bool)
    returns (c: Coordinator)
    requires store.Valid() && Whole(store.runs)
    modifies store`runs, store`history
    ensures store.Valid() && Whole(store.runs)
    ensures fresh(c) && fresh(c.run) && c.Steady() && c.trace == [] && c.reported == [] && !c.cleanedUp
    ensures c.pipeline == nodes && c.failFast == failFast && c.rows == rows && c.queue == queue
    ensures match LastAccepted(old(store.history), runId)
      case Some(state) =>
        && store.history == old(store.history) && store.runs == old(store.runs)
        && if readable then TakesOver(c, state) else StartsFresh(c, nodes)
      case None =>
        && StartsFresh(c, nodes)
        && if readable && arrives then
             && runId in store.runs && store.runs == old(store.runs)[runId := store.runs[runId]]
             && Created(store.runs[runId], nodes)
           else store.history == old(store.history) && store.runs == old(store.runs)
  {
    hide Coordinator.Steady;
    var existing: Option<RunState> := None;
    if readable {
      existing := store.LoadRun(runId);
    }
    if existing.Some? {
      assert Lookup(store.runs, runId) == existing;
      c := new Coordinator.Rehydrated(existing.value, nodes, failFast, rows, queue);
      return;
    }
    c := new Coordinator.Fresh(nodes, failFast, rows, queue);
    if readable && arrives {
      var state := c.run.ToRunState(0, nodes);
      InitialKeysAgree(nodes);
      var _ := store.SaveRun(runId, state, 0);
    }
  }

  /** A coordinator's first save after it began is taken, with one exception: it could not read the
      store, began anew, and a version above 0 is stored. */
  method FirstSave(
      store: InMemoryStateStore, runId: string, nodes: seq<NodeInfo>, readable: bool, arrives: bool, answered: bool)
    returns (c: Coordinator, accepted: bool)
    requires store.Valid() && Whole(store.runs)
    modifies store`runs, store`history
    ensures fresh(c) && fresh(c.run) && c.TraceValid() && store.Valid() && Whole(store.runs)
    ensures var stored := LastAccepted(old(store.history), runId);
      accepted <==> answered && (readable || stored.None? || stored.value.version == 0)
    ensures LastAccepted(old(store.history), runId) == None && answered ==>
      accepted && c.stateVersion == 1 && runId in store.runs && store.runs[runId].version == 1
  {
    hide Coordinator.TraceValid;
    c := InitializeRunState(store, runId, nodes, false, map[], [], readable, arrives);
    c.KeysAgree();
    assert Lookup(store.runs, runId) == LastAccepted(store.history, runId);
    accepted := c.PersistIn(store, runId, answered);
  }

  /** The deletion of a run's state fences off every coordinator that knows a version above 0. */
  method DeletionFences(c: Coordinator, store: InMemoryStateStore, runId: string, answered: bool)
    returns (accepted: bool)
    requires c.TraceValid() && store.Valid() && c.stateVersion > 0
    modifies store`runs, store`history, c`stateVersion, c`durable, c`trace, c`asked, c`setbacks
    ensures c.TraceValid() && store.Valid()
    ensures !accepted && store.runs == old(store.runs) - {runId} && c.stateVersion == old(c.stateVersion)
  {
    hide Coordinator.TraceValid;
    store.DeleteRun(runId);
    HistoryGrows(old(store.history), Deleted(runId));
    accepted := c.PersistIn(store, runId, answered);
  }

  /** Adopts a run whose server is gone: the stored pipeline is the one the run goes on with. */
  method Adopt(
      store: InMemoryStateStore, runId: string, failFast: bool, rows: NodeRuns, queue: seq<Message>)
    returns (c: Coordinator?)
    requires store.Valid() && Whole(store.runs)
    modifies store`runs, store`history
    ensures store.Valid() && store.runs == old(store.runs) && store.history == old(store.history)
    ensures c == null <==> LastAccepted(store.history, runId) == None
    ensures c != null ==>
      && fresh(c) && fresh(c.run) && c.Steady()
      && var state := LastAccepted(store.history, runId).value;
         TakesOver(c, state) && c.pipeline == state.pipeline
  {
    hide Coordinator.Steady;
    var found := store.LoadRun(runId);
    if found.None? {
      return null;
    }
    c := InitializeRunState(store, runId, found.value.pipeline, failFast, rows, queue, true, true);
  }

  /** The takeover round trip: after a save that was taken, heard of or not, whoever adopts the run
      has its pipeline, statuses and dependencies, and the next version. So it is ready to start the
      same nodes, and those the pipeline defines are defined for it too. */
  method Handover(
      first: Coordinator, store: InMemoryStateStore, runId: string, answered: bool, rows: NodeRuns,
      queue: seq<Message>)
    returns (second: Coordinator)
    requires first.TraceValid() && store.Valid() && Whole(store.runs)
    requires match LastAccepted(store.history, runId)
      case None => first.stateVersion == 0
      case Some(stored) => stored.version == first.stateVersion
    modifies store`runs, store`history, first`stateVersion, first`durable, first`trace, first`asked, first`setbacks
    ensures store.Valid() && Whole(store.runs)
    ensures fresh(second) && fresh(second.run) && second.Steady() && second.isRehydrate
    ensures second.pipeline == first.pipeline
    ensures second.run.statuses == first.run.statuses && second.run.dependencies == first.run.dependencies
    ensures second.stateVersion == old(first.stateVersion) + 1
    ensures second.Ready() == first.Ready()
    ensures forall n :: n in second.Ready() ==> (n in Names(second.pipeline) <==> n in Names(first.pipeline))
  {
    hide Coordinator.TraceValid, Coordinator.Steady;
    first.KeysAgree();
    var _ := first.PersistIn(store, runId, answered);
    assert Lookup(store.runs, runId) == LastAccepted(store.history, runId);
    var adopted := Adopt(store, runId, first.failFast, rows, queue);
    second := adopted;
  }

  /** Versions are counted anew when a deleted run is created again. Once the new life has reached
      the version a coordinator of the old one knows, the store takes that coordinator's save, and
      refuses the next one of the new life. */
  method OldLifeIsAccepted(store: InMemoryStateStore, runId: string, nodes: seq<NodeInfo>)
    returns (first: Coordinator, second: Coordinator, oldSaved: bool, newSaved: bool)
    requires store.Valid() && Whole(store.runs) && LastAccepted(store.history, runId) == None
    modifies store`runs, store`history
    ensures fresh(first) && fresh(first.run) && fresh(second) && fresh(second.run) && first != second
    ensures oldSaved && !newSaved && first.stateVersion == 2 && second.stateVersion == 1
    ensures runId in store.runs && store.runs[runId].statuses == first.run.statuses
  {
    hide Coordinator.TraceValid;
    var taken;
    first, taken := FirstSave(store, runId, nodes, true, true, true);
    store.DeleteRun(runId);
    second, taken := FirstSave(store, runId, nodes, true, true, true);
    oldSaved := first.PersistIn(store, runId, true);
    newSaved := second.PersistIn(store, runId, true);
  }
}
