/** The run coordinator: an event loop that marks nodes, saves every step with a version
    check, dispatches what became ready, and keeps a phase timer per running node. Answers of
    the outside world (dispatch, save, history writes, pod queries) are arbitrary. */
module Coordinators {
  import opened Common
  import opened Runs
  import opened RunTheory
  import opened RunHistory
  import opened SourceManager
  import opened StateStore
  import P = Protocol

  datatype TimerPhase = Startup | Runtime

  /** `handle` names the sleeping task that will send the timeout message. */
  datatype PhaseTimer = PhaseTimer(phase: TimerPhase, handle: nat)

  datatype Task = Task(node: string, phase: TimerPhase)

  datatype Message =
    | NodeTimedOut(node: string)
    | NodePodRunning(node: string)
    | NodeInfraFailed(node: string)
    | NodePodStartTimedOut(node: string)

  function Expiry(node: string, phase: TimerPhase): Message {
    if phase == Startup then NodePodStartTimedOut(node) else NodeTimedOut(node)
  }

  datatype Event =
    | Deadline
    | Heartbeat(renewed: bool)
    | Reconcile(outcomes: map<string, ReconcileResult>)
    | Receive
    | NodeCompleted(node: string, success: bool)
    | Cancel
    | SubscriptionClosed
    /** The environment: a sleeping task wakes up and sends its message. */
    | TimerFires(handle: nat)
    /** The environment: the pod watcher's relay forwards a signal. */
    | PodSignal(message: Message)

  datatype RunSummary = RunSummary(status: RunStatus, statuses: Statuses)

  /** The outside world answered as hoped: the save was accepted, the node was started. */
  predicate Favourable(a: P.Action) {
    && (a.Save? ==> a.accepted)
    && (a.Dispatch? ==> a.taken)
    && !a.Undefined?
  }

  function Setbacks(trace: seq<P.Action>): nat {
    if trace == [] then 0
    else Setbacks(trace[..|trace| - 1]) + if Favourable(trace[|trace| - 1]) then 0 else 1
  }

  function VerdictsIn(outcomes: map<string, ReconcileResult>): map<string, bool> {
    map n | n in outcomes && outcomes[n].Completed? :: outcomes[n].success
  }

  function VerdictsOutside(outcomes: map<string, ReconcileResult>, todo: set<string>): map<string, bool> {
    map n | n in outcomes && n !in todo && outcomes[n].Completed? :: outcomes[n].success
  }

  lemma VerdictsGrow(outcomes: map<string, ReconcileResult>, todo: set<string>, node: string)
    requires node in outcomes && node in todo
    ensures VerdictsOutside(outcomes, todo - {node}) ==
      if outcomes[node].Completed? then VerdictsOutside(outcomes, todo)[node := outcomes[node].success]
      else VerdictsOutside(outcomes, todo)
  {
  }

  /** Some ready nodes were started, the other ready nodes failed, nothing else changed. */
  ghost predicate DispatchedFrom(before: Statuses, dependencies: Dependencies, after: Statuses) {
    && after.Keys == before.Keys
    && forall n :: n in before ==>
        if n in ReadyNodes(before, dependencies) then after[n] == Running || after[n] == Failed
        else after[n] == before[n]
  }

  /** Every success the memory knows of is stored. */
  ghost predicate SuccessStored(memory: Statuses, stored: Statuses) {
    forall n :: Has(memory, n, Success) ==> Has(stored, n, Success)
  }

  lemma AllIsStored(memory: Statuses)
    ensures SuccessStored(memory, memory)
  {
  }

  /** Then being ready in memory means being ready in the store. */
  lemma ReadyIsDurable(memory: Statuses, stored: Statuses, graph: Dependencies, node: string)
    requires Below(stored, memory) && SuccessStored(memory, stored)
    requires node in ReadyNodes(memory, graph)
    ensures node in ReadyNodes(stored, graph)
  {
  }

  /** The memory and the stored copy are what a legal trace makes of the origin. */
  ghost predicate Explains(
      origin: Statuses, trace: seq<P.Action>, graph: Dependencies, memory: Statuses, stored: Statuses)
  {
    && origin.Keys == graph.Keys
    && P.Legal(origin, graph, trace)
    && P.Memory(origin, trace) == memory
    && P.Stored(origin, trace) == stored
  }

  /** A timer that is still asleep will send the message of the node and phase it is kept for. */
  ghost predicate TimersOk(handles: map<string, PhaseTimer>, armed: map<nat, Task>, next: nat) {
    && (forall id :: id in armed ==> id < next)
    && forall n :: n in handles ==>
        && handles[n].handle < next
        && (handles[n].handle in armed ==> armed[handles[n].handle] == Task(n, handles[n].phase))
  }

  /** The node's own timer is still asleep, or its message waits in the queue. */
  predicate Watched(handles: map<string, PhaseTimer>, armed: map<nat, Task>, queue: seq<Message>, node: string) {
    && node in handles
    && (handles[node].handle in armed || Expiry(node, handles[node].phase) in queue)
  }

  /** No running node loses its timer, and every newly running node has one. */
  ghost predicate WatchKept(
      before: Statuses, handles0: map<string, PhaseTimer>, armed0: map<nat, Task>, queue0: seq<Message>,
      after: Statuses, handles: map<string, PhaseTimer>, armed: map<nat, Task>, queue: seq<Message>)
  {
    forall n :: Has(after, n, Running) && (Has(before, n, Running) ==> Watched(handles0, armed0, queue0, n))
      ==> Watched(handles, armed, queue, n)
  }

  lemma DispatchedFromIsBelow(origin: Statuses, node: string, success: bool, graph: Dependencies, after: Statuses)
    requires DispatchedFrom(Judged(origin, node, success), graph, after)
    ensures Below(origin, Judged(origin, node, success)) && Below(origin, after)
    ensures !Has(after, node, Running) && !Has(after, node, Pending)
  {
  }

  lemma WatchKeptTwice(
      s0: Statuses, h0: map<string, PhaseTimer>, a0: map<nat, Task>, q0: seq<Message>,
      s1: Statuses, h1: map<string, PhaseTimer>, a1: map<nat, Task>, q1: seq<Message>,
      s2: Statuses, h2: map<string, PhaseTimer>, a2: map<nat, Task>, q2: seq<Message>)
    requires WatchKept(s0, h0, a0, q0, s1, h1, a1, q1) && WatchKept(s1, h1, a1, q1, s2, h2, a2, q2)
    requires Below(s0, s1)
    ensures WatchKept(s0, h0, a0, q0, s2, h2, a2, q2)
  {
  }

  ghost predicate AllWatched(
      statuses: Statuses, handles: map<string, PhaseTimer>, armed: map<nat, Task>, queue: seq<Message>)
  {
    forall n :: Has(statuses, n, Running) ==> Watched(handles, armed, queue, n)
  }

  lemma MessageTaken(handles: map<string, PhaseTimer>, armed: map<nat, Task>, queue: seq<Message>, node: string)
    requires queue != [] && Watched(handles, armed, queue, node)
    requires queue[0] != Expiry(node, handles[node].phase)
    ensures Watched(handles, armed, queue[1..], node)
  {
  }

  /** Whatever still runs, outside `kept`, counts as failed. */
  function FailRunningBut(statuses: Statuses, kept: set<string>): Statuses {
    map n | n in statuses :: if statuses[n] == Running && n !in kept then Failed else statuses[n]
  }

  /** What finalization makes of the statuses. */
  function FailRunning(statuses: Statuses): Statuses {
    FailRunningBut(statuses, {})
  }

  lemma FailOneMore(statuses: Statuses, kept: set<string>, node: string)
    requires node in kept && Has(statuses, node, Running)
    ensures Judged(FailRunningBut(statuses, kept), node, false) == FailRunningBut(statuses, kept - {node})
  {
  }

  lemma FailingEndsRunning(statuses: Statuses)
    ensures FailRunningBut(statuses, WithStatus(statuses, Running)) == statuses
    ensures WithStatus(FailRunning(statuses), Running) == {} && Below(statuses, FailRunning(statuses))
  {
  }

  lemma StillAllWatched(
      s0: Statuses, h0: map<string, PhaseTimer>, a0: map<nat, Task>,
      s1: Statuses, h1: map<string, PhaseTimer>, a1: map<nat, Task>, queue: seq<Message>, except: set<string>)
    requires forall n :: Has(s0, n, Running) && n !in except ==> Watched(h0, a0, queue, n)
    requires WatchKept(s0, h0, a0, queue, s1, h1, a1, queue)
    requires forall n :: n in except ==> !Has(s1, n, Running)
    ensures AllWatched(s1, h1, a1, queue)
  {
  }

  /** What a dispatch round makes of the timers: an armed startup timer for each started node,
      every other timer as before. */
  ghost predicate TimersAfterDispatch(
      handles0: map<string, PhaseTimer>, armed0: map<nat, Task>,
      handles: map<string, PhaseTimer>, armed: map<nat, Task>, started: set<string>)
  {
    && handles.Keys == handles0.Keys + started
    && armed0.Keys <= armed.Keys
    && (forall n :: n in started ==> n in handles && handles[n].phase == Startup && handles[n].handle in armed)
    && forall n :: n in handles0 && n !in started ==> n in handles && handles[n] == handles0[n]
  }

  lemma OneMoreTimer(
      handles0: map<string, PhaseTimer>, armed0: map<nat, Task>,
      handles: map<string, PhaseTimer>, armed: map<nat, Task>, started: set<string>, node: string, id: nat)
    requires TimersAfterDispatch(handles0, armed0, handles, armed, started)
    ensures TimersAfterDispatch(
      handles0, armed0, handles[node := PhaseTimer(Startup, id)], armed[id := Task(node, Startup)], started + {node})
  {
  }

  lemma DispatchKeepsWatch(
      s0: Statuses, h0: map<string, PhaseTimer>, a0: map<nat, Task>,
      s1: Statuses, h1: map<string, PhaseTimer>, a1: map<nat, Task>, queue: seq<Message>, started: set<string>)
    requires TimersAfterDispatch(h0, a0, h1, a1, started)
    requires forall n :: Has(s1, n, Running) && n !in started ==> Has(s0, n, Running)
    ensures WatchKept(s0, h0, a0, queue, s1, h1, a1, queue)
  {
  }

  /** The nodes asked for so far, and those of `tried` that the pipeline defines. */
  function AskedAfter(asked: set<string>, tried: set<string>, pipeline: seq<NodeInfo>): set<string> {
    asked + tried * Names(pipeline)
  }

  /** Of the nodes that were Pending before a pass and have no verdict in it, the cluster was
      asked to start exactly those that are no longer Pending. */
  ghost predicate AskedBy(
      before: Statuses, asked0: set<string>, pipeline: seq<NodeInfo>, judged: set<string>,
      statuses: Statuses, asked: set<string>)
  {
    && asked0 <= asked
    && Below(before, statuses)
    && forall n :: Has(before, n, Pending) && n !in judged && n in Names(pipeline) ==>
        (n in asked <==> n in asked0 || !Has(statuses, n, Pending))
  }

  lemma AskedMore(
      before: Statuses, asked0: set<string>, pipeline: seq<NodeInfo>, judged: set<string>,
      s1: Statuses, asked1: set<string>, node: string, success: bool, graph: Dependencies,
      s2: Statuses, asked2: set<string>)
    requires AskedBy(before, asked0, pipeline, judged, s1, asked1) && node in judged && Below(s1, s2)
    requires
      || (s2 == Judged(s1, node, success) && asked2 == asked1)
      || (DispatchedFrom(Judged(s1, node, success), graph, s2)
          && asked2 == AskedAfter(asked1, ReadyNodes(Judged(s1, node, success), graph), pipeline))
    ensures AskedBy(before, asked0, pipeline, judged, s2, asked2)
  {
    BelowTransitive(before, s1, s2);
    forall n | Has(before, n, Pending) && n !in judged && n in Names(pipeline)
      ensures n in asked2 <==> n in asked0 || !Has(s2, n, Pending)
    {
      assert s1[n].AtMost(s2[n]);
      assert Judged(s1, node, success)[n] == s1[n];
    }
  }

  /** The pass made an attempt to start the node: the cluster was asked, or the node is undefined. */
  predicate Tried(asked0: set<string>, asked: set<string>, pipeline: seq<NodeInfo>, node: string) {
    (node in asked && node !in asked0) || node !in Names(pipeline)
  }

  predicate Completes(outcomes: map<string, ReconcileResult>, node: string) {
    node in outcomes && outcomes[node].Completed?
  }

  /** What a pass over these outcomes has made of one node. A folded node has the verdict its
      status file gives, unless an attempt to start it failed before its turn. */
  predicate NodeFolded(
      before: NodeStatus, after: NodeStatus, folded: bool, success: bool, tried: bool)
  {
    match before
    case Running => if folded then after == (if success then Success else Failed) else after == Running
    case Pending =>
      if folded then after == (if success then Success else Failed) || (after == Failed && tried)
      else after == Pending || ((after == Running || after == Failed) && tried)
    case _ => after == before
  }

  /** The same for every node; `done` are the nodes folded so far. */
  ghost predicate PassMade(
      before: Statuses, outcomes: map<string, ReconcileResult>, done: set<string>, asked0: set<string>,
      pipeline: seq<NodeInfo>, after: Statuses, asked: set<string>)
  {
    && after.Keys == before.Keys && asked0 <= asked
    && (forall n :: n in asked0 ==> !Has(before, n, Pending))
    && (forall n :: n in done ==> Completes(outcomes, n))
    && forall n :: n in before ==>
        NodeFolded(before[n], after[n], n in done, n in done && outcomes[n].success, Tried(asked0, asked, pipeline, n))
  }

  lemma PassBegins(
      before: Statuses, outcomes: map<string, ReconcileResult>, asked: set<string>, pipeline: seq<NodeInfo>)
    requires forall n :: n in asked ==> !Has(before, n, Pending)
    ensures PassMade(before, outcomes, {}, asked, pipeline, before, asked)
    ensures AskedBy(before, asked, pipeline, VerdictsIn(outcomes).Keys, before, asked)
  {
  }

  lemma PassMadeMore(
      before: Statuses, outcomes: map<string, ReconcileResult>, done: set<string>, asked0: set<string>,
      pipeline: seq<NodeInfo>, s1: Statuses, asked1: set<string>, node: string, graph: Dependencies,
      s2: Statuses, asked2: set<string>)
    requires PassMade(before, outcomes, done, asked0, pipeline, s1, asked1)
    requires Completes(outcomes, node) && node !in done
    requires var judged := Judged(s1, node, outcomes[node].success);
      || (s2 == judged && asked2 == asked1)
      || (DispatchedFrom(judged, graph, s2) && asked2 == AskedAfter(asked1, ReadyNodes(judged, graph), pipeline))
    ensures PassMade(before, outcomes, done + {node}, asked0, pipeline, s2, asked2)
  {
    var judged := Judged(s1, node, outcomes[node].success);
    forall n | n in before
      ensures NodeFolded(
        before[n], s2[n], n in done + {node}, n in done + {node} && outcomes[n].success,
        Tried(asked0, asked2, pipeline, n))
    {
      assert NodeFolded(
        before[n], s1[n], n in done, n in done && outcomes[n].success, Tried(asked0, asked1, pipeline, n));
      if n != node {
        assert judged[n] == s1[n];
      }
    }
  }

  /** What of that stays true whatever happens later: the verdicts. */
  ghost predicate VerdictsTaken(
      before: Statuses, outcomes: map<string, ReconcileResult>, done: set<string>, asked0: set<string>,
      pipeline: seq<NodeInfo>, after: Statuses, asked: set<string>)
  {
    forall n :: n in done && n in before ==>
      && Completes(outcomes, n) && n in after
      && (before[n] == Running ==> after[n] == if outcomes[n].success then Success else Failed)
      && (before[n] == Pending ==>
            || after[n] == (if outcomes[n].success then Success else Failed)
            || (after[n] == Failed && Tried(asked0, asked, pipeline, n)))
  }

  lemma VerdictsAreTaken(
      before: Statuses, outcomes: map<string, ReconcileResult>, done: set<string>, asked0: set<string>,
      pipeline: seq<NodeInfo>, s1: Statuses, asked1: set<string>, s2: Statuses, asked2: set<string>)
    requires PassMade(before, outcomes, done, asked0, pipeline, s1, asked1)
      || VerdictsTaken(before, outcomes, done, asked0, pipeline, s1, asked1)
    requires Below(s1, s2) && asked1 <= asked2
    ensures VerdictsTaken(before, outcomes, done, asked0, pipeline, s2, asked2)
  {
    forall n | n in done && n in before
      ensures Completes(outcomes, n) && n in s2
      ensures before[n] == Running || before[n] == Pending ==> s2[n] == s1[n]
    {
      assert s1[n].AtMost(s2[n]);
      if PassMade(before, outcomes, done, asked0, pipeline, s1, asked1) {
        assert NodeFolded(
          before[n], s1[n], true, outcomes[n].success, Tried(asked0, asked1, pipeline, n));
      }
    }
  }

  /** No new success, so nothing becomes ready by promoting or failing nodes. */
  ghost predicate NoMoreSuccess(before: Statuses, after: Statuses) {
    Below(before, after) && forall n :: Has(after, n, Success) ==> Has(before, n, Success)
  }

  lemma NothingNewReady(before: Statuses, after: Statuses, graph: Dependencies)
    requires NoMoreSuccess(before, after)
    ensures ReadyNodes(after, graph) <= ReadyNodes(before, graph)
  {
    forall n | n in ReadyNodes(after, graph)
      ensures n in ReadyNodes(before, graph)
    {
      assert before[n].AtMost(after[n]);
    }
  }

  lemma FailingUnlocksNothing(before: Statuses, node: string, graph: Dependencies, after: Statuses)
    requires Has(before, node, Running)
    requires after == Judged(before, node, false) || DispatchedFrom(Judged(before, node, false), graph, after)
    ensures NoMoreSuccess(before, after) && Has(after, node, Failed)
    ensures ReadyNodes(Judged(before, node, false), graph) == ReadyNodes(before, graph)
  {
    var judged := Judged(before, node, false);
    NothingNewReady(before, judged, graph);
    forall n | n in ReadyNodes(before, graph)
      ensures n in ReadyNodes(judged, graph)
    {
      assert forall d :: Has(before, d, Success) ==> Has(judged, d, Success);
    }
  }

  /** Promoting nodes takes them from the ready ones and leaves the others as they are. */
  lemma ReadyButPromoted(before: Statuses, promoted: set<string>, node: string, graph: Dependencies)
    requires Has(before, node, Pending) && forall n :: n in promoted ==> Has(before, n, Pending)
    ensures ReadyNodes(AsRunning(before, promoted), graph) == ReadyNodes(before, graph) - promoted
    ensures ReadyNodes(before[node := Running], graph) == ReadyNodes(before, graph) - {node}
  {
    assert forall d :: Has(AsRunning(before, promoted), d, Success) <==> Has(before, d, Success);
    assert forall d :: Has(before[node := Running], d, Success) <==> Has(before, d, Success);
  }

  predicate DepsEndInSuccess(
      statuses: Statuses, dependencies: Dependencies, verdicts: map<string, bool>, node: string)
  {
    node in dependencies ==> forall d :: d in dependencies[node] ==> EndsInSuccess(statuses, verdicts, d)
  }

  /** With favourable answers a fold starts a node without a verdict exactly when its
      dependencies all end in Success. */
  lemma AskedIffUnlocked(
      before: Statuses, asked0: set<string>, pipeline: seq<NodeInfo>, graph: Dependencies, verdicts: map<string, bool>,
      asked: set<string>, n: string)
    requires AskedBy(before, asked0, pipeline, verdicts.Keys, Settled(before, graph, verdicts), asked)
    requires Has(before, n, Pending) && n !in verdicts && n in Names(pipeline)
    ensures n in asked <==> n in asked0 || DepsEndInSuccess(before, graph, verdicts, n)
  {
  }

  /** Nodes that are Pending although S3 shows they have started. */
  function StartedElsewhere(statuses: Statuses, outcomes: map<string, ReconcileResult>): set<string> {
    set n | n in outcomes && outcomes[n].InProgress? && Has(statuses, n, Pending)
  }

  function AsRunning(statuses: Statuses, nodes: set<string>): Statuses {
    map n | n in statuses :: if n in nodes then Running else statuses[n]
  }

  /** A promotion pass has come to place `i` of its order; `missing` is the place of the first
      node without a pod. */
  ghost predicate PromotedSoFar(
      before: Statuses, order: seq<string>, i: nat, missing: Option<nat>, statuses: Statuses)
  {
    && i <= |order| && Distinct(order)
    && (forall n :: n in order ==> Has(before, n, Pending))
    && Below(before, statuses)
    && (forall k :: 0 <= k < i ==> !Has(statuses, order[k], Pending))
    && (missing.None? ==> statuses == AsRunning(before, Elements(order[..i])))
    && (missing.Some? ==> missing.value < i && Has(statuses, order[missing.value], Failed))
  }

  lemma PromotedMore(
      before: Statuses, order: seq<string>, i: nat, missing: Option<nat>, s1: Statuses, s2: Statuses, gone: bool)
    requires PromotedSoFar(before, order, i, missing, s1) && i < |order|
    requires Below(s1, s2) && Has(s1, order[i], Pending) && order[i] in s2 && s2[order[i]] != Pending
    requires if gone then Has(s2, order[i], Failed) else s2 == s1[order[i] := Running]
    ensures PromotedSoFar(before, order, i + 1, if gone && missing.None? then Some(i) else missing, s2)
  {
    BelowTransitive(before, s1, s2);
    assert forall n :: n in s1 ==> s1[n].AtMost(s2[n]);
    PrefixGrows(order, i);
  }

  lemma AlreadyMoved(before: Statuses, order: seq<string>, i: nat, missing: Option<nat>, statuses: Statuses)
    requires PromotedSoFar(before, order, i, missing, statuses) && i < |order| && !Has(statuses, order[i], Pending)
    ensures PromotedSoFar(before, order, i + 1, missing, statuses)
  {
    PrefixGrows(order, i);
    assert order[i] in order;
  }

  lemma NoneLeftPending(
      before: Statuses, outcomes: map<string, ReconcileResult>, order: seq<string>, missing: Option<nat>,
      statuses: Statuses)
    requires PromotedSoFar(before, order, |order|, missing, statuses)
    requires Elements(order) == StartedElsewhere(before, outcomes)
    ensures forall n :: n in outcomes && outcomes[n].InProgress? ==> !Has(statuses, n, Pending)
  {
    forall n | n in outcomes && outcomes[n].InProgress? && n in statuses
      ensures statuses[n] != Pending
    {
      assert before[n].AtMost(statuses[n]);
      if before[n] == Pending {
        assert n in Elements(order);
        var k :| 0 <= k < |order| && order[k] == n;
        assert !Has(statuses, order[k], Pending);
      }
    }
  }

  /** What the pass has asked for: nothing before the first missing pod; from then on the nodes
      that were ready on entry and whose turn had not come. */
  ghost predicate AskedSoFar(
      before: Statuses, graph: Dependencies, order: seq<string>, missing: Option<nat>, asked0: set<string>,
      pipeline: seq<NodeInfo>, asked: set<string>)
  {
    match missing
    case None => asked == asked0
    case Some(k) =>
      && k < |order|
      && asked == AskedAfter(asked0, ReadyNodes(before, graph) - Elements(order[..k + 1]), pipeline)
  }

  lemma PromotionBegins(
      before: Statuses, graph: Dependencies, outcomes: map<string, ReconcileResult>, order: seq<string>,
      asked: set<string>, pipeline: seq<NodeInfo>)
    requires Elements(order) == StartedElsewhere(before, outcomes) && Distinct(order)
    ensures PromotedSoFar(before, order, 0, None, before)
    ensures AskedSoFar(before, graph, order, None, asked, pipeline, asked)
  {
    assert forall n :: n in order ==> n in Elements(order);
  }

  /** What the two say together, at the end or where the pass was stopped. */
  lemma PromotionSays(
      before: Statuses, graph: Dependencies, order: seq<string>, i: nat, missing: Option<nat>, statuses: Statuses,
      asked0: set<string>, pipeline: seq<NodeInfo>, asked: set<string>)
    requires PromotedSoFar(before, order, i, missing, statuses)
    ensures Below(before, statuses)
    ensures missing.Some? ==> missing.value < |order| && Has(statuses, order[missing.value], Failed)
    ensures i == |order| && missing.None? ==> statuses == AsRunning(before, Elements(order))
    ensures AskedSoFar(before, graph, order, missing, asked0, pipeline, asked) ==>
      && (missing.None? ==> asked == asked0)
      && (missing.Some? ==>
            && missing.value < |order|
            && asked == AskedAfter(asked0, ReadyNodes(before, graph) - Elements(order[..missing.value + 1]), pipeline))
      && asked0 <= asked <= AskedAfter(asked0, ReadyNodes(before, graph), pipeline)
  {
    assert order[..|order|] == order;
  }

  lemma AskedOnce(
      before: Statuses, graph: Dependencies, order: seq<string>, i: nat, missing: Option<nat>, s1: Statuses,
      asked1: set<string>, asked0: set<string>, pipeline: seq<NodeInfo>, gone: bool, stop: bool, asked2: set<string>)
    requires PromotedSoFar(before, order, i, missing, s1) && i < |order| && Has(s1, order[i], Pending)
    requires AskedSoFar(before, graph, order, missing, asked0, pipeline, asked1)
    requires missing.Some? ==> ReadyNodes(s1, graph) == {}
    requires asked2 ==
      if stop || !gone then asked1 else AskedAfter(asked1, ReadyNodes(s1, graph) - {order[i]}, pipeline)
    ensures !stop ==>
      AskedSoFar(before, graph, order, if gone && missing.None? then Some(i) else missing, asked0, pipeline, asked2)
    ensures asked0 <= asked2 <= AskedAfter(asked0, ReadyNodes(before, graph), pipeline)
  {
    PrefixGrows(order, i);
    if missing.None? {
      assert order[i] in order;
      ReadyButPromoted(before, Elements(order[..i]), order[i], graph);
      assert ReadyNodes(s1, graph) - {order[i]} == ReadyNodes(before, graph) - Elements(order[..i + 1]);
    }
  }

  /** What one verdict makes of a run: the early exit where its save was refused, so that the
      version stays, or where fail-fast applies; otherwise a dispatch round, after which the run
      goes on exactly while some node runs and else ends with its true outcome. */
  ghost predicate AfterVerdict(
      before: Statuses, node: string, success: bool, graph: Dependencies, exits: bool, after: Statuses,
      summary: Option<RunSummary>)
  {
    var judged := Judged(before, node, success);
    if exits then after == FailRunning(judged) && summary == Some(RunSummary(RunFailure, after))
    else
      && DispatchedFrom(judged, graph, after)
      && (summary.None? <==> WithStatus(after, Running) != {})
      && (summary.Some? ==> summary.value == RunSummary(OutcomeStatus(after), after))
  }

  lemma VerdictEnds(
      before: Statuses, node: string, success: bool, graph: Dependencies, exits: bool, judged: Statuses,
      after: Statuses, summary: Option<RunSummary>)
    requires
      if exits then judged == Judged(before, node, success)
      else DispatchedFrom(Judged(before, node, success), graph, judged)
    requires after == if exits then FailRunning(judged) else judged
    requires exits ==> summary == Some(RunSummary(RunFailure, after))
    requires !exits ==> (summary.None? <==> WithStatus(judged, Running) != {})
    requires !exits && summary.Some? ==> summary.value == RunSummary(OutcomeStatus(after), after)
    ensures AfterVerdict(before, node, success, graph, exits, after, summary)
  {
  }

  /** What a reconcile pass makes of a run; `last` is where it was stopped, if it was. */
  ghost predicate AfterPass(
      before: Statuses, outcomes: map<string, ReconcileResult>, done: set<string>, last: Option<string>,
      asked0: set<string>, pipeline: seq<NodeInfo>, after: Statuses, asked: set<string>, summary: Option<RunSummary>)
  {
    && VerdictsTaken(before, outcomes, done, asked0, pipeline, after, asked)
    && match last
      case None =>
        && (forall n :: Completes(outcomes, n) ==> n in done)
        && PassMade(before, outcomes, done, asked0, pipeline, after, asked)
        && (summary.None? <==> WithStatus(after, Running) != {})
        && (summary.Some? ==> summary.value == RunSummary(OutcomeStatus(after), after))
      case Some(n) =>
        && n in done && summary == Some(RunSummary(RunFailure, after))
        && forall m :: Has(before, m, Running) && m !in done ==> Has(after, m, Failed)
  }

  lemma PassEnds(
      before: Statuses, outcomes: map<string, ReconcileResult>, done: set<string>, last: Option<string>,
      asked0: set<string>, pipeline: seq<NodeInfo>, folded: Statuses, asked: set<string>, after: Statuses,
      summary: Option<RunSummary>)
    requires PassMade(before, outcomes, done, asked0, pipeline, folded, asked)
    requires match last
      case None =>
        && (forall n :: Completes(outcomes, n) ==> n in done) && after == folded
        && (summary.None? <==> WithStatus(after, Running) != {})
        && (summary.Some? ==> summary.value == RunSummary(OutcomeStatus(after), after))
      case Some(n) =>
        n in done && after == FailRunning(folded) && summary == Some(RunSummary(RunFailure, after))
    ensures AfterPass(before, outcomes, done, last, asked0, pipeline, after, asked, summary)
  {
    FailingEndsRunning(folded);
    VerdictsAreTaken(before, outcomes, done, asked0, pipeline, folded, asked, after, asked);
    forall m | Has(before, m, Running) && m !in done
      ensures folded[m] == Running
    {
      assert NodeFolded(before[m], folded[m], false, false, Tried(asked0, asked, pipeline, m));
    }
  }

  /** Events after which a run ends only by being complete, when the answers are favourable. */
  predicate Benign(e: Event) {
    !e.Deadline? && !e.Cancel? && !e.SubscriptionClosed? && e != Heartbeat(false)
  }

  function PodRunnings(queue: seq<Message>): nat {
    if queue == [] then 0
    else (if queue[0].NodePodRunning? then 1 else 0) + PodRunnings(queue[1..])
  }

  lemma {:induction false} MoreMessages(queue: seq<Message>, message: Message)
    requires !message.NodePodRunning?
    ensures PodRunnings(queue + [message]) == PodRunnings(queue)
  {
    if queue != [] {
      MoreMessages(queue[1..], message);
      assert (queue + [message])[1..] == queue[1..] + [message];
    }
  }

  lemma OpenShrinks(before: Statuses, after: Statuses, node: string)
    requires Below(before, after) && node in Open(before) && after[node].Terminal()
    ensures |Open(after)| < |Open(before)|
  {
    forall n | n in Open(after)
      ensures n in Open(before)
    {
      assert before[n].AtMost(after[n]);
    }
    SubsetSize(Open(after), Open(before));
  }

  ghost predicate AllTerminal(statuses: Statuses, nodes: set<string>) {
    forall n :: n in nodes && n in statuses ==> statuses[n].Terminal()
  }

  lemma VerdictsStay(before: Statuses, after: Statuses, nodes: set<string>, node: string)
    requires Below(before, after) && AllTerminal(before, nodes)
    requires node in after ==> after[node].Terminal()
    ensures AllTerminal(after, nodes + {node})
  {
  }

  class Coordinator {
    const run: PipelineRun
    const pipeline: seq<NodeInfo>
    const failFast: bool
    const isRehydrate: bool
    var stateVersion: nat
    var handles: map<string, PhaseTimer>
    var armed: map<nat, Task>
    var nextHandle: nat
    var queue: seq<Message>
    /** The table as this coordinator found it and wrote it; others may write the real one too. */
    var rows: NodeRuns
    var cancelled: set<string>
    var reported: seq<RunStatus>
    var cleanedUp: bool
    /** The statuses the store last gave to this coordinator or accepted from it. A key not written
        yet stands for the created run: the store takes it for version 0. */
    ghost var durable: Statuses
    ghost var lostRows: bool
    /** The nodes whose row was not ahead of the statuses this coordinator began with. */
    ghost const tracked: set<string>
    ghost const origin: Statuses
    ghost const firstVersion: nat
    ghost var trace: seq<P.Action>
    /** The calls to the cluster to start a node, with their answers. */
    var calls: seq<(string, bool)>
    /** The nodes the cluster was asked to start. */
    ghost var asked: set<string>
    /** The events the loop has handled. */
    ghost var handled: seq<Event>
    /** How many answers from the outside were unfavourable so far. */
    ghost var setbacks: nat

    ghost predicate TraceValid()
      reads this`stateVersion, this`durable, this`trace, this`calls, this`asked, this`setbacks, run
    {
      && Explains(origin, trace, run.dependencies, run.statuses, durable)
      && stateVersion == firstVersion + P.AcceptedSaves(trace)
      && setbacks == Setbacks(trace)
      && asked == P.Asked(trace) && calls == P.Calls(trace)
    }

    function Ready(): set<string>
      reads run
    {
      ReadyNodes(run.statuses, run.dependencies)
    }

    predicate Timed(node: string)
      reads this`handles, this`armed, this`queue
    {
      Watched(handles, armed, queue, node)
    }

    ghost predicate AllTimed()
      reads this`handles, this`armed, this`queue, run
    {
      AllWatched(run.statuses, handles, armed, queue)
    }

    twostate predicate TimersKept()
      reads this`handles, this`armed, this`queue, run
    {
      WatchKept(old(run.statuses), old(handles), old(armed), old(queue), run.statuses, handles, armed, queue)
    }

    ghost predicate Exact()
      reads this`lostRows
    {
      !isRehydrate && !lostRows
    }

    /** The table lags behind on every tracked node; when the run began fresh and no write was
        lost it is exact, `except` aside. */
    ghost predicate Mirror(except: set<string>)
      reads this`rows, this`lostRows, run
    {
      Tracks(rows, run.statuses, tracked, Exact(), except)
    }

    ghost predicate Steady()
      reads this, run
    {
      && TraceValid()
      && TimersOk(handles, armed, nextHandle)
      && SuccessStored(run.statuses, durable)
      && Mirror({})
    }

    /** What holds whenever the event loop waits: nothing left to dispatch, something running,
        and every running node watched by a timer. */
    ghost predicate LoopHead()
      reads this, run
    {
      && Steady()
      && AllTimed()
      && Ready() == {}
      && WithStatus(run.statuses, Running) != {}
      && reported == [] && !cleanedUp
    }

    /** What a summary promises: a Success covers every node; a run that was finalized reported
        the summary's status once and left no node Running; one that gave up reported nothing. */
    ghost predicate Ended(summary: RunSummary)
      reads this, run
    {
      && TraceValid()
      && summary.statuses == run.statuses
      && (summary.status == RunSuccess ==> AllSuccess(summary.statuses))
      && (cleanedUp ==> reported == [summary.status] && WithStatus(run.statuses, Running) == {})
      && (!cleanedUp ==> reported == [] && summary.status == RunFailure)
    }

    /** The run ended because it was complete, and its summary says what became of it. */
    ghost predicate EndedWell(summary: RunSummary)
      reads this`cleanedUp, run
    {
      && cleanedUp && IsComplete(run.statuses, run.dependencies)
      && summary == RunSummary(OutcomeStatus(run.statuses), run.statuses)
    }

    // ---------- construction ----------

    /** Nothing was found under the run's key, or reading it failed. Whether the first save arrives
        makes no difference, and the table may hold rows from an earlier attempt. */
    constructor Fresh(nodes: seq<NodeInfo>, failFast: bool, rows: NodeRuns, queue: seq<Message>)
      ensures fresh(run)
      ensures Steady() && tracked == RowsBehind(rows, InitialStatuses(nodes)) && !isRehydrate && !lostRows
      ensures trace == [] && calls == [] && asked == {} && setbacks == 0 && handled == []
      ensures run.statuses == InitialStatuses(nodes) && run.dependencies == InitialDependencies(nodes)
      ensures this.pipeline == nodes && this.failFast == failFast && this.rows == rows && this.queue == queue
      ensures handles == map[] && reported == [] && !cleanedUp
      ensures origin == durable == run.statuses && firstVersion == stateVersion == 0
    {
      var r := new PipelineRun.New(nodes);
      run := r;
      pipeline, this.failFast, isRehydrate := nodes, failFast, false;
      stateVersion, handles, armed, nextHandle := 0, map[], map[], 0;
      this.queue, this.rows, cancelled, reported, cleanedUp := queue, rows, {}, [], false;
      durable, lostRows, tracked := r.statuses, false, RowsBehind(rows, r.statuses);
      origin, firstVersion, trace, calls, asked, setbacks := r.statuses, 0, [], [], {}, 0;
      handled := [];
    }

    /** A run was found under the key. The pipeline is the one the caller started it with. */
    constructor Rehydrated(
        state: RunState, nodes: seq<NodeInfo>, failFast: bool, rows: NodeRuns, queue: seq<Message>)
      requires state.statuses.Keys == state.dependencies.Keys
      ensures fresh(run)
      ensures Steady() && tracked == RowsBehind(rows, state.statuses) && isRehydrate
      ensures trace == [] && calls == [] && asked == {} && setbacks == 0 && handled == []
      ensures run.statuses == state.statuses && run.dependencies == DependencySets(state.dependencies)
      ensures this.pipeline == nodes && this.failFast == failFast && this.rows == rows && this.queue == queue
      ensures handles == map[] && reported == [] && !cleanedUp
      ensures origin == durable == run.statuses && firstVersion == stateVersion == state.version
    {
      var r := new PipelineRun.FromRunState(state);
      run := r;
      pipeline, this.failFast, isRehydrate := nodes, failFast, true;
      stateVersion, handles, armed, nextHandle := state.version, map[], map[], 0;
      this.queue, this.rows, cancelled, reported, cleanedUp := queue, rows, {}, [], false;
      durable, lostRows, tracked := r.statuses, false, RowsBehind(rows, state.statuses);
      origin, firstVersion, trace, calls, asked, setbacks := r.statuses, state.version, [], [], {}, 0;
      handled := [];
    }

    // ---------- single actions ----------

    ghost method Log(a: P.Action)
      requires TraceValid() && P.Enabled(run.statuses, durable, run.dependencies, a)
      modifies this`trace, this`asked, this`setbacks
      ensures P.Legal(origin, run.dependencies, trace)
      ensures P.Memory(origin, trace) == P.Move(run.statuses, a)
      ensures P.Stored(origin, trace) == if a == P.Save(true) then run.statuses else durable
      ensures firstVersion + P.AcceptedSaves(trace) == stateVersion + if a == P.Save(true) then 1 else 0
      ensures P.Calls(trace) == if a.Dispatch? then calls + [(a.node, a.taken)] else calls
      ensures setbacks == Setbacks(trace) == old(setbacks) + if Favourable(a) then 0 else 1
      ensures asked == P.Asked(trace) == old(asked) + if a.Dispatch? then {a.node} else {}
    {
      P.Extend(origin, run.dependencies, trace, a);
      assert (trace + [a])[..|trace|] == trace;
      trace := trace + [a];
      setbacks := setbacks + if Favourable(a) then 0 else 1;
      asked := asked + if a.Dispatch? then {a.node} else {};
    }

    method Judge(node: string, success: bool) returns (changed: bool)
      requires TraceValid()
      modifies this`trace, this`asked, this`setbacks, run`statuses
      ensures TraceValid() && setbacks == old(setbacks) && asked == old(asked)
      ensures run.statuses == Judged(old(run.statuses), node, success)
      ensures changed <==> node in old(run.statuses) && !old(run.statuses[node]).Terminal()
    {
      Log(P.Verdict(node, success));
      if success {
        changed := run.MarkSuccess(node);
      } else {
        changed := run.MarkFailed(node);
      }
    }

    /** What a save does to the coordinator, given the answer it hears. */
    method SaveAnswered(accepted: bool)
      requires TraceValid()
      modifies this`stateVersion, this`durable, this`trace, this`asked, this`setbacks
      ensures TraceValid() && asked == old(asked)
      ensures old(SuccessStored(run.statuses, durable)) || accepted ==> SuccessStored(run.statuses, durable)
      ensures setbacks == old(setbacks) + if accepted then 0 else 1
      ensures accepted ==> stateVersion == old(stateVersion) + 1 && durable == run.statuses
      ensures !accepted ==> stateVersion == old(stateVersion) && durable == old(durable)
    {
      hide SuccessStored;
      AllIsStored(run.statuses);
      Log(P.Save(accepted));
      if accepted {
        stateVersion, durable := stateVersion + 1, run.statuses;
      }
    }

    /** Saves the whole memory under the next version, expecting the version last known. The
        answer is arbitrary here: it may be a refusal, and it may be lost. */
    method PersistState() returns (accepted: bool)
      requires TraceValid()
      modifies this`stateVersion, this`durable, this`trace, this`asked, this`setbacks
      ensures TraceValid() && asked == old(asked)
      ensures old(SuccessStored(run.statuses, durable)) || accepted ==> SuccessStored(run.statuses, durable)
      ensures setbacks == old(setbacks) + if accepted then 0 else 1
      ensures accepted ==> stateVersion == old(stateVersion) + 1 && durable == run.statuses
      ensures !accepted ==> stateVersion == old(stateVersion) && durable == old(durable)
    {
      accepted := *;
      SaveAnswered(accepted);
    }

    /** The same against a store: the coordinator hears a yes iff the last accepted save of the run
        has the version it last knew, or it knew none and nothing is stored, and the answer arrives. */
    method PersistIn(store: InMemoryStateStore, runId: string, answered: bool) returns (accepted: bool)
      requires TraceValid() && store.Valid()
      modifies this`stateVersion, this`durable, this`trace, this`asked, this`setbacks, store`runs, store`history
      ensures TraceValid() && store.Valid() && asked == old(asked)
      ensures var taken := match LastAccepted(old(store.history), runId)
          case None => old(stateVersion) == 0
          case Some(stored) => stored.version == old(stateVersion);
        && (accepted <==> taken && answered)
        && (!taken ==> store.runs == old(store.runs))
        && (taken ==> runId in store.runs && store.runs == old(store.runs)[runId := store.runs[runId]]
                      && store.runs[runId].version == old(stateVersion) + 1
                      && store.runs[runId].pipeline == pipeline
                      && store.runs[runId].statuses == run.statuses
                      && DependencySets(store.runs[runId].dependencies) == run.dependencies)
      ensures accepted ==> stateVersion == old(stateVersion) + 1 && durable == run.statuses
      ensures !accepted ==> stateVersion == old(stateVersion) && durable == old(durable)
    {
      var state := run.ToRunState(stateVersion + 1, pipeline);
      var taken := store.SaveRun(runId, state, stateVersion);
      accepted := taken && answered;
      SaveAnswered(accepted);
    }

    lemma KeysAgree()
      requires TraceValid()
      ensures run.statuses.Keys == run.dependencies.Keys
    {
      P.MemoryMovesUp(origin, trace, 0);
    }

    method SpawnTimeout(node: string, phase: TimerPhase)
      requires TimersOk(handles, armed, nextHandle)
      modifies this`handles, this`armed, this`nextHandle
      ensures TimersOk(handles, armed, nextHandle)
      ensures handles == old(handles)[node := PhaseTimer(phase, old(nextHandle))]
      ensures armed == old(armed)[old(nextHandle) := Task(node, phase)]
      ensures Timed(node)
      ensures forall n :: old(Timed(n)) ==> Timed(n)
    {
      armed := armed[nextHandle := Task(node, phase)];
      handles := handles[node := PhaseTimer(phase, nextHandle)];
      nextHandle := nextHandle + 1;
    }

    method CancelNodeTimeout(node: string)
      requires TimersOk(handles, armed, nextHandle)
      modifies this`handles, this`armed
      ensures TimersOk(handles, armed, nextHandle)
      ensures handles == old(handles) - {node}
      ensures armed == if node in old(handles) then old(armed) - {old(handles)[node].handle} else old(armed)
      ensures forall n :: n != node && old(Timed(n)) ==> Timed(n)
    {
      if node in handles {
        armed := armed - {handles[node].handle};
        handles := handles - {node};
      }
    }

    /** Overwrites the node's row with its verdict, unless the write is lost. */
    method RecordNodeCompleted(node: string, written: bool)
      requires Mirror({node})
      requires node in run.statuses ==> run.statuses[node].Terminal()
      modifies this`rows, this`lostRows
      ensures Mirror({})
      ensures lostRows == (old(lostRows) || !written)
      ensures rows == if written then RecordRun(old(rows), node, Has(run.statuses, node, Success)) else old(rows)
    {
      var success := node in run.statuses && run.statuses[node] == Success;
      TracksVerdict(rows, run.statuses, tracked, node, Exact());
      if written {
        rows := RecordRun(rows, node, success);
      } else {
        lostRows := true;
      }
    }

    method RecordNodeDispatched(node: string, written: bool)
      requires Mirror({node}) && Has(run.statuses, node, Running)
      requires node in tracked && Exact() ==> node !in rows
      modifies this`rows, this`lostRows
      ensures Mirror({})
      ensures lostRows == (old(lostRows) || !written)
      ensures rows == if written then RecordDispatched(old(rows), node) else old(rows)
    {
      TracksDispatch(rows, run.statuses, tracked, node, Exact());
      if written {
        rows := RecordDispatched(rows, node);
      } else {
        lostRows := true;
      }
    }

    // ---------- dispatching ----------

    /** The dispatch call, with the answer it gets: allowed only when the node is ready in memory
        and in the stored copy. */
    method AskCluster(node: string, taken: bool)
      requires TraceValid() && node in Names(pipeline)
      requires node in Ready() && node in ReadyNodes(durable, run.dependencies)
      modifies this`trace, this`calls, this`asked, this`setbacks
      ensures calls == old(calls) + [(node, taken)] == P.Calls(trace)
      ensures P.Legal(origin, run.dependencies, trace) && P.Stored(origin, trace) == durable
      ensures P.Memory(origin, trace) == run.statuses[node := if taken then Running else Failed]
      ensures firstVersion + P.AcceptedSaves(trace) == stateVersion
      ensures asked == P.Asked(trace) == old(asked) + {node}
      ensures setbacks == Setbacks(trace) == old(setbacks) + if taken then 0 else 1
    {
      Log(P.Dispatch(node, taken));
      calls := calls + [(node, taken)];
    }

    /** Calls the cluster for a ready node, where the pipeline defines it, and marks the node after
        the answer. */
    method MarkAttempt(node: string, taken: bool)
      requires TraceValid() && SuccessStored(run.statuses, durable) && node in Ready()
      requires taken ==> node in Names(pipeline)
      modifies this`trace, this`calls, this`asked, this`setbacks, run`statuses
      ensures TraceValid()
      ensures run.statuses == old(run.statuses)[node := if taken then Running else Failed]
      ensures setbacks == old(setbacks) + if taken then 0 else 1
      ensures asked == old(asked) + if node in Names(pipeline) then {node} else {}
      ensures calls == if node in Names(pipeline) then old(calls) + [(node, taken)] else old(calls)
    {
      P.StoredIsBehind(origin, trace);
      ReadyIsDurable(run.statuses, durable, run.dependencies, node);
      if node !in Names(pipeline) {
        Log(P.Undefined(node));
        var _ := run.MarkDispatchFailed(node);
        return;
      }
      AskCluster(node, taken);
      if taken {
        var _ := run.MarkRunning(node);
      } else {
        var _ := run.MarkDispatchFailed(node);
      }
    }

    method AttemptAndSave(node: string, taken: bool, accepted: bool)
      requires TraceValid() && SuccessStored(run.statuses, durable) && node in Ready()
      requires taken ==> node in Names(pipeline)
      modifies this`stateVersion, this`durable, this`trace, this`calls, this`asked, this`setbacks, run`statuses
      ensures TraceValid() && SuccessStored(run.statuses, durable)
      ensures run.statuses == old(run.statuses)[node := if taken then Running else Failed]
      ensures setbacks == old(setbacks) + (if taken then 0 else 1) + if accepted then 0 else 1
      ensures asked == old(asked) + if node in Names(pipeline) then {node} else {}
      ensures calls == if node in Names(pipeline) then old(calls) + [(node, taken)] else old(calls)
      ensures stateVersion == old(stateVersion) + if accepted then 1 else 0
      ensures durable == if accepted then run.statuses else old(durable)
    {
      MarkAttempt(node, taken);
      SaveAnswered(accepted);
    }

    method RecordAttempt(node: string, taken: bool, written: bool)
      requires Mirror({node}) && Has(run.statuses, node, if taken then Running else Failed)
      requires node in tracked && Exact() ==> node !in rows
      modifies this`rows, this`lostRows
      ensures Mirror({})
      ensures lostRows == (old(lostRows) || !written)
      ensures rows == if !written then old(rows)
        else if taken then RecordDispatched(old(rows), node) else RecordRun(old(rows), node, false)
    {
      if taken {
        RecordNodeDispatched(node, written);
      } else {
        RecordNodeCompleted(node, written);
      }
    }

    method SaveAndRecordAttempt(node: string, taken: bool, accepted: bool, written: bool)
      requires TraceValid() && SuccessStored(run.statuses, durable) && Mirror({}) && node in Ready()
      requires taken ==> node in Names(pipeline)
      modifies this`stateVersion, this`durable, this`trace, this`calls, this`asked, this`setbacks
      modifies this`rows, this`lostRows, run`statuses
      ensures TraceValid() && SuccessStored(run.statuses, durable) && Mirror({})
      ensures run.statuses == old(run.statuses)[node := if taken then Running else Failed]
      ensures setbacks == old(setbacks) + (if taken then 0 else 1) + if accepted then 0 else 1
      ensures asked == old(asked) + if node in Names(pipeline) then {node} else {}
      ensures calls == if node in Names(pipeline) then old(calls) + [(node, taken)] else old(calls)
      ensures stateVersion == old(stateVersion) + if accepted then 1 else 0
      ensures durable == if accepted then run.statuses else old(durable)
      ensures lostRows == (old(lostRows) || !written)
      ensures rows == if !written then old(rows)
        else if taken then RecordDispatched(old(rows), node) else RecordRun(old(rows), node, false)
    {
      TracksMove(rows, run.statuses, tracked, node, if taken then Running else Failed, Exact());
      AttemptAndSave(node, taken, accepted);
      RecordAttempt(node, taken, written);
    }

    /** What follows the attempt to start a node, for given answers of the cluster, the store and
        the table. A refused save is only logged: everything goes on as after an accepted one. */
    method DispatchAnswered(node: string, taken: bool, accepted: bool, written: bool)
      requires Steady() && node in Ready()
      requires taken ==> node in Names(pipeline)
      modifies this`stateVersion, this`durable, this`trace, this`calls, this`asked, this`setbacks
      modifies this`handles, this`armed, this`nextHandle
      modifies this`rows, this`lostRows, run`statuses
      ensures Steady() && TimersKept()
      ensures run.statuses == old(run.statuses)[node := if taken then Running else Failed]
      ensures setbacks == old(setbacks) + (if taken then 0 else 1) + if accepted then 0 else 1
      ensures asked == old(asked) + if node in Names(pipeline) then {node} else {}
      ensures calls == if node in Names(pipeline) then old(calls) + [(node, taken)] else old(calls)
      ensures stateVersion == old(stateVersion) + if accepted then 1 else 0
      ensures durable == if accepted then run.statuses else old(durable)
      ensures lostRows == (old(lostRows) || !written)
      ensures rows == if !written then old(rows)
        else if taken then RecordDispatched(old(rows), node) else RecordRun(old(rows), node, false)
      ensures handles == if taken then old(handles)[node := PhaseTimer(Startup, old(nextHandle))] else old(handles)
      ensures armed == if taken then old(armed)[old(nextHandle) := Task(node, Startup)] else old(armed)
    {
      hide TraceValid;
      SaveAndRecordAttempt(node, taken, accepted, written);
      if taken {
        SpawnTimeout(node, Startup);
      }
    }

    /** One turn of the dispatch loop. */
    method TryDispatch(node: string) returns (taken: bool)
      requires Steady() && node in Ready()
      modifies this`stateVersion, this`durable, this`trace, this`calls, this`asked, this`setbacks
      modifies this`handles, this`armed, this`nextHandle
      modifies this`rows, this`lostRows, run`statuses
      ensures Steady()
      ensures run.statuses == old(run.statuses)[node := if taken then Running else Failed]
      ensures setbacks >= old(setbacks) + if taken then 0 else 1
      ensures asked == old(asked) + if node in Names(pipeline) then {node} else {}
      ensures calls == if node in Names(pipeline) then old(calls) + [(node, taken)] else old(calls)
      ensures stateVersion >= old(stateVersion)
      ensures handles == if taken then old(handles)[node := PhaseTimer(Startup, old(nextHandle))] else old(handles)
      ensures armed == if taken then old(armed)[old(nextHandle) := Task(node, Startup)] else old(armed)
      ensures old(lostRows) ==> lostRows
    {
      taken := false;
      if node in Names(pipeline) {
        taken := *;
      }
      var accepted, written := *, *;
      DispatchAnswered(node, taken, accepted, written);
    }

    /** A dispatch round that began with `before` and has tried `tried`, of which `started` run. */
    ghost predicate RoundSoFar(
        before: Statuses, handles0: map<string, PhaseTimer>, armed0: map<nat, Task>, asked0: set<string>,
        tried: set<string>, started: set<string>)
      reads this, run
    {
      && Steady()
      && started <= tried <= ReadyNodes(before, run.dependencies)
      && run.statuses == AfterDispatch(before, tried, started)
      && asked == AskedAfter(asked0, tried, pipeline)
      && TimersAfterDispatch(handles0, armed0, handles, armed, started)
    }

    method DispatchOne(
        node: string, ghost before: Statuses, ghost handles0: map<string, PhaseTimer>,
        ghost armed0: map<nat, Task>, ghost asked0: set<string>, ghost tried: set<string>, ghost started: set<string>)
      returns (ghost running: set<string>)
      requires RoundSoFar(before, handles0, armed0, asked0, tried, started)
      requires node in ReadyNodes(before, run.dependencies) && node !in tried
      modifies this`stateVersion, this`durable, this`trace, this`calls, this`asked, this`setbacks
      modifies this`handles, this`armed, this`nextHandle
      modifies this`rows, this`lostRows, run`statuses
      ensures RoundSoFar(before, handles0, armed0, asked0, tried + {node}, running)
      ensures started <= running <= started + {node}
      ensures setbacks == old(setbacks) ==> node in running
      ensures stateVersion >= old(stateVersion) && setbacks >= old(setbacks)
      ensures old(lostRows) ==> lostRows
    {
      StillReady(before, run.dependencies, tried, started, node);
      OneMoreTimer(handles0, armed0, handles, armed, started, node, nextHandle);
      var taken := TryDispatch(node);
      running := if taken then started + {node} else started;
      DispatchStep(before, tried, started, node, taken);
    }

    method DispatchInOrder(order: seq<string>) returns (ghost started: set<string>)
      requires Steady() && Elements(order) == Ready() && Distinct(order)
      modifies this`stateVersion, this`durable, this`trace, this`calls, this`asked, this`setbacks
      modifies this`handles, this`armed, this`nextHandle
      modifies this`rows, this`lostRows, run`statuses
      ensures RoundSoFar(old(run.statuses), old(handles), old(armed), old(asked), old(Ready()), started)
      ensures stateVersion >= old(stateVersion) && setbacks >= old(setbacks)
      ensures setbacks == old(setbacks) ==> started == old(Ready())
      ensures old(lostRows) ==> lostRows
    {
      hide TraceValid;
      ghost var before := run.statuses;
      started := {};
      for i := 0 to |order|
        invariant RoundSoFar(before, old(handles), old(armed), old(asked), Elements(order[..i]), started)
        invariant stateVersion >= old(stateVersion) && setbacks >= old(setbacks)
        invariant setbacks == old(setbacks) ==> started == Elements(order[..i])
        invariant old(lostRows) ==> lostRows
      {
        PrefixGrows(order, i);
        started := DispatchOne(order[i], before, old(handles), old(armed), old(asked), Elements(order[..i]), started);
      }
      assert order[..|order|] == order;
    }

    /** Tries every node that is ready on entry, in any order. Whatever the cluster and the
        store answer, afterwards no node is ready and every started node has a startup timer. */
    method DispatchReadyNodes() returns (ghost started: set<string>)
      requires Steady()
      modifies this`stateVersion, this`durable, this`trace, this`calls, this`asked, this`setbacks
      modifies this`handles, this`armed, this`nextHandle
      modifies this`rows, this`lostRows, run`statuses
      ensures Steady()
      ensures started <= old(Ready())
      ensures run.statuses == AfterDispatch(old(run.statuses), old(Ready()), started)
      ensures Ready() == {}
      ensures stateVersion >= old(stateVersion) && setbacks >= old(setbacks)
      ensures setbacks == old(setbacks) ==> started == old(Ready())
      ensures asked == AskedAfter(old(asked), old(Ready()), pipeline)
      ensures TimersKept()
      ensures TimersAfterDispatch(old(handles), old(armed), handles, armed, started)
      ensures old(lostRows) ==> lostRows
    {
      ghost var before := run.statuses;
      var order := InAnyOrder(ReadyNodes(run.statuses, run.dependencies));
      started := DispatchInOrder(order);
      NothingReadyAfterDispatch(before, run.dependencies, started);
      DispatchKeepsWatch(before, old(handles), old(armed), run.statuses, handles, armed, queue, started);
    }

    // ---------- handlers ----------

    /** What follows an accepted verdict: its row, then either the fail-fast stop or a dispatch round. */
    method FollowUp(node: string, failed: bool) returns (stop: bool)
      requires TraceValid() && TimersOk(handles, armed, nextHandle) && SuccessStored(run.statuses, durable)
      requires Mirror({node}) && durable == run.statuses
      requires node in run.statuses ==> run.statuses[node].Terminal()
      modifies this`stateVersion, this`durable, this`trace, this`calls, this`asked, this`setbacks
      modifies this`handles, this`armed, this`nextHandle
      modifies this`rows, this`lostRows, run`statuses
      ensures TraceValid() && TimersOk(handles, armed, nextHandle) && Mirror({})
      ensures stateVersion >= old(stateVersion) && setbacks >= old(setbacks)
      ensures stop <==> failed && failFast
      ensures stop ==> run.statuses == old(run.statuses)
      ensures node in handles <==> node in old(handles)
      ensures asked == if stop then old(asked) else AskedAfter(old(asked), old(Ready()), pipeline)
      ensures !stop ==> Steady() && Ready() == {} && TimersKept()
      ensures !stop ==> DispatchedFrom(old(run.statuses), run.dependencies, run.statuses)
      ensures !stop && setbacks == old(setbacks) ==> run.statuses == Advance(old(run.statuses), run.dependencies)
    {
      hide TraceValid;
      var written := *;
      RecordNodeCompleted(node, written);
      if failed && failFast {
        return true;
      }
      var _ := DispatchReadyNodes();
      return false;
    }

    /** A node just failed in memory: save, ask for its pod to be deleted, and follow up. */
    method SaveFailure(node: string) returns (stop: bool)
      requires TraceValid() && TimersOk(handles, armed, nextHandle) && SuccessStored(run.statuses, durable)
      requires Mirror({node}) && Has(run.statuses, node, Failed)
      modifies this`stateVersion, this`durable, this`trace, this`calls, this`asked, this`setbacks
      modifies this`handles, this`armed, this`nextHandle
      modifies this`rows, this`lostRows, this`cancelled, run`statuses
      ensures TraceValid() && TimersOk(handles, armed, nextHandle)
      ensures setbacks >= old(setbacks) && (stop && setbacks == old(setbacks) ==> failFast)
      ensures node in handles <==> node in old(handles)
      ensures asked == if stop then old(asked) else AskedAfter(old(asked), old(Ready()), pipeline)
      ensures stop <==> stateVersion == old(stateVersion) || failFast
      ensures stop ==> run.statuses == old(run.statuses)
      ensures cancelled == if stateVersion == old(stateVersion) then old(cancelled) else old(cancelled) + {node}
      ensures !stop ==> Steady() && Ready() == {} && TimersKept()
      ensures !stop ==> DispatchedFrom(old(run.statuses), run.dependencies, run.statuses)
    {
      hide TraceValid;
      var accepted := PersistState();
      if !accepted {
        return true;
      }
      cancelled := cancelled + {node};
      stop := FollowUp(node, true);
    }

    /** Takes a verdict and saves it, for a given answer of the store. */
    method SaveVerdict(node: string, success: bool, accepted: bool)
      requires Steady()
      modifies this`stateVersion, this`durable, this`trace, this`asked, this`setbacks, run`statuses
      ensures TraceValid() && Mirror({node}) && asked == old(asked)
      ensures run.statuses == Judged(old(run.statuses), node, success)
      ensures accepted ==> SuccessStored(run.statuses, durable)
      ensures setbacks == old(setbacks) + if accepted then 0 else 1
      ensures stateVersion == old(stateVersion) + if accepted then 1 else 0
      ensures durable == if accepted then run.statuses else old(durable)
    {
      TracksJudged(rows, run.statuses, tracked, node, success, Exact());
      var _ := Judge(node, success);
      SaveAnswered(accepted);
    }

    /** A completion, from the backplane or read from the node's status file. The verdict is
        saved before anything is dispatched on the strength of it. The run stops if and only if
        that save was refused, which is when the version stays, or fail-fast applies. */
    method HandleNodeCompleted(node: string, success: bool) returns (stop: bool)
      requires Steady()
      modifies this`stateVersion, this`durable, this`trace, this`calls, this`asked, this`setbacks
      modifies this`handles, this`armed, this`nextHandle
      modifies this`rows, this`lostRows, run`statuses
      ensures TraceValid() && TimersOk(handles, armed, nextHandle)
      ensures setbacks >= old(setbacks)
      ensures node in handles <==> node in old(handles)
      ensures stop ==> run.statuses == Judged(old(run.statuses), node, success)
      ensures stop <==> stateVersion == old(stateVersion) || (!success && failFast)
      ensures stop && setbacks == old(setbacks) ==> !success && failFast
      ensures asked == if stop then old(asked)
        else AskedAfter(old(asked), ReadyNodes(Judged(old(run.statuses), node, success), run.dependencies), pipeline)
      ensures !stop ==> Steady() && Ready() == {} && TimersKept()
      ensures !stop ==> DispatchedFrom(Judged(old(run.statuses), node, success), run.dependencies, run.statuses)
      ensures !stop && setbacks == old(setbacks) ==>
        run.statuses == Advance(Judged(old(run.statuses), node, success), run.dependencies)
    {
      hide TraceValid;
      var accepted := *;
      SaveVerdict(node, success, accepted);
      if !accepted {
        return true;
      }
      stop := FollowUp(node, !success);
    }

    /** The event's own timer is cancelled first. */
    method CompleteNode(node: string, success: bool) returns (stop: bool)
      requires Steady()
      modifies this`stateVersion, this`durable, this`trace, this`calls, this`asked, this`setbacks
      modifies this`handles, this`armed, this`nextHandle
      modifies this`rows, this`lostRows, run`statuses
      ensures TraceValid() && TimersOk(handles, armed, nextHandle)
      ensures setbacks >= old(setbacks)
      ensures node !in handles
      ensures stop ==> run.statuses == Judged(old(run.statuses), node, success)
      ensures stop <==> stateVersion == old(stateVersion) || (!success && failFast)
      ensures stop && setbacks == old(setbacks) ==> !success && failFast
      ensures asked == if stop then old(asked)
        else AskedAfter(old(asked), ReadyNodes(Judged(old(run.statuses), node, success), run.dependencies), pipeline)
      ensures !stop ==> Steady() && Ready() == {} && TimersKept()
      ensures !stop ==> DispatchedFrom(Judged(old(run.statuses), node, success), run.dependencies, run.statuses)
      ensures !stop && setbacks == old(setbacks) ==>
        run.statuses == Advance(Judged(old(run.statuses), node, success), run.dependencies)
      ensures Below(old(run.statuses), run.statuses)
      ensures node in run.statuses ==> run.statuses[node].Terminal()
      ensures node in old(Open(run.statuses)) ==> Has(run.statuses, node, if success then Success else Failed)
    {
      hide TraceValid;
      CancelNodeTimeout(node);
      stop := HandleNodeCompleted(node, success);
      if !stop {
        DispatchedFromIsBelow(old(run.statuses), node, success, run.dependencies, run.statuses);
      }
    }

    method FailInMemory(node: string)
      requires TraceValid() && SuccessStored(run.statuses, durable) && Mirror({}) && node in Open(run.statuses)
      modifies this`trace, this`asked, this`setbacks, run`statuses
      ensures TraceValid() && SuccessStored(run.statuses, durable) && Mirror({node})
      ensures run.statuses == old(run.statuses)[node := Failed] == Judged(old(run.statuses), node, false)
      ensures setbacks == old(setbacks) && asked == old(asked)
    {
      TracksJudged(rows, run.statuses, tracked, node, false, Exact());
      var _ := Judge(node, false);
    }

    method MarkOpenFailed(node: string, cancelTimer: bool)
      requires Steady() && node in Open(run.statuses)
      modifies this`trace, this`asked, this`setbacks, this`handles, this`armed, run`statuses
      ensures TraceValid() && TimersOk(handles, armed, nextHandle) && TimersKept()
      ensures SuccessStored(run.statuses, durable) && Mirror({node})
      ensures run.statuses == old(run.statuses)[node := Failed] == Judged(old(run.statuses), node, false)
      ensures setbacks == old(setbacks) && asked == old(asked)
      ensures node in handles <==> node in old(handles) && !cancelTimer
    {
      hide TraceValid;
      FailInMemory(node);
      if cancelTimer {
        CancelNodeTimeout(node);
      }
    }

    method FailOpenNode(node: string, cancelTimer: bool) returns (stop: bool)
      requires Steady() && node in Open(run.statuses)
      modifies this`stateVersion, this`durable, this`trace, this`calls, this`asked, this`setbacks
      modifies this`handles, this`armed, this`nextHandle
      modifies this`rows, this`lostRows, this`cancelled, run`statuses
      ensures TraceValid() && TimersOk(handles, armed, nextHandle)
      ensures setbacks >= old(setbacks) && (stop && setbacks == old(setbacks) ==> failFast)
      ensures node in handles <==> node in old(handles) && !cancelTimer
      ensures stop ==> run.statuses == Judged(old(run.statuses), node, false)
      ensures stop <==> stateVersion == old(stateVersion) || failFast
      ensures cancelled == if stateVersion == old(stateVersion) then old(cancelled) else old(cancelled) + {node}
      ensures asked == if stop then old(asked)
        else AskedAfter(old(asked), ReadyNodes(Judged(old(run.statuses), node, false), run.dependencies), pipeline)
      ensures !stop ==> Steady() && Ready() == {} && TimersKept()
      ensures !stop ==> DispatchedFrom(Judged(old(run.statuses), node, false), run.dependencies, run.statuses)
      ensures Below(old(run.statuses), run.statuses)
    {
      hide TraceValid;
      MarkOpenFailed(node, cancelTimer);
      ghost var s1, h1, a1 := run.statuses, handles, armed;
      stop := SaveFailure(node);
      if !stop {
        DispatchedFromIsBelow(old(run.statuses), node, false, run.dependencies, run.statuses);
        WatchKeptTwice(old(run.statuses), old(handles), old(armed), queue, s1, h1, a1, queue,
                       run.statuses, handles, armed, queue);
      }
    }

    /** An infrastructure failure: ignored for a node that has its verdict or is unknown. */
    method HandleNodeInfraFailed(node: string) returns (stop: bool)
      requires Steady()
      modifies this`stateVersion, this`durable, this`trace, this`calls, this`asked, this`setbacks
      modifies this`handles, this`armed, this`nextHandle
      modifies this`rows, this`lostRows, this`cancelled, run`statuses
      ensures TraceValid() && TimersOk(handles, armed, nextHandle)
      ensures setbacks >= old(setbacks) && (stop && setbacks == old(setbacks) ==> failFast)
      ensures node in old(Open(run.statuses)) ==> node !in handles
      ensures stop ==> run.statuses == Judged(old(run.statuses), node, false)
      ensures !stop ==> Steady() && TimersKept()
      ensures node in old(Open(run.statuses)) ==> (stop <==> stateVersion == old(stateVersion) || failFast)
      ensures node in old(Open(run.statuses)) ==>
        cancelled == if stateVersion == old(stateVersion) then old(cancelled) else old(cancelled) + {node}
      ensures node in old(Open(run.statuses)) && !stop ==>
        && Ready() == {}
        && DispatchedFrom(Judged(old(run.statuses), node, false), run.dependencies, run.statuses)
        && asked == AskedAfter(
             old(asked), ReadyNodes(Judged(old(run.statuses), node, false), run.dependencies), pipeline)
      ensures stop ==> asked == old(asked)
      ensures node !in old(Open(run.statuses)) ==> !stop && unchanged(this) && unchanged(run)
      ensures Below(old(run.statuses), run.statuses)
    {
      if node in run.statuses && run.statuses[node].Terminal() {
        return false;
      }
      if node !in run.statuses {
        return false;
      }
      stop := FailOpenNode(node, true);
    }

    /** A runtime timeout: the node fails unless it already has its verdict. Its timer has fired. */
    method HandleNodeTimedOut(node: string) returns (stop: bool)
      requires Steady()
      modifies this`stateVersion, this`durable, this`trace, this`calls, this`asked, this`setbacks
      modifies this`handles, this`armed, this`nextHandle
      modifies this`rows, this`lostRows, this`cancelled, run`statuses
      ensures TraceValid() && TimersOk(handles, armed, nextHandle)
      ensures setbacks >= old(setbacks) && (stop && setbacks == old(setbacks) ==> failFast)
      ensures stop ==> run.statuses == Judged(old(run.statuses), node, false)
      ensures !stop ==> Steady() && TimersKept()
      ensures node in old(Open(run.statuses)) ==> (stop <==> stateVersion == old(stateVersion) || failFast)
      ensures node in old(Open(run.statuses)) ==>
        cancelled == if stateVersion == old(stateVersion) then old(cancelled) else old(cancelled) + {node}
      ensures node in old(Open(run.statuses)) && !stop ==>
        && Ready() == {}
        && DispatchedFrom(Judged(old(run.statuses), node, false), run.dependencies, run.statuses)
        && asked == AskedAfter(
             old(asked), ReadyNodes(Judged(old(run.statuses), node, false), run.dependencies), pipeline)
      ensures stop ==> asked == old(asked)
      ensures node in handles <==> node in old(handles)
      ensures node !in old(Open(run.statuses)) ==> !stop && unchanged(this) && unchanged(run)
      ensures Below(old(run.statuses), run.statuses)
    {
      if node !in run.statuses || run.statuses[node].Terminal() {
        return false;
      }
      stop := FailOpenNode(node, false);
    }

    /** The pod runs: the startup timer gives way to a runtime timer; a runtime timer stays. */
    method HandlePodRunning(node: string)
      requires TimersOk(handles, armed, nextHandle)
      modifies this`handles, this`armed, this`nextHandle
      ensures TimersOk(handles, armed, nextHandle)
      ensures node in old(handles) && old(handles)[node].phase == Runtime ==>
        handles == old(handles) && armed == old(armed)
      ensures !(node in old(handles) && old(handles)[node].phase == Runtime) ==>
        && handles == old(handles)[node := PhaseTimer(Runtime, old(nextHandle))] && Timed(node)
        && (node in old(handles) ==> old(handles)[node].handle !in armed)
      ensures TimersKept()
    {
      if node in handles && handles[node].phase == Runtime {
        return;
      }
      CancelNodeTimeout(node);
      SpawnTimeout(node, Runtime);
    }

    /** What a pass has done after folding the completions in `folded`; `clean` while every
        answer so far was favourable. */
    ghost predicate FoldedSoFar(
        before: Statuses, handles0: map<string, PhaseTimer>, armed0: map<nat, Task>,
        folded: map<string, bool>, clean: bool)
      reads this, run
    {
      && Steady() && Below(before, run.statuses)
      && WatchKept(before, handles0, armed0, queue, run.statuses, handles, armed, queue)
      && (if folded == map[] then run.statuses == before else Ready() == {})
      && AllTerminal(run.statuses, folded.Keys)
      && (clean && folded != map[] ==> run.statuses == Settled(before, run.dependencies, folded))
    }

    method FoldOne(
        node: string, success: bool, ghost before: Statuses, ghost handles0: map<string, PhaseTimer>,
        ghost armed0: map<nat, Task>, ghost folded: map<string, bool>, ghost clean: bool)
      returns (stop: bool)
      requires FoldedSoFar(before, handles0, armed0, folded, clean) && node !in folded
      modifies this`stateVersion, this`durable, this`trace, this`calls, this`asked, this`setbacks
      modifies this`handles, this`armed, this`nextHandle
      modifies this`rows, this`lostRows, run`statuses
      ensures TraceValid() && TimersOk(handles, armed, nextHandle)
      ensures setbacks >= old(setbacks) && Below(before, run.statuses) && Below(old(run.statuses), run.statuses)
      ensures var judged := Judged(old(run.statuses), node, success);
        if stop then run.statuses == judged && asked == old(asked)
        else DispatchedFrom(judged, run.dependencies, run.statuses)
             && asked == AskedAfter(old(asked), ReadyNodes(judged, run.dependencies), pipeline)
      ensures stop && setbacks == old(setbacks) ==> failFast && !success
      ensures !stop ==>
        FoldedSoFar(before, handles0, armed0, folded[node := success], clean && setbacks == old(setbacks))
    {
      hide TraceValid;
      stop := CompleteNode(node, success);
      BelowTransitive(before, old(run.statuses), run.statuses);
      if !stop {
        if clean {
          SettleOneMore(before, run.dependencies, folded, old(run.statuses), node, success);
        }
        WatchKeptTwice(before, handles0, armed0, queue, old(run.statuses), old(handles), old(armed), queue,
                       run.statuses, handles, armed, queue);
        VerdictsStay(old(run.statuses), run.statuses, folded.Keys, node);
        assert folded[node := success].Keys == folded.Keys + {node};
      }
    }

    method FoldNext(
        node: string, outcomes: map<string, ReconcileResult>, ghost before: Statuses,
        ghost handles0: map<string, PhaseTimer>, ghost armed0: map<nat, Task>, ghost asked0: set<string>,
        ghost folded: map<string, bool>, ghost clean: bool)
      returns (stop: bool)
      requires FoldedSoFar(before, handles0, armed0, folded, clean)
      requires Completes(outcomes, node) && node !in folded
      requires AskedBy(before, asked0, pipeline, VerdictsIn(outcomes).Keys, run.statuses, asked)
      requires PassMade(before, outcomes, folded.Keys, asked0, pipeline, run.statuses, asked)
      modifies this`stateVersion, this`durable, this`trace, this`calls, this`asked, this`setbacks
      modifies this`handles, this`armed, this`nextHandle
      modifies this`rows, this`lostRows, run`statuses
      ensures TraceValid() && TimersOk(handles, armed, nextHandle)
      ensures setbacks >= old(setbacks) && Below(before, run.statuses)
      ensures AskedBy(before, asked0, pipeline, VerdictsIn(outcomes).Keys, run.statuses, asked)
      ensures PassMade(before, outcomes, folded.Keys + {node}, asked0, pipeline, run.statuses, asked)
      ensures stop ==> setbacks > old(setbacks) || (failFast && !outcomes[node].success)
      ensures !stop ==>
        FoldedSoFar(
          before, handles0, armed0, folded[node := outcomes[node].success], clean && setbacks == old(setbacks))
    {
      hide TraceValid, PassMade, AskedBy, FoldedSoFar;
      stop := FoldOne(node, outcomes[node].success, before, handles0, armed0, folded, clean);
      AskedMore(before, asked0, pipeline, VerdictsIn(outcomes).Keys, old(run.statuses), old(asked), node,
                outcomes[node].success, run.dependencies, run.statuses, asked);
      PassMadeMore(before, outcomes, folded.Keys, asked0, pipeline, old(run.statuses), old(asked), node,
                   run.dependencies, run.statuses, asked);
    }

    lemma NothingFoldedYet()
      requires TraceValid()
      ensures forall n :: n in asked ==> !Has(run.statuses, n, Pending)
    {
      forall n | n in asked
        ensures !Has(run.statuses, n, Pending)
      {
        P.AskedIsNotPending(origin, run.dependencies, trace, n);
      }
    }

    /** Folds every completion read from the status files, in any order. With favourable
        answers the result is the closed form, whatever the order. A node without a verdict of
        its own is dispatched exactly when it leaves Pending. `done` are the nodes folded; when the
        pass is stopped, `last` is the one it stopped at, judged like the others. */
    method FoldCompletions(outcomes: map<string, ReconcileResult>)
      returns (stop: bool, ghost done: set<string>, ghost last: Option<string>)
      requires Steady()
      modifies this`stateVersion, this`durable, this`trace, this`calls, this`asked, this`setbacks
      modifies this`handles, this`armed, this`nextHandle
      modifies this`rows, this`lostRows, run`statuses
      ensures TraceValid() && TimersOk(handles, armed, nextHandle)
      ensures !stop ==> Steady() && TimersKept()
      ensures !stop && VerdictsIn(outcomes) != map[] ==> Ready() == {}
      ensures !stop && VerdictsIn(outcomes) != map[] && setbacks == old(setbacks) ==>
        run.statuses == Settled(old(run.statuses), run.dependencies, VerdictsIn(outcomes))
      ensures VerdictsIn(outcomes) == map[] ==> !stop && run.statuses == old(run.statuses)
      ensures PassMade(old(run.statuses), outcomes, done, old(asked), pipeline, run.statuses, asked)
      ensures !stop ==> last.None? && forall n :: Completes(outcomes, n) ==> n in done
      ensures stop ==> last.Some? && last.value in done && Completes(outcomes, last.value)
      ensures stop ==> setbacks > old(setbacks) || (failFast && !outcomes[last.value].success)
      ensures setbacks >= old(setbacks)
      ensures AskedBy(old(run.statuses), old(asked), pipeline, VerdictsIn(outcomes).Keys, run.statuses, asked)
      ensures VerdictsIn(outcomes) == map[] ==> asked == old(asked)
      ensures Below(old(run.statuses), run.statuses)
      ensures stop && setbacks == old(setbacks) ==> failFast
    {
      hide TraceValid, PassMade, AskedBy;
      ghost var before := run.statuses;
      ghost var folded: map<string, bool> := map[];
      done, last := {}, None;
      NothingFoldedYet();
      PassBegins(before, outcomes, asked, pipeline);
      var todo := outcomes.Keys;
      while todo != {}
        invariant todo <= outcomes.Keys
        invariant folded == VerdictsOutside(outcomes, todo)
        invariant FoldedSoFar(before, old(handles), old(armed), folded, setbacks == old(setbacks))
        invariant setbacks >= old(setbacks)
        invariant AskedBy(before, old(asked), pipeline, VerdictsIn(outcomes).Keys, run.statuses, asked)
        invariant folded == map[] ==> asked == old(asked)
        invariant done == folded.Keys
        invariant PassMade(before, outcomes, done, old(asked), pipeline, run.statuses, asked)
        decreases todo
      {
        var node :| node in todo;
        VerdictsGrow(outcomes, todo, node);
        todo := todo - {node};
        if outcomes[node].Completed? {
          assert node in VerdictsIn(outcomes);
          stop := FoldNext(node, outcomes, before, old(handles), old(armed), old(asked), folded,
                           setbacks == old(setbacks));
          done := done + {node};
          if stop {
            last := Some(node);
            return;
          }
          folded := folded[node := outcomes[node].success];
        }
      }
      assert folded == VerdictsIn(outcomes);
      assert forall n :: Completes(outcomes, n) ==> n in VerdictsIn(outcomes);
      stop := false;
    }

    // ---------- taking over a stored run ----------

    method MarkPromoted(node: string)
      requires Steady() && isRehydrate && Has(run.statuses, node, Pending)
      modifies this`stateVersion, this`durable, this`trace, this`asked, this`setbacks, run`statuses
      ensures Steady() && asked == old(asked) && setbacks >= old(setbacks)
      ensures run.statuses == old(run.statuses)[node := Running]
    {
      TracksMove(rows, run.statuses, tracked, node, Running, false);
      TracksEverywhere(rows, run.statuses[node := Running], tracked, node);
      Log(P.Promotion(node));
      var _ := run.MarkRunning(node);
      var _ := PersistState();
    }

    method FailAbsent(node: string) returns (stop: bool)
      requires Steady() && Has(run.statuses, node, Running)
      modifies this`stateVersion, this`durable, this`trace, this`calls, this`asked, this`setbacks
      modifies this`handles, this`armed, this`nextHandle
      modifies this`rows, this`lostRows, this`cancelled, run`statuses
      ensures TraceValid() && TimersOk(handles, armed, nextHandle)
      ensures !stop ==> Steady() && Ready() == {}
      ensures NoMoreSuccess(old(run.statuses), run.statuses) && setbacks >= old(setbacks)
      ensures stop && setbacks == old(setbacks) ==> failFast
      ensures asked == if stop then old(asked) else AskedAfter(old(asked), old(Ready()), pipeline)
      ensures node !in handles && Has(run.statuses, node, Failed) && (stop || node in cancelled)
    {
      stop := HandleNodeInfraFailed(node);
      FailingUnlocksNothing(old(run.statuses), node, run.dependencies, run.statuses);
    }

    method PromoteOne(node: string) returns (stop: bool, ghost absent: bool)
      requires Steady() && isRehydrate && Has(run.statuses, node, Pending)
      modifies this`stateVersion, this`durable, this`trace, this`calls, this`asked, this`setbacks
      modifies this`handles, this`armed, this`nextHandle
      modifies this`rows, this`lostRows, this`cancelled, run`statuses
      ensures TraceValid() && TimersOk(handles, armed, nextHandle)
      ensures !stop ==> Steady()
      ensures NoMoreSuccess(old(run.statuses), run.statuses) && setbacks >= old(setbacks)
      ensures stop && setbacks == old(setbacks) ==> failFast
      ensures asked == if stop || !absent then old(asked) else AskedAfter(old(asked), old(Ready()) - {node}, pipeline)
      ensures absent && !stop ==> Ready() == {}
      ensures !absent ==> !stop && run.statuses == old(run.statuses)[node := Running]
      ensures absent ==> node !in handles && Has(run.statuses, node, Failed) && (stop || node in cancelled)
    {
      hide TraceValid;
      MarkPromoted(node);
      ghost var s1 := run.statuses;
      ReadyButPromoted(old(run.statuses), {}, node, run.dependencies);
      var podKnownAbsent := *;
      stop, absent := false, podKnownAbsent;
      if podKnownAbsent {
        stop := FailAbsent(node);
        BelowTransitive(old(run.statuses), s1, run.statuses);
      }
    }

    /** One turn of the promotion pass. */
    method PromoteNext(
        ghost before: Statuses, order: seq<string>, i: nat, ghost missing: Option<nat>, ghost asked0: set<string>)
      returns (stop: bool, ghost first: Option<nat>)
      requires Steady() && isRehydrate && i < |order| && Has(run.statuses, order[i], Pending)
      requires PromotedSoFar(before, order, i, missing, run.statuses)
      requires AskedSoFar(before, run.dependencies, order, missing, asked0, pipeline, asked)
      requires missing.Some? ==> Ready() == {}
      modifies this`stateVersion, this`durable, this`trace, this`calls, this`asked, this`setbacks
      modifies this`handles, this`armed, this`nextHandle
      modifies this`rows, this`lostRows, this`cancelled, run`statuses
      ensures TraceValid() && TimersOk(handles, armed, nextHandle)
      ensures !stop ==> Steady()
      ensures setbacks >= old(setbacks) && (stop && setbacks == old(setbacks) ==> failFast)
      ensures PromotedSoFar(before, order, i + 1, first, run.statuses) && (first.None? ==> !stop)
      ensures !stop ==> AskedSoFar(before, run.dependencies, order, first, asked0, pipeline, asked)
      ensures !stop && first.Some? ==> Ready() == {}
      ensures asked0 <= asked <= AskedAfter(asked0, ReadyNodes(before, run.dependencies), pipeline)
    {
      hide TraceValid;
      ghost var s1, asked1, gone := run.statuses, asked, false;
      stop, gone := PromoteOne(order[i]);
      first := if gone && missing.None? then Some(i) else missing;
      PromotedMore(before, order, i, missing, s1, run.statuses, gone);
      AskedOnce(before, run.dependencies, order, i, missing, s1, asked1, asked0, pipeline, gone, stop, asked);
      NothingNewReady(s1, run.statuses, run.dependencies);
    }

    /** Pending nodes that S3 shows started become Running without a dispatch; those without a
        pod fail. Afterwards no node that S3 shows started is Pending, so none is dispatched later.
        In the given order, the first missing pod makes the pass dispatch the nodes that were ready
        on entry and whose turn had not come; nothing else makes it dispatch anything. */
    method PromoteStarted(outcomes: map<string, ReconcileResult>, order: seq<string>)
      returns (stop: bool, ghost missing: Option<nat>)
      requires Steady() && isRehydrate
      requires Elements(order) == StartedElsewhere(run.statuses, outcomes) && Distinct(order)
      modifies this`stateVersion, this`durable, this`trace, this`calls, this`asked, this`setbacks
      modifies this`handles, this`armed, this`nextHandle
      modifies this`rows, this`lostRows, this`cancelled, run`statuses
      ensures TraceValid() && TimersOk(handles, armed, nextHandle)
      ensures !stop ==> Steady()
      ensures !stop ==> forall n :: n in outcomes && outcomes[n].InProgress? ==> !Has(run.statuses, n, Pending)
      ensures Below(old(run.statuses), run.statuses) && setbacks >= old(setbacks)
      ensures stop && setbacks == old(setbacks) ==> failFast
      ensures missing.Some? ==> missing.value < |order| && Has(run.statuses, order[missing.value], Failed)
      ensures missing.None? ==>
        !stop && asked == old(asked) && run.statuses == AsRunning(old(run.statuses), Elements(order))
      ensures missing.None? ==> forall n :: n in run.statuses ==>
        run.statuses[n] ==
          if n in outcomes && outcomes[n].InProgress? && old(run.statuses)[n] == Pending then Running
          else old(run.statuses)[n]
      ensures missing.Some? && !stop ==>
        asked == AskedAfter(old(asked), old(Ready()) - Elements(order[..missing.value + 1]), pipeline)
      ensures asked <= AskedAfter(old(asked), old(Ready()), pipeline) && old(asked) <= asked
    {
      hide TraceValid, PromotedSoFar, AskedSoFar, SuccessStored, Mirror, TimersOk;
      ghost var before := run.statuses;
      PromotionBegins(before, run.dependencies, outcomes, order, asked, pipeline);
      missing := None;
      for i := 0 to |order|
        invariant Steady() && setbacks >= old(setbacks)
        invariant PromotedSoFar(before, order, i, missing, run.statuses)
        invariant AskedSoFar(before, run.dependencies, order, missing, old(asked), pipeline, asked)
        invariant missing.Some? ==> Ready() == {}
      {
        if order[i] in run.statuses && run.statuses[order[i]] == Pending {
          stop, missing := PromoteNext(before, order, i, missing, old(asked));
          if stop {
            PromotionSays(before, run.dependencies, order, i + 1, missing, run.statuses, old(asked), pipeline, asked);
            return;
          }
        } else {
          AlreadyMoved(before, order, i, missing, run.statuses);
        }
      }
      PromotionSays(before, run.dependencies, order, |order|, missing, run.statuses, old(asked), pipeline, asked);
      NoneLeftPending(before, outcomes, order, missing, run.statuses);
      stop := false;
    }

    /** Re-arms a timer for every running node: the runtime timer when S3 shows it started or no
        dispatch time is known, the startup timer when only its dispatch row is. `readable` are the
        nodes whose row could be read. */
    method RehydratePhaseTimers(outcomes: map<string, ReconcileResult>, readable: set<string>)
      requires TimersOk(handles, armed, nextHandle)
      modifies this`handles, this`armed, this`nextHandle
      ensures TimersOk(handles, armed, nextHandle) && AllTimed()
      ensures forall n :: Has(run.statuses, n, Running) ==>
        && handles[n].handle in armed
        && (handles[n].phase == Startup <==>
              !(n in outcomes && outcomes[n].InProgress?) && n in readable && n in rows)
    {
      var todo := WithStatus(run.statuses, Running);
      while todo != {}
        invariant TimersOk(handles, armed, nextHandle)
        invariant forall n :: Has(run.statuses, n, Running) && n !in todo ==>
          && n in handles && handles[n].handle in armed
          && (handles[n].phase == Startup <==>
                !(n in outcomes && outcomes[n].InProgress?) && n in readable && n in rows)
        decreases todo
      {
        var node :| node in todo;
        todo := todo - {node};
        if node in outcomes && outcomes[node].InProgress? {
          SpawnTimeout(node, Runtime);
          continue;
        }
        SpawnTimeout(node, if node in readable && node in rows then Startup else Runtime);
      }
    }

    // ---------- ending ----------

    /** The final record of one Running node, for given answers: `success` is what S3 shows. */
    method FinalizeNode(node: string, success: bool, written: bool)
      requires TraceValid() && Has(run.statuses, node, Running)
      modifies this`trace, this`asked, this`setbacks, this`rows, this`lostRows, run`statuses
      ensures TraceValid() && asked == old(asked) && setbacks == old(setbacks)
      ensures lostRows == (old(lostRows) || !written)
      ensures run.statuses == old(run.statuses)[node := Failed] == Judged(old(run.statuses), node, false)
      ensures rows == if written then RecordRun(old(rows), node, success) else old(rows)
    {
      hide TraceValid;
      if written {
        rows := RecordRun(rows, node, success);
      } else {
        lostRows := true;
      }
      var _ := Judge(node, false);
    }

    /** Writes the final records. A node still Running gets the verdict S3 shows in its row, but
        counts as failed in memory. */
    method FinalizeRun(status: RunStatus)
      requires TraceValid()
      modifies this`trace, this`asked, this`setbacks, this`rows, this`lostRows, this`reported, run`statuses
      ensures TraceValid() && asked == old(asked) && setbacks == old(setbacks)
      ensures run.statuses == FailRunning(old(run.statuses))
      ensures WithStatus(run.statuses, Running) == {} && Below(old(run.statuses), run.statuses)
      ensures reported == old(reported) + [status]
      ensures lostRows || forall n :: Has(old(run.statuses), n, Running) ==> n in rows && rows[n].Some?
      ensures forall n :: n !in WithStatus(old(run.statuses), Running) ==>
        (n in rows <==> n in old(rows)) && (n in rows ==> rows[n] == old(rows)[n])
    {
      hide TraceValid;
      ghost var before := run.statuses;
      FailingEndsRunning(before);
      var todo := WithStatus(run.statuses, Running);
      while todo != {}
        invariant TraceValid() && asked == old(asked) && setbacks == old(setbacks)
        invariant lostRows || forall n :: n in WithStatus(before, Running) - todo ==> n in rows && rows[n].Some?
        invariant todo <= WithStatus(before, Running) && reported == old(reported)
        invariant run.statuses == FailRunningBut(before, todo)
        invariant forall n :: n !in WithStatus(before, Running) ==>
          (n in rows <==> n in old(rows)) && (n in rows ==> rows[n] == old(rows)[n])
        decreases todo
      {
        var node :| node in todo;
        FailOneMore(before, todo, node);
        todo := todo - {node};
        var success, written := *, *;
        FinalizeNode(node, success, written);
      }
      reported := reported + [status];
    }

    /** Releases the lease and deletes the stored state and the pods. */
    method Cleanup()
      modifies this`cleanedUp
      ensures cleanedUp
    {
      cleanedUp := true;
    }

    /** Cancels every node that is Running at this point, and drops all timers. */
    method TerminateRunningNodes(status: RunStatus) returns (summary: RunSummary)
      modifies this`handles, this`armed, this`cancelled
      ensures summary == RunSummary(status, run.statuses)
      ensures handles == map[] && forall n :: n in old(handles) ==> old(handles)[n].handle !in armed
      ensures cancelled == old(cancelled) + WithStatus(run.statuses, Running)
    {
      armed := armed - set n | n in handles :: handles[n].handle;
      handles := map[];
      cancelled := cancelled + WithStatus(run.statuses, Running);
      summary := RunSummary(status, run.statuses);
    }

    method BuildSummary(status: RunStatus) returns (summary: RunSummary)
      ensures summary == RunSummary(status, run.statuses)
    {
      summary := RunSummary(status, run.statuses);
    }

    /** The early exits. Finalization has already failed the running nodes, so the
        termination that follows finds none of them and asks for no deletion. */
    method StopEarly(status: RunStatus) returns (summary: RunSummary)
      requires TraceValid() && reported == [] && !cleanedUp && status != RunSuccess
      modifies this`trace, this`asked, this`setbacks, this`rows, this`lostRows, this`reported, this`cleanedUp
      modifies this`handles, this`armed, this`cancelled, run`statuses
      ensures Ended(summary) && cleanedUp && summary.status == status
      ensures asked == old(asked) && setbacks == old(setbacks)
      ensures summary.statuses == FailRunning(old(run.statuses))
      ensures Below(old(run.statuses), run.statuses)
      ensures cancelled == old(cancelled)
      ensures forall n :: n !in WithStatus(old(run.statuses), Running) ==>
        (n in rows <==> n in old(rows)) && (n in rows ==> rows[n] == old(rows)[n])
    {
      FinalizeRun(status);
      Cleanup();
      summary := TerminateRunningNodes(status);
    }

    method Finish() returns (summary: RunSummary)
      requires TraceValid() && reported == [] && !cleanedUp
      requires IsComplete(run.statuses, run.dependencies)
      modifies this`trace, this`asked, this`setbacks, this`rows, this`lostRows, this`reported, this`cleanedUp
      modifies this`handles, this`armed, this`cancelled, run`statuses
      ensures Ended(summary) && EndedWell(summary)
      ensures asked == old(asked) && setbacks == old(setbacks) && cancelled == old(cancelled)
      ensures summary == RunSummary(OutcomeStatus(old(run.statuses)), old(run.statuses))
      ensures Below(old(run.statuses), run.statuses)
    {
      var status := OutcomeStatus(run.statuses);
      FinalizeRun(status);
      assert run.statuses == old(run.statuses) by {
        forall n | n in old(run.statuses) ensures old(run.statuses)[n] != Running {
          assert n !in WithStatus(old(run.statuses), Running);
        }
      }
      Cleanup();
      summary := BuildSummary(status);
    }

    // ---------- the event loop ----------

    /** What every handler is followed by: the early exit, the regular end, or another wait. */
    method Conclude(stop: bool) returns (summary: Option<RunSummary>)
      requires TraceValid() && reported == [] && !cleanedUp
      requires !stop ==> Steady() && AllTimed() && Ready() == {}
      modifies this`trace, this`asked, this`setbacks, this`rows, this`lostRows, this`reported, this`cleanedUp
      modifies this`handles, this`armed, this`cancelled, run`statuses
      ensures summary.None? ==> LoopHead() && unchanged(this) && unchanged(run)
      ensures summary.Some? ==> Ended(summary.value) && cleanedUp
      ensures stop ==> summary == Some(RunSummary(RunFailure, FailRunning(old(run.statuses))))
      ensures run.statuses == if stop then FailRunning(old(run.statuses)) else old(run.statuses)
      ensures asked == old(asked) && setbacks == old(setbacks) && cancelled == old(cancelled)
      ensures !stop ==> (summary.None? <==> WithStatus(old(run.statuses), Running) != {})
      ensures !stop && summary.Some? ==> EndedWell(summary.value)
      ensures Below(old(run.statuses), run.statuses)
    {
      if stop {
        var s := StopEarly(RunFailure);
        return Some(s);
      }
      if WithStatus(run.statuses, Running) == {} && ReadyNodes(run.statuses, run.dependencies) == {} {
        var s := Finish();
        return Some(s);
      }
      return None;
    }

    method CompleteFromEvent(node: string, success: bool) returns (stop: bool)
      requires Steady() && AllTimed()
      modifies this`stateVersion, this`durable, this`trace, this`calls, this`asked, this`setbacks
      modifies this`handles, this`armed, this`nextHandle
      modifies this`rows, this`lostRows, run`statuses
      ensures TraceValid() && setbacks >= old(setbacks)
      ensures !stop ==> Steady() && AllTimed() && Ready() == {}
      ensures stop <==> stateVersion == old(stateVersion) || (!success && failFast)
      ensures node !in handles
      ensures stop && setbacks == old(setbacks) ==> failFast
      ensures var judged := Judged(old(run.statuses), node, success);
        if stop then run.statuses == judged else DispatchedFrom(judged, run.dependencies, run.statuses)
      ensures Below(old(run.statuses), run.statuses)
    {
      stop := CompleteNode(node, success);
      if !stop {
        StillAllWatched(old(run.statuses), old(handles), old(armed), run.statuses, handles, armed, queue, {});
      }
    }

    method OnCompleted(node: string, success: bool) returns (summary: Option<RunSummary>)
      requires LoopHead()
      modifies this, run`statuses
      ensures AfterVerdict(
        old(run.statuses), node, success, run.dependencies,
        stateVersion == old(stateVersion) || (!success && failFast), run.statuses, summary)
      ensures queue == old(queue) && cancelled == old(cancelled) && handled == old(handled)
      ensures summary.None? ==> LoopHead() && node !in handles
      ensures summary.Some? ==> Ended(summary.value) && cleanedUp
      ensures setbacks >= old(setbacks)
      ensures summary.Some? && setbacks == old(setbacks) && !failFast ==> EndedWell(summary.value)
      ensures Below(old(run.statuses), run.statuses)
    {
      hide TraceValid, TimersOk, SuccessStored, Mirror, AllTimed, AfterVerdict, DispatchedFrom, Ended, EndedWell, Below;
      var stop := CompleteFromEvent(node, success);
      ghost var s1 := run.statuses;
      summary := Conclude(stop);
      VerdictEnds(old(run.statuses), node, success, run.dependencies, stop, s1, run.statuses, summary);
      BelowTransitive(old(run.statuses), s1, run.statuses);
    }

    method FoldInLoop(outcomes: map<string, ReconcileResult>)
      returns (stop: bool, ghost done: set<string>, ghost last: Option<string>)
      requires Steady() && AllTimed() && Ready() == {}
      modifies this`stateVersion, this`durable, this`trace, this`calls, this`asked, this`setbacks
      modifies this`handles, this`armed, this`nextHandle
      modifies this`rows, this`lostRows, run`statuses
      ensures TraceValid() && setbacks >= old(setbacks)
      ensures !stop ==> Steady() && AllTimed() && Ready() == {}
      ensures PassMade(old(run.statuses), outcomes, done, old(asked), pipeline, run.statuses, asked)
      ensures !stop ==> last.None? && forall n :: Completes(outcomes, n) ==> n in done
      ensures stop ==> last.Some? && last.value in done && Completes(outcomes, last.value)
      ensures stop ==> setbacks > old(setbacks) || (failFast && !outcomes[last.value].success)
      ensures Below(old(run.statuses), run.statuses)
    {
      stop, done, last := FoldCompletions(outcomes);
      if !stop {
        StillAllWatched(old(run.statuses), old(handles), old(armed), run.statuses, handles, armed, queue, {});
      }
    }

    /** A reconcile pass in the loop, for any answers; `done` are the nodes it folded. */
    method OnReconcile(outcomes: map<string, ReconcileResult>)
      returns (summary: Option<RunSummary>, ghost done: set<string>, ghost last: Option<string>)
      requires LoopHead()
      modifies this, run`statuses
      ensures AfterPass(
        old(run.statuses), outcomes, done, last, old(asked), pipeline, run.statuses, asked, summary)
      ensures last.Some? ==>
        && Completes(outcomes, last.value)
        && (setbacks > old(setbacks) || (failFast && !outcomes[last.value].success))
      ensures queue == old(queue) && cancelled == old(cancelled) && handled == old(handled)
      ensures summary.None? ==> LoopHead()
      ensures summary.Some? ==> Ended(summary.value) && cleanedUp
      ensures setbacks >= old(setbacks)
      ensures summary.Some? && setbacks == old(setbacks) && !failFast ==> EndedWell(summary.value)
      ensures Below(old(run.statuses), run.statuses)
    {
      hide TraceValid, Steady, AllTimed, PassMade, AfterPass, Ended;
      var stop;
      stop, done, last := FoldInLoop(outcomes);
      ghost var s1, asked1 := run.statuses, asked;
      summary := Conclude(stop);
      PassEnds(old(run.statuses), outcomes, done, last, old(asked), pipeline, s1, asked1, run.statuses, summary);
      BelowTransitive(old(run.statuses), s1, run.statuses);
    }

    method FailFromQueue(node: string, timedOut: bool) returns (stop: bool)
      requires Steady() && Ready() == {}
      requires forall n :: Has(run.statuses, n, Running) && n != node ==> Watched(handles, armed, queue, n)
      modifies this`stateVersion, this`durable, this`trace, this`calls, this`asked, this`setbacks
      modifies this`handles, this`armed, this`nextHandle
      modifies this`rows, this`lostRows, this`cancelled, run`statuses
      ensures TraceValid() && setbacks >= old(setbacks)
      ensures !stop ==> Steady() && AllTimed() && Ready() == {}
      ensures stop && setbacks == old(setbacks) ==> failFast
      ensures node in old(Open(run.statuses)) ==>
        && (stop <==> stateVersion == old(stateVersion) || failFast)
        && cancelled == (if stateVersion == old(stateVersion) then old(cancelled) else old(cancelled) + {node})
        && (node in handles <==> timedOut && node in old(handles))
        && var judged := Judged(old(run.statuses), node, false);
          if stop then run.statuses == judged else DispatchedFrom(judged, run.dependencies, run.statuses)
      ensures node !in old(Open(run.statuses)) ==> !stop && unchanged(this) && unchanged(run)
      ensures Below(old(run.statuses), run.statuses)
    {
      hide TraceValid;
      if timedOut {
        stop := HandleNodeTimedOut(node);
      } else {
        stop := HandleNodeInfraFailed(node);
      }
      if !stop {
        assert !Has(run.statuses, node, Running);
        StillAllWatched(old(run.statuses), old(handles), old(armed), run.statuses, handles, armed, queue, {node});
      }
    }

    /** A verdict of failure that came through the queue. */
    method OnFailure(node: string, timedOut: bool) returns (summary: Option<RunSummary>)
      requires Steady() && reported == [] && !cleanedUp && Ready() == {}
      requires WithStatus(run.statuses, Running) != {}
      requires forall n :: Has(run.statuses, n, Running) && n != node ==> Watched(handles, armed, queue, n)
      modifies this, run`statuses
      ensures node in old(Open(run.statuses)) ==>
        && AfterVerdict(
             old(run.statuses), node, false, run.dependencies,
             stateVersion == old(stateVersion) || failFast, run.statuses, summary)
        && cancelled == if stateVersion == old(stateVersion) then old(cancelled) else old(cancelled) + {node}
      ensures node !in old(Open(run.statuses)) ==> summary.None? && unchanged(this) && unchanged(run)
      ensures node in old(Open(run.statuses)) && summary.None? ==>
        (node in handles <==> timedOut && node in old(handles))
      ensures queue == old(queue) && handled == old(handled)
      ensures summary.None? ==> LoopHead()
      ensures summary.Some? ==> Ended(summary.value) && cleanedUp
      ensures setbacks >= old(setbacks)
      ensures summary.Some? && setbacks == old(setbacks) && !failFast ==> EndedWell(summary.value)
      ensures Below(old(run.statuses), run.statuses)
    {
      hide TraceValid, TimersOk, SuccessStored, Mirror, AllTimed, AfterVerdict, DispatchedFrom, Ended,
           EndedWell, Below;
      var stop := FailFromQueue(node, timedOut);
      ghost var s1 := run.statuses;
      summary := Conclude(stop);
      if node in old(Open(run.statuses)) {
        VerdictEnds(old(run.statuses), node, false, run.dependencies, stop, s1, run.statuses, summary);
      }
      BelowTransitive(old(run.statuses), s1, run.statuses);
    }

    method OnPodRunning(node: string)
      requires Steady() && Ready() == {} && WithStatus(run.statuses, Running) != {} && reported == [] && !cleanedUp
      requires AllTimed()
      modifies this`handles, this`armed, this`nextHandle
      ensures LoopHead()
      ensures handles == if node in old(handles) && old(handles)[node].phase == Runtime then old(handles)
        else old(handles)[node := PhaseTimer(Runtime, old(nextHandle))]
    {
      HandlePodRunning(node);
      StillAllWatched(run.statuses, old(handles), old(armed), run.statuses, handles, armed, queue, {});
    }

    /** Takes the oldest message, if there is one. */
    method OnReceive() returns (summary: Option<RunSummary>)
      requires LoopHead()
      modifies this, run`statuses
      ensures old(queue) == [] ==> summary.None? && unchanged(this) && unchanged(run)
      ensures old(queue) != [] ==> queue == old(queue)[1..]
      ensures old(queue) != [] && !old(queue)[0].NodePodRunning? && old(queue)[0].node in old(Open(run.statuses)) ==>
        && AfterVerdict(
             old(run.statuses), old(queue)[0].node, false, run.dependencies,
             stateVersion == old(stateVersion) || failFast, run.statuses, summary)
        && cancelled ==
             if stateVersion == old(stateVersion) then old(cancelled) else old(cancelled) + {old(queue)[0].node}
      ensures old(queue) != [] && !old(queue)[0].NodePodRunning? && old(queue)[0].node in old(Open(run.statuses)) ==>
        summary.None? ==>
          (old(queue)[0].node in handles <==> old(queue)[0].NodeTimedOut? && old(queue)[0].node in old(handles))
      ensures old(queue) != [] && !old(queue)[0].NodePodRunning? && old(queue)[0].node !in old(Open(run.statuses)) ==>
        && summary.None? && unchanged(run)
        && unchanged(this`handles, this`armed, this`rows, this`lostRows, this`durable, this`stateVersion)
        && unchanged(this`trace, this`calls, this`cancelled, this`reported)
      ensures old(queue) != [] && old(queue)[0].NodePodRunning? ==>
        && summary.None? && unchanged(run) && unchanged(this`rows, this`trace, this`stateVersion, this`cancelled)
        && var node := old(queue)[0].node;
          handles == if node in old(handles) && old(handles)[node].phase == Runtime then old(handles)
            else old(handles)[node := PhaseTimer(Runtime, old(nextHandle))]
      ensures handled == old(handled)
      ensures summary.None? ==> LoopHead()
      ensures summary.Some? ==> Ended(summary.value) && cleanedUp
      ensures setbacks >= old(setbacks)
      ensures summary.Some? && setbacks == old(setbacks) && !failFast ==> EndedWell(summary.value)
      ensures Below(old(run.statuses), run.statuses)
    {
      hide TraceValid, TimersOk, SuccessStored, Mirror, AfterVerdict, Ended, EndedWell;
      if queue == [] {
        return None;
      }
      var message := queue[0];
      forall n | Has(run.statuses, n, Running) && n != message.node
        ensures Watched(handles, armed, queue[1..], n)
      {
        MessageTaken(handles, armed, queue, n);
      }
      ghost var whole := queue;
      queue := queue[1..];
      match message {
        case NodeTimedOut(node) => summary := OnFailure(node, true);
        case NodeInfraFailed(node) => summary := OnFailure(node, false);
        case NodePodStartTimedOut(node) => summary := OnFailure(node, false);
        case NodePodRunning(node) =>
          if Has(run.statuses, node, Running) {
            MessageTaken(handles, armed, whole, node);
          }
          OnPodRunning(node);
          summary := None;
      }
    }

    /** A sleeping timer wakes up: its task ends by sending its message, which tells the phase. */
    method OnTimerFires(handle: nat)
      requires LoopHead()
      modifies this`armed, this`queue
      ensures LoopHead() && armed == old(armed) - {handle}
      ensures handle !in old(armed) ==> queue == old(queue)
      ensures handle in old(armed) ==>
        queue == old(queue) + [if old(armed)[handle].phase == Startup
          then NodePodStartTimedOut(old(armed)[handle].node) else NodeTimedOut(old(armed)[handle].node)]
    {
      if handle in armed {
        queue := queue + [Expiry(armed[handle].node, armed[handle].phase)];
        armed := armed - {handle};
      }
    }

    /** The pod watcher's relay forwards a signal. */
    method OnPodSignal(message: Message)
      requires LoopHead()
      modifies this`queue
      ensures LoopHead() && queue == old(queue) + [message]
    {
      queue := queue + [message];
    }

    ghost method Handled(e: Event)
      requires LoopHead()
      modifies this`handled
      ensures LoopHead() && handled == old(handled) + [e]
    {
      handled := handled + [e];
    }

    /** One turn of the loop, for any event: the loop waits again in a good state or the run has
        ended. `done` and `last` tell of a reconcile pass which nodes it folded and where it was
        stopped. */
    method Step(e: Event) returns (summary: Option<RunSummary>, ghost done: set<string>, ghost last: Option<string>)
      requires LoopHead()
      modifies this, run`statuses
      ensures handled == old(handled) + [e]
      ensures e == Heartbeat(true) || e.TimerFires? || e.PodSignal? ==>
        && summary.None? && unchanged(run)
        && unchanged(this`handles, this`rows, this`trace, this`stateVersion, this`cancelled)
      ensures e == Heartbeat(false) ==> summary == Some(RunSummary(RunFailure, old(run.statuses))) && !cleanedUp
      ensures e.Deadline? || e.SubscriptionClosed? ==>
        summary == Some(RunSummary(RunFailure, FailRunning(old(run.statuses)))) && cleanedUp
      ensures e.Cancel? ==> summary == Some(RunSummary(RunCancelled, FailRunning(old(run.statuses)))) && cleanedUp
      ensures e.NodeCompleted? ==>
        AfterVerdict(
          old(run.statuses), e.node, e.success, run.dependencies,
          stateVersion == old(stateVersion) || (!e.success && failFast), run.statuses, summary)
      ensures e.NodeCompleted? && summary.None? ==> e.node !in handles
      ensures e.Receive? && old(queue) != [] ==> queue == old(queue)[1..]
      ensures e.Receive? && old(queue) != [] && !old(queue)[0].NodePodRunning? ==>
        if old(queue)[0].node in old(Open(run.statuses)) then
          AfterVerdict(
            old(run.statuses), old(queue)[0].node, false, run.dependencies,
            stateVersion == old(stateVersion) || failFast, run.statuses, summary)
        else summary.None? && unchanged(run)
      ensures e.Receive? && (old(queue) == [] || old(queue)[0].NodePodRunning?) ==> summary.None? && unchanged(run)
      ensures e.Reconcile? ==>
        && AfterPass(
             old(run.statuses), e.outcomes, done, last, old(asked), pipeline, run.statuses, asked, summary)
      ensures e.Reconcile? && last.Some? ==>
        && Completes(e.outcomes, last.value)
        && (setbacks > old(setbacks) || (failFast && !e.outcomes[last.value].success))
      ensures e.PodSignal? ==> queue == old(queue) + [e.message] && armed == old(armed)
      ensures e.TimerFires? ==> armed == old(armed) - {e.handle}
      ensures e.TimerFires? && e.handle in old(armed) ==>
        queue == old(queue) + [Expiry(old(armed)[e.handle].node, old(armed)[e.handle].phase)]
      ensures summary.None? ==> LoopHead()
      ensures summary.Some? ==> Ended(summary.value) && (cleanedUp || e == Heartbeat(false))
      ensures setbacks >= old(setbacks)
      ensures Benign(e) && summary.Some? && setbacks == old(setbacks) && !failFast ==> EndedWell(summary.value)
      ensures Below(old(run.statuses), run.statuses)
    {
      hide TraceValid, AfterVerdict, AfterPass, TimersOk, SuccessStored, Mirror, AllTimed;
      Handled(e);
      done, last := {}, None;
      match e {
        case Deadline =>
          var s := StopEarly(RunFailure);
          summary := Some(s);
        case Heartbeat(renewed) =>
          if renewed {
            summary := None;
          } else {
            var s := BuildSummary(RunFailure);
            summary := Some(s);
          }
        case Reconcile(outcomes) => summary, done, last := OnReconcile(outcomes);
        case Receive => summary := OnReceive();
        case NodeCompleted(node, success) => summary := OnCompleted(node, success);
        case Cancel =>
          var s := StopEarly(RunCancelled);
          summary := Some(s);
        case SubscriptionClosed =>
          var s := StopEarly(RunFailure);
          summary := Some(s);
        case TimerFires(handle) =>
          OnTimerFires(handle);
          summary := None;
        case PodSignal(message) =>
          OnPodSignal(message);
          summary := None;
      }
    }

    /** When a takeover starts a node that S3 shows started already. With favourable answers and no
        fail-fast that happens, once some completion is folded, exactly to a node whose dependencies
        all end in Success. With nothing to fold it takes a missing pod: the first one, at place
        `missing` of the order of promotion, starts what was ready and not yet promoted. */
    method FoldAndPromote(outcomes: map<string, ReconcileResult>)
      returns (stop: bool, ghost order: seq<string>, ghost missing: Option<nat>, ghost done: set<string>)
      requires Steady() && isRehydrate
      modifies this`stateVersion, this`durable, this`trace, this`calls, this`asked, this`setbacks
      modifies this`handles, this`armed, this`nextHandle
      modifies this`rows, this`lostRows, this`cancelled, run`statuses
      ensures TraceValid() && setbacks >= old(setbacks)
      ensures VerdictsTaken(old(run.statuses), outcomes, done, old(asked), pipeline, run.statuses, asked)
      ensures !stop ==> forall n :: Completes(outcomes, n) ==> n in done
      ensures !stop ==> Steady()
      ensures !stop ==> forall n :: n in outcomes && outcomes[n].InProgress? ==> !Has(run.statuses, n, Pending)
      ensures stop && setbacks == old(setbacks) ==> failFast
      ensures VerdictsIn(outcomes) == map[] ==>
        && Elements(order) == StartedElsewhere(old(run.statuses), outcomes) && Distinct(order)
        && (forall n :: n in order ==> n in outcomes && outcomes[n].InProgress? && Has(old(run.statuses), n, Pending))
        && (missing.None? ==> !stop && asked == old(asked))
        && (missing.Some? ==> missing.value < |order|)
        && (missing.Some? && !stop ==>
              asked == AskedAfter(old(asked), old(Ready()) - Elements(order[..missing.value + 1]), pipeline))
      ensures VerdictsIn(outcomes) != map[] && setbacks == old(setbacks) && (!failFast || !stop) ==>
        forall n :: n in StartedElsewhere(old(run.statuses), outcomes) && n in Names(pipeline) ==>
          (n in asked <==>
             n in old(asked) || DepsEndInSuccess(old(run.statuses), run.dependencies, VerdictsIn(outcomes), n))
      ensures Below(old(run.statuses), run.statuses) && old(asked) <= asked
    {
      order, missing := [], None;
      ghost var before, verdicts := run.statuses, VerdictsIn(outcomes);
      ghost var last;
      stop, done, last := FoldCompletions(outcomes);
      ghost var s1, asked1, clean := run.statuses, asked, setbacks == old(setbacks);
      if !stop {
        var toPromote := InAnyOrder(StartedElsewhere(run.statuses, outcomes));
        order := toPromote;
        assert forall n :: n in order ==> n in Elements(order);
        stop, missing := PromoteStarted(outcomes, toPromote);
        BelowTransitive(before, s1, run.statuses);
        VerdictsAreTaken(before, outcomes, done, old(asked), pipeline, s1, asked1, run.statuses, asked);
        if verdicts != map[] && clean {
          forall n | n in StartedElsewhere(before, outcomes) && n in Names(pipeline)
            ensures n in asked1 <==> n in old(asked) || DepsEndInSuccess(before, run.dependencies, verdicts, n)
          {
            AskedIffUnlocked(before, old(asked), pipeline, run.dependencies, verdicts, asked1, n);
          }
        }
      } else {
        VerdictsAreTaken(before, outcomes, done, old(asked), pipeline, s1, asked1, s1, asked1);
      }
    }

    /** Folding, promoting and re-arming before the loop, when the run was taken over. */
    method Rehydrate(outcomes: map<string, ReconcileResult>)
      returns (summary: Option<RunSummary>, ghost missing: Option<nat>, ghost done: set<string>)
      requires Steady() && isRehydrate && reported == [] && !cleanedUp
      modifies this, run`statuses
      ensures summary.None? ==> Steady() && AllTimed() && reported == [] && !cleanedUp
      ensures VerdictsTaken(old(run.statuses), outcomes, done, old(asked), pipeline, run.statuses, asked)
      ensures summary.None? ==> forall n :: Completes(outcomes, n) ==> n in done
      ensures summary.None? ==> forall n :: n in outcomes && outcomes[n].InProgress? ==> !Has(run.statuses, n, Pending)
      ensures summary.None? ==> forall n :: Has(run.statuses, n, Running) ==>
        && handles[n].handle in armed
        && (handles[n].phase == Startup ==> !(n in outcomes && outcomes[n].InProgress?) && n in rows)
      ensures summary.None? && VerdictsIn(outcomes) == map[] && missing.None? ==> asked == old(asked)
      ensures summary.Some? ==> Ended(summary.value) && cleanedUp
      ensures setbacks >= old(setbacks) && handled == old(handled)
      ensures summary.Some? && setbacks == old(setbacks) && !failFast ==> EndedWell(summary.value)
      ensures Below(old(run.statuses), run.statuses) && old(asked) <= asked
    {
      hide TraceValid, TimersOk, SuccessStored, Mirror, VerdictsTaken, Ended, EndedWell;
      var stop;
      ghost var order;
      stop, order, missing, done := FoldAndPromote(outcomes);
      ghost var s1 := run.statuses;
      if stop {
        var s := StopEarly(RunFailure);
        summary := Some(s);
      } else {
        var readable: set<string> := *;
        RehydratePhaseTimers(outcomes, readable);
        if WithStatus(run.statuses, Running) == {} && ReadyNodes(run.statuses, run.dependencies) == {} {
          var s := Finish();
          summary := Some(s);
        } else {
          summary := None;
        }
      }
      BelowTransitive(old(run.statuses), s1, run.statuses);
      VerdictsAreTaken(old(run.statuses), outcomes, done, old(asked), pipeline, s1, asked, run.statuses, asked);
    }

    /** The first dispatch round and what follows it. */
    method FirstRound() returns (summary: Option<RunSummary>)
      requires Steady() && AllTimed() && reported == [] && !cleanedUp
      modifies this, run`statuses
      ensures summary.None? ==> LoopHead()
      ensures DispatchedFrom(old(run.statuses), run.dependencies, run.statuses)
      ensures asked == AskedAfter(old(asked), old(Ready()), pipeline)
      ensures summary.None? <==> WithStatus(run.statuses, Running) != {}
      ensures summary.Some? ==> Ended(summary.value) && EndedWell(summary.value)
      ensures setbacks >= old(setbacks) && handled == old(handled)
    {
      hide TraceValid, TimersOk, SuccessStored, Mirror, TimersAfterDispatch, Ended, EndedWell;
      ghost var started := DispatchReadyNodes();
      StillAllWatched(old(run.statuses), old(handles), old(armed), run.statuses, handles, armed, queue, {});
      summary := Conclude(false);
    }

    method SubscribeAndDispatch(subscribed: bool) returns (summary: Option<RunSummary>)
      requires Steady() && AllTimed() && reported == [] && !cleanedUp
      modifies this, run`statuses
      ensures summary.None? ==> LoopHead()
      ensures subscribed ==>
        && DispatchedFrom(old(run.statuses), run.dependencies, run.statuses)
        && asked == AskedAfter(old(asked), old(Ready()), pipeline)
        && (summary.None? <==> WithStatus(run.statuses, Running) != {})
        && (summary.Some? ==> EndedWell(summary.value))
      ensures summary.Some? ==> Ended(summary.value)
      ensures !subscribed ==>
        && summary == Some(RunSummary(RunFailure, old(run.statuses))) && !cleanedUp
        && unchanged(run) && asked == old(asked)
      ensures setbacks >= old(setbacks) && handled == old(handled)
      ensures Below(old(run.statuses), run.statuses)
    {
      hide TraceValid;
      if !subscribed {
        var s := BuildSummary(RunFailure);
        return Some(s);
      }
      summary := FirstRound();
    }

    /** Everything before the loop. A takeover takes the verdicts of the status files; one that
        folds none and misses no pod does not start again any node that S3 shows started. */
    method Start(outcomes: map<string, ReconcileResult>, subscribed: bool)
      returns (summary: Option<RunSummary>, ghost missing: Option<nat>, ghost done: set<string>)
      requires Steady() && reported == [] && !cleanedUp
      requires !isRehydrate ==> forall n :: n in run.statuses ==> run.statuses[n] == Pending
      modifies this, run`statuses
      ensures summary.None? ==> LoopHead()
      ensures !isRehydrate && subscribed ==> DispatchedFrom(old(run.statuses), run.dependencies, run.statuses)
      ensures isRehydrate ==>
        && VerdictsTaken(old(run.statuses), outcomes, done, old(asked), pipeline, run.statuses, asked)
        && (summary.None? ==> forall n :: Completes(outcomes, n) ==> n in done)
      ensures summary.None? && isRehydrate && VerdictsIn(outcomes) == map[] && missing.None? ==>
        forall n :: n in outcomes && outcomes[n].InProgress? && n in asked ==> n in old(asked)
      ensures summary.Some? ==> Ended(summary.value) && (cleanedUp || !subscribed)
      ensures setbacks >= old(setbacks) && handled == old(handled)
      ensures subscribed && summary.Some? && setbacks == old(setbacks) && !failFast ==> EndedWell(summary.value)
      ensures Below(old(run.statuses), run.statuses)
    {
      hide TraceValid;
      missing, done := None, {};
      if isRehydrate {
        summary, missing, done := Rehydrate(outcomes);
        if summary.Some? {
          return;
        }
      }
      ghost var s1, asked1 := run.statuses, asked;
      summary := SubscribeAndDispatch(subscribed);
      BelowTransitive(old(run.statuses), s1, run.statuses);
      if isRehydrate {
        VerdictsAreTaken(old(run.statuses), outcomes, done, old(asked), pipeline, s1, asked1, run.statuses, asked);
      }
    }

    /** The whole life of a coordinator over any sequence of events: it handles them in order until
        it ends. With favourable answers, no fail-fast and only benign events it ends only by being
        complete, and gives up without cleaning up only when it lost its lease or never subscribed. */
    method Run(outcomes: map<string, ReconcileResult>, subscribed: bool, events: seq<Event>)
      returns (summary: Option<RunSummary>)
      requires Steady() && reported == [] && !cleanedUp
      requires !isRehydrate ==> forall n :: n in run.statuses ==> run.statuses[n] == Pending
      modifies this, run`statuses
      ensures exists k :: 0 <= k <= |events| && handled == old(handled) + events[..k]
      ensures summary.None? ==> LoopHead() && handled == old(handled) + events
      ensures summary.Some? ==> Ended(summary.value) && (cleanedUp || !subscribed || Heartbeat(false) in events)
      ensures setbacks >= old(setbacks)
      ensures
        && subscribed && (forall e :: e in events ==> Benign(e))
        && summary.Some? && setbacks == old(setbacks) && !failFast
        ==> EndedWell(summary.value)
      ensures Below(old(run.statuses), run.statuses)
    {
      hide TraceValid, LoopHead, Ended, EndedWell;
      ghost var missing, done, last;
      summary, missing, done := Start(outcomes, subscribed);
      var i := 0;
      assert events[..0] == [];
      while i < |events| && summary.None?
        invariant i <= |events| && handled == old(handled) + events[..i]
        invariant summary.None? ==> LoopHead()
        invariant summary.Some? ==> Ended(summary.value) && (cleanedUp || !subscribed || Heartbeat(false) in events)
        invariant setbacks >= old(setbacks)
        invariant
          && subscribed && (forall e :: e in events ==> Benign(e))
          && summary.Some? && setbacks == old(setbacks) && !failFast
          ==> EndedWell(summary.value)
        invariant Below(old(run.statuses), run.statuses)
      {
        ghost var s1 := run.statuses;
        summary, done, last := Step(events[i]);
        BelowTransitive(old(run.statuses), s1, run.statuses);
        assert events[..i + 1] == events[..i] + [events[i]];
        i := i + 1;
      }
      assert events[..|events|] == events;
    }

    /** Left to itself, with no event from outside, every waiting run ends: its sleeping timers
        fire and its messages arrive, in any order and with any answers of the outside world. */
    method RunOut() returns (summary: RunSummary)
      requires LoopHead()
      modifies this, run`statuses
      ensures Ended(summary) && cleanedUp
      ensures setbacks >= old(setbacks)
      ensures setbacks == old(setbacks) && !failFast ==> EndedWell(summary)
      ensures Below(old(run.statuses), run.statuses)
    {
      hide TraceValid;
      var ended: Option<RunSummary> := None;
      while ended.None?
        invariant ended.None? ==> LoopHead()
        invariant ended.Some? ==> Ended(ended.value) && cleanedUp
        invariant setbacks >= old(setbacks)
        invariant ended.Some? && setbacks == old(setbacks) && !failFast ==> EndedWell(ended.value)
        invariant Below(old(run.statuses), run.statuses)
        decreases ended.None?, |Open(run.statuses)|, PodRunnings(queue), |armed|, |queue|
      {
        ghost var s1 := run.statuses;
        var receive := *;
        if queue != [] && (receive || armed == map[]) {
          ended := ReceiveProgress();
        } else {
          var node :| node in WithStatus(run.statuses, Running);
          assert Timed(node);
          var handle :| handle in armed;
          TimerProgress(handle);
        }
        BelowTransitive(old(run.statuses), s1, run.statuses);
      }
      summary := ended.value;
    }

    method ReceiveProgress() returns (summary: Option<RunSummary>)
      requires LoopHead() && queue != []
      modifies this, run`statuses
      ensures summary.None? ==> LoopHead()
      ensures summary.Some? ==> Ended(summary.value) && cleanedUp
      ensures setbacks >= old(setbacks)
      ensures summary.Some? && setbacks == old(setbacks) && !failFast ==> EndedWell(summary.value)
      ensures Below(old(run.statuses), run.statuses)
      ensures summary.None? ==>
        || |Open(run.statuses)| < old(|Open(run.statuses)|)
        || (run.statuses == old(run.statuses) && PodRunnings(queue) < old(PodRunnings(queue)))
        || (run.statuses == old(run.statuses) && PodRunnings(queue) == old(PodRunnings(queue))
            && armed == old(armed) && |queue| < old(|queue|))
    {
      ghost var message := queue[0];
      summary := OnReceive();
      if !message.NodePodRunning? && message.node in old(Open(run.statuses)) {
        OpenShrinks(old(run.statuses), run.statuses, message.node);
      }
    }

    method TimerProgress(handle: nat)
      requires LoopHead() && handle in armed
      modifies this`armed, this`queue
      ensures LoopHead() && run.statuses == old(run.statuses)
      ensures PodRunnings(queue) == old(PodRunnings(queue)) && |armed| < old(|armed|)
    {
      ghost var message := Expiry(armed[handle].node, armed[handle].phase);
      MoreMessages(queue, message);
      OnTimerFires(handle);
      assert armed.Keys == old(armed.Keys) - {handle};
    }

    // ---------- over the whole life ----------

    /** At most N dispatches, 2N transitions and N verdicts; while the loop waits, a verdict is still due. */
    lemma WorkIsBounded()
      requires TraceValid()
      ensures P.Dispatches(trace) <= |origin|
      ensures P.Transitions(origin, trace) <= 2 * |origin|
      ensures P.Verdicts(origin, trace) <= |origin|
      ensures LoopHead() ==> P.Verdicts(origin, trace) < |origin|
    {
      P.TerminationBound(origin, run.dependencies, trace);
    }

    /** Every dispatch this coordinator ever made was of a Pending node whose dependencies were
        Success, in memory and in the store; and it never dispatched that node again. */
    lemma DispatchesWereDurable(i: nat)
      requires TraceValid() && i < |trace| && trace[i].Dispatch?
      ensures var memory, stored, n := P.Memory(origin, trace[..i]), P.Stored(origin, trace[..i]), trace[i].node;
        && Has(memory, n, Pending) && Has(stored, n, Pending)
        && n in run.dependencies
        && forall d :: d in run.dependencies[n] ==> Has(memory, d, Success) && Has(stored, d, Success)
      ensures forall j :: i < j < |trace| ==> !(trace[j].Dispatch? && trace[j].node == trace[i].node)
    {
      P.DispatchIsDurable(origin, run.dependencies, trace, i);
      forall j | i < j < |trace| && trace[j].Dispatch?
        ensures trace[j].node != trace[i].node
      {
        P.DispatchedAtMostOnce(origin, run.dependencies, trace, i, j);
      }
    }

    /** The store and the coordinator agree on when a run is over: once this coordinator's state
        is stored and its lease is gone, the run is listed as finished if and only if the
        coordinator itself counts it complete, and as an orphan otherwise. */
    lemma StoredRunIsListed(runId: string, runs: map<string, RunState>, leased: set<string>)
      requires TraceValid() && runId in runs && runId !in leased
      requires runs[runId].statuses == run.statuses && DependencySets(runs[runId].dependencies) == run.dependencies
      ensures runId in TerminalUnleased(runs, leased) <==> IsComplete(run.statuses, run.dependencies)
      ensures runId in Orphaned(runs, leased) <==> !IsComplete(run.statuses, run.dependencies)
    {
      P.MemoryMovesUp(origin, trace, 0);
      assert runs[runId].dependencies.Keys == DependencySets(runs[runId].dependencies).Keys;
      DoneEncodings(runs[runId]);
    }
  }
}
