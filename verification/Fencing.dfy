/** Any number of coordinators over one stored run and its lease, between the creation and the
    deletion of the run's state. A coordinator that crashes or hangs simply takes no more steps
    for a while; one that comes back as a zombie goes on with the memory it had. A save is judged
    by the stored version alone: it never looks at the lease. */
module Fencing {
  import opened Common
  import opened Runs
  import opened RunTheory
  import opened StateStore
  import L = Leases
  import P = Protocol

  /** Memory; the version and statuses last loaded or known to be accepted; the lease that was
      granted before the run was loaded. */
  datatype Coord = Coord(memory: Statuses, version: nat, stored: Statuses, lease: L.Lease)

  /** `history` lists every accepted snapshot, by version; version 0 is the created run, whether
      or not its first save arrived. `granted` are the leases handed to coordinators so far;
      `stopped` are the coordinators that failed to renew. Once the state is `deleted` its life
      is over. */
  datatype Cluster = Cluster(
    version: nat, statuses: Statuses, history: seq<Statuses>, coords: map<nat, Coord>,
    lease: L.LeaseState, granted: map<nat, L.Lease>, stopped: set<nat>,
    deleted: bool)

  datatype Step =
    /** Only a server that is granted the lease goes on to run a coordinator. */
    | Acquire(id: nat, server: string, token: Option<nat>)
    | Renew(id: nat, renewed: bool)
    /** The lease expires, is released by anybody, or the token counter moves. */
    | Leasing(op: L.LeaseOp)
    | Load(id: nat)
    /** Nothing was found under the key, or reading it failed: the coordinator begins anew. Its
        first save expects version 0 and, where accepted, writes what version 0 is already. */
    | StartFresh(id: nat)
    | Act(id: nat, action: P.Action)
    /** When the answer is lost the coordinator does not learn that its save was accepted. */
    | Persist(id: nat, answered: bool)
    /** The end of a run, early or regular: the lease is released and the state deleted, whoever
        holds the one and wrote the other. */
    | Finalize(id: nat)

  predicate Accepted(s: Cluster, id: nat) {
    id in s.coords && s.coords[id].version == s.version
  }

  predicate AcceptedSave(s: Cluster, step: Step) {
    step.Persist? && Accepted(s, step.id)
  }

  ghost predicate Init(s: Cluster) {
    && s == Cluster(0, s.statuses, [s.statuses], map[], s.lease, map[], {}, false)
    && s.lease.held == None
  }

  ghost predicate Next(graph: Dependencies, s: Cluster, step: Step, t: Cluster) {
    !s.deleted && match step
    case Acquire(id, server, token) =>
      && id !in s.granted && id !in s.coords
      && L.LeaseNext(s.lease, L.Acquire(server, token), t.lease)
      && t == s.(lease := t.lease,
                 granted := if token.Some? then s.granted[id := L.Lease(server, token.value)] else s.granted)
    case Renew(id, renewed) =>
      && id in s.coords && id !in s.stopped
      && L.LeaseNext(s.lease, L.Renew(s.coords[id].lease.serverId, s.coords[id].lease.version, renewed), s.lease)
      && t == s.(stopped := if renewed then s.stopped else s.stopped + {id})
    case Leasing(op) =>
      && (op.Release? || op.Expire? || op.OtherRun?)
      && L.LeaseNext(s.lease, op, t.lease)
      && t == s.(lease := t.lease)
    case Load(id) =>
      && id in s.granted && id !in s.coords
      && t == s.(coords := s.coords[id := Coord(s.statuses, s.version, s.statuses, s.granted[id])])
    case StartFresh(id) =>
      && id in s.granted && id !in s.coords && s.history != []
      && t == s.(coords := s.coords[id := Coord(s.history[0], 0, s.history[0], s.granted[id])])
    case Act(id, a) =>
      && id in s.coords && id !in s.stopped && !a.Save?
      && P.Enabled(s.coords[id].memory, s.coords[id].stored, graph, a)
      && t == s.(coords := s.coords[id := s.coords[id].(memory := P.Move(s.coords[id].memory, a))])
    case Persist(id, answered) =>
      && id in s.coords && id !in s.stopped
      && if Accepted(s, id) then t == AfterSave(s, id, answered) else t == s
    case Finalize(id) =>
      && id in s.coords && id !in s.stopped
      && t == s.(lease := s.lease.(held := None), deleted := true)
  }

  function AfterSave(s: Cluster, id: nat, answered: bool): Cluster
    requires id in s.coords
  {
    var c := s.coords[id];
    s.(version := c.version + 1,
       statuses := c.memory,
       history := s.history + [c.memory],
       coords := if answered then s.coords[id := Coord(c.memory, c.version + 1, c.memory, c.lease)] else s.coords)
  }

  ghost predicate Behaviour(graph: Dependencies, states: seq<Cluster>, steps: seq<Step>) {
    && |states| == |steps| + 1
    && Init(states[0])
    && forall i :: 0 <= i < |steps| ==> Next(graph, states[i], steps[i], states[i + 1])
  }

  // ---------- the invariant ----------

  ghost predicate CoordInv(c: Coord, history: seq<Statuses>) {
    && c.version < |history|
    && history[c.version] == c.stored
    && Below(c.stored, c.memory)
  }

  ghost predicate Growing(history: seq<Statuses>) {
    forall i, j :: 0 <= i <= j < |history| ==> Below(history[i], history[j])
  }

  ghost predicate EveryCoordInv(coords: map<nat, Coord>, history: seq<Statuses>) {
    forall id :: id in coords ==> CoordInv(coords[id], history)
  }

  /** The history is linear and growing, and everyone works from some snapshot in it. */
  ghost predicate Inv(s: Cluster) {
    && |s.history| == s.version + 1
    && s.history[s.version] == s.statuses
    && Growing(s.history)
    && EveryCoordInv(s.coords, s.history)
  }

  lemma GrowsByOne(history: seq<Statuses>, next: Statuses)
    requires history != [] && Growing(history) && Below(history[|history| - 1], next)
    ensures Growing(history + [next])
  {
    var longer := history + [next];
    forall i, j | 0 <= i <= j < |longer|
      ensures Below(longer[i], longer[j])
    {
      if i < |history| == j {
        BelowTransitive(history[i], history[|history| - 1], next);
      }
    }
  }

  lemma SaveKeepsInv(s: Cluster, id: nat, answered: bool)
    requires Inv(s) && Accepted(s, id)
    ensures Inv(AfterSave(s, id, answered))
  {
    var c, t := s.coords[id], AfterSave(s, id, answered);
    assert CoordInv(c, s.history);
    GrowsByOne(s.history, c.memory);
    forall k | k in t.coords
      ensures CoordInv(t.coords[k], t.history)
    {
      if k != id || !answered {
        assert CoordInv(s.coords[k], s.history);
      }
    }
  }

  lemma ActKeepsInv(s: Cluster, id: nat, a: P.Action, t: Cluster)
    requires Inv(s) && id in s.coords
    requires t == s.(coords := s.coords[id := s.coords[id].(memory := P.Move(s.coords[id].memory, a))])
    ensures Inv(t)
  {
    var c := s.coords[id];
    assert CoordInv(c, s.history);
    P.ActionMovesUp(c.memory, a);
    BelowTransitive(c.stored, c.memory, P.Move(c.memory, a));
  }

  lemma NextKeepsInv(graph: Dependencies, s: Cluster, step: Step, t: Cluster)
    requires Inv(s) && Next(graph, s, step, t)
    ensures Inv(t)
  {
    if step.Act? {
      ActKeepsInv(s, step.id, step.action, t);
    } else if AcceptedSave(s, step) {
      SaveKeepsInv(s, step.id, step.answered);
    }
  }

  lemma {:induction false} InvAlways(graph: Dependencies, states: seq<Cluster>, steps: seq<Step>, i: nat)
    requires Behaviour(graph, states, steps) && i < |states|
    ensures Inv(states[i])
  {
    if i > 0 {
      InvAlways(graph, states, steps, i - 1);
      NextKeepsInv(graph, states[i - 1], steps[i - 1], states[i]);
    }
  }

  // ---------- one linear history ----------

  /** Linear fenced history: a step either leaves the stored run alone, or is an accepted save
      that raises the version by one, replaces exactly the snapshot its writer worked from, and
      moves every node only upward. So no accepted update is lost. */
  lemma LinearHistory(graph: Dependencies, states: seq<Cluster>, steps: seq<Step>, i: nat)
    requires Behaviour(graph, states, steps) && i < |steps|
    ensures var s, t := states[i], states[i + 1];
      if AcceptedSave(s, steps[i]) then
        && s.statuses == s.coords[steps[i].id].stored
        && t.version == s.version + 1
        && t.statuses == s.coords[steps[i].id].memory
        && Below(s.statuses, t.statuses)
      else t.version == s.version && t.statuses == s.statuses
  {
    InvAlways(graph, states, steps, i);
    assert Next(graph, states[i], steps[i], states[i + 1]);
    if AcceptedSave(states[i], steps[i]) {
      assert CoordInv(states[i].coords[steps[i].id], states[i].history);
    }
  }

  lemma {:induction false} StoredOnlyMovesUp(
      graph: Dependencies, states: seq<Cluster>, steps: seq<Step>, i: nat, j: nat)
    requires Behaviour(graph, states, steps) && i <= j < |states|
    ensures states[i].version <= states[j].version
    ensures Below(states[i].statuses, states[j].statuses)
    decreases j
  {
    if i < j {
      StoredOnlyMovesUp(graph, states, steps, i, j - 1);
      LinearHistory(graph, states, steps, j - 1);
      BelowTransitive(states[i].statuses, states[j - 1].statuses, states[j].statuses);
    }
  }

  lemma {:induction false} NothingAccepted(graph: Dependencies, states: seq<Cluster>, steps: seq<Step>, i: nat, j: nat)
    requires Behaviour(graph, states, steps) && i <= j < |states|
    requires forall m :: i <= m < j ==> !AcceptedSave(states[m], steps[m])
    ensures states[j].version == states[i].version
    decreases j
  {
    if i < j {
      NothingAccepted(graph, states, steps, i, j - 1);
      LinearHistory(graph, states, steps, j - 1);
    }
  }

  // ---------- who is fenced off ----------

  /** What a step looks like to coordinator `id`: a save whose answer was lost looks refused. */
  function ActionOf(s: Cluster, step: Step, id: nat): seq<P.Action> {
    if step.Act? && step.id == id then [step.action]
    else if step.Persist? && step.id == id then [P.Save(Accepted(s, id) && step.answered)]
    else []
  }

  /** What one step does to a coordinator: nothing, or one action that was open to it. */
  ghost predicate Did(graph: Dependencies, c: Coord, did: seq<P.Action>, d: Coord) {
    if did == [] then d == c
    else
      && |did| == 1
      && P.Enabled(c.memory, c.stored, graph, did[0])
      && d.memory == P.Move(c.memory, did[0])
      && d.stored == (if did[0] == P.Save(true) then c.memory else c.stored)
      && d.version == c.version + (if did[0] == P.Save(true) then 1 else 0)
  }

  lemma CoordStep(graph: Dependencies, s: Cluster, step: Step, t: Cluster, id: nat)
    requires Next(graph, s, step, t) && id in s.coords
    ensures id in t.coords && Did(graph, s.coords[id], ActionOf(s, step, id), t.coords[id])
    ensures ActionOf(s, step, id) == [P.Save(true)] ==> Accepted(s, id)
  {
  }

  predicate Begins(step: Step, id: nat) {
    step == Load(id) || step == StartFresh(id)
  }

  lemma BeginStep(graph: Dependencies, s: Cluster, step: Step, t: Cluster, id: nat)
    requires Next(graph, s, step, t) && Begins(step, id)
    ensures id in t.coords && t.coords[id].stored == t.coords[id].memory
    ensures t.version == s.version && t.coords[id].version == if step.Load? then s.version else 0
  {
  }

  /** The coordinator's memory and the store agreed right after this step. */
  predicate Syncs(s: Cluster, step: Step, id: nat) {
    || step == Load(id)
    || (step == StartFresh(id) && s.version == 0)
    || (step == Persist(id, true) && Accepted(s, id))
  }

  lemma {:induction false} VersionKept(
      graph: Dependencies, states: seq<Cluster>, steps: seq<Step>, id: nat, i: nat, j: nat)
    requires Behaviour(graph, states, steps) && i <= j < |states| && id in states[i].coords
    requires forall m :: i <= m < j ==> !Syncs(states[m], steps[m], id)
    ensures id in states[j].coords && states[j].coords[id].version == states[i].coords[id].version
    decreases j
  {
    if i < j {
      VersionKept(graph, states, steps, id, i, j - 1);
      assert Next(graph, states[j - 1], steps[j - 1], states[j]);
      CoordStep(graph, states[j - 1], steps[j - 1], states[j], id);
      assert !Syncs(states[j - 1], steps[j - 1], id);
    }
  }

  lemma Synchronized(graph: Dependencies, states: seq<Cluster>, steps: seq<Step>, id: nat, i: nat)
    requires Behaviour(graph, states, steps) && i < |steps| && Syncs(states[i], steps[i], id)
    ensures id in states[i + 1].coords && states[i + 1].coords[id].version == states[i + 1].version
  {
    assert Next(graph, states[i], steps[i], states[i + 1]);
  }

  /** Exactly who is fenced off: a save is accepted if and only if nobody's save, not even the
      writer's own unanswered one, was accepted since the writer last synchronized. Grants,
      expiries and renewals in between, and whoever holds the lease, make no difference. */
  lemma FencingIsExact(graph: Dependencies, states: seq<Cluster>, steps: seq<Step>, id: nat, i: nat, j: nat)
    requires Behaviour(graph, states, steps) && i < j < |states|
    requires Syncs(states[i], steps[i], id)
    requires forall m :: i < m < j ==> !Syncs(states[m], steps[m], id)
    ensures Accepted(states[j], id) <==> forall m :: i < m < j ==> !AcceptedSave(states[m], steps[m])
  {
    Synchronized(graph, states, steps, id, i);
    VersionKept(graph, states, steps, id, i + 1, j);
    if forall m :: i < m < j ==> !AcceptedSave(states[m], steps[m]) {
      NothingAccepted(graph, states, steps, i + 1, j);
    } else {
      var m :| i < m < j && AcceptedSave(states[m], steps[m]);
      StoredOnlyMovesUp(graph, states, steps, i + 1, m);
      LinearHistory(graph, states, steps, m);
      StoredOnlyMovesUp(graph, states, steps, m + 1, j);
    }
  }

  ghost predicate Stale(s: Cluster, id: nat) {
    id in s.coords && s.coords[id].version == 0 && s.version > 0
  }

  lemma StaleStaysStale(graph: Dependencies, s: Cluster, step: Step, t: Cluster, id: nat)
    requires Next(graph, s, step, t) && Stale(s, id)
    ensures t.version >= s.version ==> Stale(t, id)
  {
    CoordStep(graph, s, step, t, id);
    assert !Accepted(s, id);
  }

  /** A coordinator that began anew although the run had moved on is fenced off for good. */
  lemma {:induction false} StaleStartNeverSaves(
      graph: Dependencies, states: seq<Cluster>, steps: seq<Step>, id: nat, i: nat, j: nat)
    requires Behaviour(graph, states, steps) && i < j < |states|
    requires steps[i] == StartFresh(id) && states[i].version > 0
    ensures Stale(states[j], id) && !Accepted(states[j], id)
    decreases j
  {
    var s, step, t := states[j - 1], steps[j - 1], states[j];
    assert Next(graph, s, step, t);
    if i + 1 < j {
      StaleStartNeverSaves(graph, states, steps, id, i, j - 1);
      StoredOnlyMovesUp(graph, states, steps, j - 1, j);
      StaleStaysStale(graph, s, step, t, id);
    } else {
      BeginStep(graph, s, step, t, id);
    }
  }

  // ---------- leases ----------

  function LeaseOpOf(s: Cluster, step: Step): L.LeaseOp {
    match step
    case Acquire(_, server, token) => L.Acquire(server, token)
    case Renew(id, renewed) =>
      if id in s.coords then L.Renew(s.coords[id].lease.serverId, s.coords[id].lease.version, renewed) else L.OtherRun
    case Leasing(op) => op
    case Finalize(_) => L.Release
    case _ => L.OtherRun
  }

  /** The lease of the run goes through a history of the kind `Leases` reasons about. */
  lemma LeasesFormAHistory(graph: Dependencies, states: seq<Cluster>, steps: seq<Step>)
    requires Behaviour(graph, states, steps)
    ensures L.LeaseHistory(
      seq(|states|, i requires 0 <= i < |states| => states[i].lease),
      seq(|steps|, i requires 0 <= i < |steps| => LeaseOpOf(states[i], steps[i])))
  {
    forall i | 0 <= i < |steps|
      ensures L.LeaseNext(states[i].lease, LeaseOpOf(states[i], steps[i]), states[i + 1].lease)
    {
      assert Next(graph, states[i], steps[i], states[i + 1]);
    }
  }

  lemma GrantAndLoad(graph: Dependencies, s: Cluster, id: nat, server: string) returns (t: Cluster, u: Cluster)
    requires s.lease.held == None && id !in s.granted && id !in s.coords && !s.deleted
    ensures Next(graph, s, Acquire(id, server, Some(s.lease.counter + 1)), t) && Next(graph, t, Load(id), u)
    ensures var lease := L.Lease(server, s.lease.counter + 1);
      u == s.(lease := L.LeaseState(Some(lease), s.lease.counter + 1),
              granted := s.granted[id := lease],
              coords := s.coords[id := Coord(s.statuses, s.version, s.statuses, lease)])
  {
    var lease := L.Lease(server, s.lease.counter + 1);
    t := s.(lease := L.LeaseState(Some(lease), s.lease.counter + 1), granted := s.granted[id := lease]);
    u := t.(coords := t.coords[id := Coord(t.statuses, t.version, t.statuses, lease)]);
  }

  lemma Expired(graph: Dependencies, s: Cluster)
    requires !s.deleted
    ensures Next(graph, s, Leasing(L.Expire), s.(lease := s.lease.(held := None)))
  {
  }

  lemma FirstSaveWins(graph: Dependencies, s: Cluster, a: nat, b: nat)
    requires a != b && a in s.coords && b in s.coords && s.stopped == {} && !s.deleted
    requires s.coords[a].version == s.coords[b].version == s.version
    ensures Accepted(s, a) && Next(graph, s, Persist(a, true), AfterSave(s, a, true))
    ensures var t := AfterSave(s, a, true);
      !Accepted(t, b) && Next(graph, t, Persist(b, true), t) && t.coords[b] == s.coords[b]
      && t.lease == s.lease && Next(graph, t, Finalize(b), t.(lease := t.lease.(held := None), deleted := true))
  {
  }

  /** Growing tokens keep no zombie from writing. Server `a` is granted token 1, loads, and loses
      the lease; `b` is granted token 2, loads, and still holds the lease when the save of `a` is
      accepted. After that it is the save of `b`, the current holder, that is refused. */
  lemma TakeoverAloneDoesNotFence(graph: Dependencies, statuses: Statuses, a: string, b: string)
    returns (states: seq<Cluster>, steps: seq<Step>)
    ensures Behaviour(graph, states, steps)
    ensures steps == [
      Acquire(0, a, Some(1)), Load(0), Leasing(L.Expire), Acquire(1, b, Some(2)), Load(1),
      Persist(0, true), Persist(1, true)]
    ensures Accepted(states[5], 0) && states[5].coords[0].lease == L.Lease(a, 1)
    ensures states[5].lease.held == Some(L.Lease(b, 2))
    ensures 1 in states[6].coords && states[6].coords[1].lease == L.Lease(b, 2)
    ensures states[6].lease.held == Some(L.Lease(b, 2)) && !Accepted(states[6], 1)
  {
    var s0, s1, s2, s3, s4, s5 := TakenOver(graph, statuses, a, b);
    FirstSaveWins(graph, s5, 0, 1);
    var s6 := AfterSave(s5, 0, true);
    steps := [Acquire(0, a, Some(1)), Load(0), Leasing(L.Expire), Acquire(1, b, Some(2)), Load(1),
              Persist(0, true), Persist(1, true)];
    states := [s0, s1, s2, s3, s4, s5, s6, s6];
  }

  lemma TakenOver(graph: Dependencies, statuses: Statuses, a: string, b: string)
    returns (s0: Cluster, s1: Cluster, s2: Cluster, s3: Cluster, s4: Cluster, s5: Cluster)
    ensures Init(s0) && Next(graph, s0, Acquire(0, a, Some(1)), s1) && Next(graph, s1, Load(0), s2)
    ensures Next(graph, s2, Leasing(L.Expire), s3)
    ensures Next(graph, s3, Acquire(1, b, Some(2)), s4) && Next(graph, s4, Load(1), s5)
    ensures 0 in s5.coords && s5.coords[0] == Coord(statuses, 0, statuses, L.Lease(a, 1))
    ensures 1 in s5.coords && s5.coords[1] == Coord(statuses, 0, statuses, L.Lease(b, 2))
    ensures s5.version == 0 && s5.lease.held == Some(L.Lease(b, 2)) && s5.stopped == {} && !s5.deleted
  {
    s0 := Cluster(0, statuses, [statuses], map[], L.LeaseState(None, 0), map[], {}, false);
    s1, s2 := GrantAndLoad(graph, s0, 0, a);
    Expired(graph, s2);
    s3 := s2.(lease := s2.lease.(held := None));
    s4, s5 := GrantAndLoad(graph, s3, 1, b);
  }

  // ---------- finalization ----------

  /** Exactly what a finalization deletes: the snapshot its coordinator last knew, if and only if
      no save was accepted since the coordinator last synchronized. Otherwise it deletes a
      snapshot it never saw. */
  lemma FinalizationIsExact(graph: Dependencies, states: seq<Cluster>, steps: seq<Step>, id: nat, i: nat, j: nat)
    requires Behaviour(graph, states, steps) && i < j < |steps| && steps[j] == Finalize(id)
    requires Syncs(states[i], steps[i], id)
    requires forall m :: i < m < j ==> !Syncs(states[m], steps[m], id)
    ensures id in states[j].coords
    ensures var c := states[j].coords[id];
      states[j].version == c.version && states[j].statuses == c.stored
      <==> forall m :: i < m < j ==> !AcceptedSave(states[m], steps[m])
  {
    FencingIsExact(graph, states, steps, id, i, j);
    InvAlways(graph, states, steps, j);
    assert Next(graph, states[j], steps[j], states[j + 1]);
    assert CoordInv(states[j].coords[id], states[j].history);
  }

  /** A server that was fenced off destroys its successor's run: its save is refused, and with the
      early exit that follows it deletes the state the successor saved and frees its lease. */
  lemma FencedOffServerDeletes(graph: Dependencies, statuses: Statuses, a: string, b: string)
    returns (states: seq<Cluster>, steps: seq<Step>)
    ensures Behaviour(graph, states, steps)
    ensures steps == [
      Acquire(0, a, Some(1)), Load(0), Leasing(L.Expire), Acquire(1, b, Some(2)), Load(1),
      Persist(1, true), Persist(0, true), Finalize(0)]
    ensures Accepted(states[5], 1) && !Accepted(states[6], 0)
    ensures states[7].version == 1 && states[7].lease.held == Some(L.Lease(b, 2)) && !states[7].deleted
    ensures states[8].deleted && states[8].lease.held == None
  {
    var s0, s1, s2, s3, s4, s5 := TakenOver(graph, statuses, a, b);
    FirstSaveWins(graph, s5, 1, 0);
    var s6 := AfterSave(s5, 1, true);
    var s7 := s6.(lease := s6.lease.(held := None), deleted := true);
    steps := [Acquire(0, a, Some(1)), Load(0), Leasing(L.Expire), Acquire(1, b, Some(2)), Load(1),
              Persist(1, true), Persist(0, true), Finalize(0)];
    states := [s0, s1, s2, s3, s4, s5, s6, s6, s7];
  }

  // ---------- what each coordinator does ----------

  function ActionsOf(states: seq<Cluster>, steps: seq<Step>, id: nat, i: nat, j: nat): seq<P.Action>
    requires i <= j <= |steps| <= |states|
  {
    if i == j then [] else ActionsOf(states, steps, id, i, j - 1) + ActionOf(states[j - 1], steps[j - 1], id)
  }

  /** Memory, known copy and version are what a legal trace makes of the beginning. */
  ghost predicate IsTrace(graph: Dependencies, first: Coord, trace: seq<P.Action>, c: Coord) {
    && P.Legal(first.memory, graph, trace)
    && c.memory == P.Memory(first.memory, trace)
    && c.stored == P.Stored(first.memory, trace)
    && c.version == first.version + P.AcceptedSaves(trace)
  }

  lemma IsTraceMore(graph: Dependencies, first: Coord, trace: seq<P.Action>, c: Coord, did: seq<P.Action>, d: Coord)
    requires IsTrace(graph, first, trace, c) && Did(graph, c, did, d)
    ensures IsTrace(graph, first, trace + did, d)
  {
    if did == [] {
      assert trace + did == trace;
    } else {
      assert did == [did[0]];
      P.Extend(first.memory, graph, trace, did[0]);
    }
  }

  /** Every coordinator of every behaviour is one legal trace. */
  lemma {:induction false} CoordinatorIsATrace(
      graph: Dependencies, states: seq<Cluster>, steps: seq<Step>, id: nat, i: nat, j: nat)
    requires Behaviour(graph, states, steps) && i < j < |states| && Begins(steps[i], id)
    ensures id in states[i + 1].coords && id in states[j].coords
    ensures IsTrace(graph, states[i + 1].coords[id], ActionsOf(states, steps, id, i + 1, j), states[j].coords[id])
    decreases j
  {
    assert Next(graph, states[j - 1], steps[j - 1], states[j]);
    if i + 1 < j {
      CoordinatorIsATrace(graph, states, steps, id, i, j - 1);
      CoordStep(graph, states[j - 1], steps[j - 1], states[j], id);
      IsTraceMore(graph, states[i + 1].coords[id], ActionsOf(states, steps, id, i + 1, j - 1), states[j - 1].coords[id],
                  ActionOf(states[j - 1], steps[j - 1], id), states[j].coords[id]);
    } else {
      BeginStep(graph, states[i], steps[i], states[j], id);
    }
  }

  lemma DidMovesUp(graph: Dependencies, c: Coord, did: seq<P.Action>, d: Coord)
    requires Did(graph, c, did, d)
    ensures Below(c.memory, d.memory)
  {
    if did != [] {
      P.ActionMovesUp(c.memory, did[0]);
    }
  }

  lemma {:induction false} MemoryOnlyMovesUp(
      graph: Dependencies, states: seq<Cluster>, steps: seq<Step>, id: nat, i: nat, j: nat)
    requires Behaviour(graph, states, steps) && i <= j < |states| && id in states[i].coords
    ensures id in states[j].coords
    ensures Below(states[i].coords[id].memory, states[j].coords[id].memory)
    decreases j
  {
    if i < j {
      MemoryOnlyMovesUp(graph, states, steps, id, i, j - 1);
      var s, step, t := states[j - 1], steps[j - 1], states[j];
      assert Next(graph, s, step, t);
      CoordStep(graph, s, step, t, id);
      DidMovesUp(graph, s.coords[id], ActionOf(s, step, id), t.coords[id]);
      BelowTransitive(states[i].coords[id].memory, s.coords[id].memory, t.coords[id].memory);
    }
  }

  /** Once an accepted snapshot shows a node started, no coordinator that loads from then on
      ever dispatches it. */
  lemma NoDispatchAfterStarted(
      graph: Dependencies, states: seq<Cluster>, steps: seq<Step>, i: nat, j: nat, k: nat, id: nat, node: string)
    requires Behaviour(graph, states, steps) && i <= j < k < |steps|
    requires node in states[i].statuses && states[i].statuses[node] != Pending
    requires steps[j] == Load(id)
    ensures !(steps[k].Act? && steps[k].id == id && steps[k].action.Dispatch? && steps[k].action.node == node)
  {
    StoredOnlyMovesUp(graph, states, steps, i, j);
    assert states[i].statuses[node].AtMost(states[j].statuses[node]);
    assert Next(graph, states[j], steps[j], states[j + 1]);
    MemoryOnlyMovesUp(graph, states, steps, id, j + 1, k);
    assert states[j + 1].coords[id].memory[node].AtMost(states[k].coords[id].memory[node]);
    assert Next(graph, states[k], steps[k], states[k + 1]);
  }

  /** Whoever dispatches, and however stale it is, at that moment the store itself shows every
      dependency Success, and will for ever after. */
  lemma DependenciesAreDurable(
      graph: Dependencies, states: seq<Cluster>, steps: seq<Step>, k: nat, m: nat, node: string, d: string)
    requires Behaviour(graph, states, steps) && k < |steps| && k <= m < |states|
    requires steps[k].Act? && steps[k].action.Dispatch? && steps[k].action.node == node
    requires node in graph && d in graph[node]
    ensures Has(states[m].statuses, d, Success)
  {
    InvAlways(graph, states, steps, k);
    assert Next(graph, states[k], steps[k], states[k + 1]);
    var c := states[k].coords[steps[k].id];
    assert CoordInv(c, states[k].history);
    assert DepsSatisfied(c.stored, graph, node);
    assert Below(states[k].history[c.version], states[k].history[states[k].version]);
    assert c.stored[d].AtMost(states[k].statuses[d]);
    StoredOnlyMovesUp(graph, states, steps, k, m);
    assert states[k].statuses[d].AtMost(states[m].statuses[d]);
  }
}
