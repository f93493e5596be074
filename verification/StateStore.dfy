/** The run store: compare-and-swap saves, leases and the two listings the reaper uses.
    `RedisStateStore` follows the scripts, `InMemoryStateStore` is its in-process twin. */
module StateStore {
  import opened Common
  import opened Runs
  import opened RunTheory
  import opened Leases

  function Lookup<V>(m: map<string, V>, key: string): Option<V> {
    if key in m then Some(m[key]) else None
  }

  /** Runs that hold no lease and are not finished: the reaper re-adopts them. */
  function Orphaned(runs: map<string, RunState>, leased: set<string>): set<string> {
    set r | r in runs && !RunStateIsTerminal(runs[r]) && r !in leased
  }

  /** Runs that hold no lease and are finished: the reaper cleans them up. */
  function TerminalUnleased(runs: map<string, RunState>, leased: set<string>): set<string> {
    set r | r in runs && RunStateIsTerminal(runs[r]) && r !in leased
  }

  /** What the keys of the store went through: saves with their answers, and deletions. */
  datatype StoreOp = Saved(runId: string, state: RunState, accepted: bool) | Deleted(runId: string)

  function AfterOp(before: Option<RunState>, op: StoreOp, runId: string): Option<RunState> {
    if op.runId != runId then before
    else match op
      case Saved(_, state, accepted) => if accepted then Some(state) else before
      case Deleted(_) => None
  }

  /** The state of the last accepted save of this run, unless the run was deleted since. */
  function LastAccepted(history: seq<StoreOp>, runId: string): Option<RunState> {
    if history == [] then None
    else AfterOp(LastAccepted(history[..|history| - 1], runId), history[|history| - 1], runId)
  }

  /** Entry `i` is an accepted save of this run, and nothing later touched the run. */
  ghost predicate LastWrite(history: seq<StoreOp>, runId: string, state: RunState, i: nat) {
    && i < |history|
    && history[i] == Saved(runId, state, true)
    && forall j :: i < j < |history| && history[j].runId == runId ==> history[j].Saved? && !history[j].accepted
  }

  lemma {:induction false} LastAcceptedIs(history: seq<StoreOp>, runId: string, state: RunState)
    ensures LastAccepted(history, runId) == Some(state) <==> exists i: nat :: LastWrite(history, runId, state, i)
  {
    if history != [] {
      var n := |history| - 1;
      var front := history[..n];
      LastAcceptedIs(front, runId, state);
      if LastAccepted(history, runId) == Some(state) {
        if history[n] == Saved(runId, state, true) {
          assert LastWrite(history, runId, state, n);
        } else {
          var i: nat :| LastWrite(front, runId, state, i);
          assert LastWrite(history, runId, state, i);
        }
      }
      if i: nat :| LastWrite(history, runId, state, i) {
        if i < n {
          assert LastWrite(front, runId, state, i);
        }
      }
    }
  }

  lemma HistoryGrows(history: seq<StoreOp>, op: StoreOp)
    ensures forall r :: LastAccepted(history + [op], r) == AfterOp(LastAccepted(history, r), op, r)
  {
    assert (history + [op])[..|history|] == history;
  }

  /** After a deletion nothing is stored until a save is accepted again. */
  lemma {:induction false} DeletedUntilCreated(history: seq<StoreOp>, runId: string, i: nat)
    requires i < |history| && history[i] == Deleted(runId)
    requires forall j :: i < j < |history| && history[j].Saved? && history[j].runId == runId ==> !history[j].accepted
    ensures LastAccepted(history, runId) == None
  {
    if i < |history| - 1 {
      DeletedUntilCreated(history[..|history| - 1], runId, i);
    }
  }

  class InMemoryStateStore {
    var runs: map<string, RunState>
    var leases: map<string, Lease>
    var leaseCounter: nat
    ghost var history: seq<StoreOp>

    ghost predicate Valid()
      reads this`runs, this`history
    {
      forall r :: Lookup(runs, r) == LastAccepted(history, r)
    }

    constructor ()
      ensures Valid() && history == []
      ensures runs == map[] && leases == map[] && leaseCounter == 0
    {
      runs, leases, leaseCounter, history := map[], map[], 0, [];
    }

    ghost function LeaseOf(runId: string): LeaseState
      reads this
    {
      LeaseState(Lookup(leases, runId), leaseCounter)
    }

    ghost method Note(op: StoreOp)
      modifies this`history
      ensures history == old(history) + [op]
      ensures forall r :: LastAccepted(history, r) == AfterOp(LastAccepted(old(history), r), op, r)
    {
      HistoryGrows(history, op);
      history := history + [op];
    }

    /** The fencing rule: the stored version must be the expected one; while nothing is stored a
        save must expect version 0. */
    method SaveRun(runId: string, state: RunState, expectedVersion: nat) returns (accepted: bool)
      requires Valid()
      modifies this`runs, this`history
      ensures Valid() && history == old(history) + [Saved(runId, state, accepted)]
      ensures accepted <==> match LastAccepted(old(history), runId)
        case None => expectedVersion == 0
        case Some(stored) => stored.version == expectedVersion
      ensures runs == if accepted then old(runs)[runId := state] else old(runs)
    {
      if runId in runs && runs[runId].version != expectedVersion {
        Note(Saved(runId, state, false));
        return false;
      }
      if runId !in runs && expectedVersion != 0 {
        Note(Saved(runId, state, false));
        return false;
      }
      runs := runs[runId := state];
      Note(Saved(runId, state, true));
      return true;
    }

    /** What the last accepted save since the last deletion wrote. */
    method LoadRun(runId: string) returns (state: Option<RunState>)
      requires Valid()
      ensures state == LastAccepted(history, runId)
    {
      state := if runId in runs then Some(runs[runId]) else None;
    }

    method DeleteRun(runId: string)
      requires Valid()
      modifies this`runs, this`history
      ensures Valid() && history == old(history) + [Deleted(runId)]
      ensures runs == old(runs) - {runId}
    {
      runs := runs - {runId};
      Note(Deleted(runId));
    }

    method TryAcquireLease(runId: string, serverId: string) returns (token: Option<nat>)
      modifies this`leases, this`leaseCounter
      ensures token == if runId in old(leases) then None else Some(old(leaseCounter) + 1)
      ensures leases == if token.None? then old(leases) else old(leases)[runId := Lease(serverId, token.value)]
      ensures leaseCounter == if token.None? then old(leaseCounter) else token.value
      ensures LeaseNext(old(LeaseOf(runId)), Acquire(serverId, token), LeaseOf(runId))
      ensures forall r :: r != runId ==> LeaseNext(old(LeaseOf(r)), OtherRun, LeaseOf(r))
    {
      if runId in leases {
        return None;
      }
      leaseCounter := leaseCounter + 1;
      leases := leases[runId := Lease(serverId, leaseCounter)];
      return Some(leaseCounter);
    }

    method RenewLease(runId: string, serverId: string, leaseVersion: nat) returns (renewed: bool)
      ensures renewed <==> runId in leases && leases[runId] == Lease(serverId, leaseVersion)
      ensures LeaseNext(LeaseOf(runId), Renew(serverId, leaseVersion, renewed), LeaseOf(runId))
    {
      renewed := runId in leases && leases[runId].serverId == serverId && leases[runId].version == leaseVersion;
    }

    /** Unconditional: the caller's token is not looked at. */
    method ReleaseLease(runId: string)
      modifies this`leases
      ensures leases == old(leases) - {runId}
      ensures LeaseNext(old(LeaseOf(runId)), Release, LeaseOf(runId))
      ensures forall r :: r != runId ==> LeaseOf(r) == old(LeaseOf(r))
    {
      leases := leases - {runId};
    }

    method GetOrphanedRuns() returns (ids: seq<string>)
      ensures Elements(ids) == Orphaned(runs, leases.Keys) && Distinct(ids)
      ensures forall r :: r in ids <==> r in runs && r !in leases && !RunStateIsTerminal(runs[r])
    {
      ids := InAnyOrder(set r | r in runs && !RunStateIsTerminal(runs[r]) && r !in leases);
      assert Elements(ids) == Orphaned(runs, leases.Keys);
      assert forall r :: r in ids <==> r in Elements(ids);
    }

    method ListTerminalUnleasedRuns() returns (ids: seq<string>)
      ensures Elements(ids) == TerminalUnleased(runs, leases.Keys) && Distinct(ids)
      ensures forall r :: r in ids <==> r in runs && r !in leases && RunStateIsTerminal(runs[r])
    {
      ids := InAnyOrder(set r | r in runs && RunStateIsTerminal(runs[r]) && r !in leases);
      assert Elements(ids) == TerminalUnleased(runs, leases.Keys);
      assert forall r :: r in ids <==> r in Elements(ids);
    }
  }

  // ---------- Redis keys ----------

  const PREFIX := "jefferies:run:"

  function StateKey(runId: string): string {
    PREFIX + runId + ":state"
  }

  function LeaseKey(runId: string): string {
    PREFIX + runId + ":lease"
  }

  function Split(s: string): (parts: seq<string>)
    ensures |parts| >= 1
  {
    if s == "" then [""]
    else
      var rest := Split(s[1..]);
      if s[0] == ':' then [""] + rest else [[s[0]] + rest[0]] + rest[1..]
  }

  lemma {:induction false} SplitAtColon(a: string, b: string)
    requires ':' !in a
    ensures Split(a + ":" + b) == [a] + Split(b)
  {
    var s := a + ":" + b;
    if a == "" {
      assert s[1..] == b;
    } else {
      SplitAtColon(a[1..], b);
      assert s[1..] == a[1..] + ":" + b;
      assert [a[0]] + a[1..] == a;
    }
  }

  lemma {:induction false} SplitWithoutColon(a: string)
    requires ':' !in a
    ensures Split(a) == [a]
  {
    if a == "" {
      assert Split(a) == [""];
    } else {
      SplitWithoutColon(a[1..]);
      assert [a[0]] + a[1..] == a;
    }
  }

  lemma FirstColon(s: string) returns (front: string, rest: string)
    requires ':' in s
    ensures s == front + ":" + rest && ':' !in front
  {
    var i := 0;
    while s[i] != ':'
      invariant i < |s| && ':' !in s[..i] && ':' in s[i..]
      decreases |s| - i
    {
      assert s[..i + 1] == s[..i] + [s[i]] && s[i..] == [s[i]] + s[i + 1..];
      i := i + 1;
    }
    front, rest := s[..i], s[i + 1..];
  }

  lemma ThirdPart(runId: string, front: string, rest: string)
    requires ':' !in front && StateKey(runId) == PREFIX + front + ":" + rest
    ensures |Split(StateKey(runId))| == 3 + |Split(rest)|
    ensures Split(StateKey(runId))[2] == front
  {
    assert StateKey(runId) == "jefferies" + ":" + ("run" + ":" + (front + ":" + rest));
    SplitAtColon("jefferies", "run" + ":" + (front + ":" + rest));
    SplitAtColon("run", front + ":" + rest);
    SplitAtColon(front, rest);
  }

  /** Taking the third colon-separated part of a state key gives back the run id exactly when
      the run id has no colon; the ids the server makes have none. */
  lemma RunIdOfStateKey(runId: string)
    ensures |Split(StateKey(runId))| >= 4
    ensures Split(StateKey(runId))[2] == runId <==> ':' !in runId
  {
    if ':' in runId {
      var front, rest := FirstColon(runId);
      assert StateKey(runId) == PREFIX + front + ":" + (rest + ":state");
      ThirdPart(runId, front, rest + ":state");
      assert |front| < |runId|;
    } else {
      assert StateKey(runId) == PREFIX + runId + ":" + "state";
      ThirdPart(runId, runId, "state");
    }
  }

  lemma KeysAreInjective(a: string, b: string)
    ensures StateKey(a) == StateKey(b) ==> a == b
    ensures LeaseKey(a) == LeaseKey(b) ==> a == b
    ensures StateKey(a) != LeaseKey(b)
  {
    assert StateKey(a)[|StateKey(a)| - 5] == 's' && LeaseKey(b)[|LeaseKey(b)| - 5] == 'l';
    assert StateKey(a)[|PREFIX|..|StateKey(a)| - 6] == a && StateKey(b)[|PREFIX|..|StateKey(b)| - 6] == b;
    assert LeaseKey(a)[|PREFIX|..|LeaseKey(a)| - 6] == a && LeaseKey(b)[|PREFIX|..|LeaseKey(b)| - 6] == b;
  }

  /** The keys of the store by what they hold: run states, leases, and per-run token counters. */
  class RedisStateStore {
    var states: map<string, RunState>
    var leases: map<string, Lease>
    var counters: map<string, nat>
    ghost var history: seq<StoreOp>

    ghost predicate Valid()
      reads this`states, this`history
    {
      forall r :: Lookup(states, StateKey(r)) == LastAccepted(history, r)
    }

    constructor ()
      ensures Valid() && history == []
      ensures states == map[] && leases == map[] && counters == map[]
    {
      states, leases, counters, history := map[], map[], map[], [];
    }

    ghost function LeaseOf(runId: string): LeaseState
      reads this
    {
      var key := LeaseKey(runId);
      LeaseState(Lookup(leases, key), if key in counters then counters[key] else 0)
    }

    method SaveRun(runId: string, state: RunState, expectedVersion: nat) returns (accepted: bool)
      requires Valid()
      modifies this`states, this`history
      ensures Valid() && history == old(history) + [Saved(runId, state, accepted)]
      ensures accepted <==> match LastAccepted(old(history), runId)
        case None => expectedVersion == 0
        case Some(stored) => stored.version == expectedVersion
      ensures states == if accepted then old(states)[StateKey(runId) := state] else old(states)
    {
      accepted := SaveScript(StateKey(runId), state, expectedVersion);
      forall r ensures StateKey(r) == StateKey(runId) ==> r == runId {
        KeysAreInjective(r, runId);
      }
      HistoryGrows(history, Saved(runId, state, accepted));
      history := history + [Saved(runId, state, accepted)];
    }

    method SaveScript(key: string, state: RunState, expectedVersion: nat) returns (accepted: bool)
      modifies this`states
      ensures accepted <==>
        if key in old(states) then old(states)[key].version == expectedVersion else expectedVersion == 0
      ensures states == if accepted then old(states)[key := state] else old(states)
    {
      if key !in states {
        if expectedVersion == 0 {
          states := states[key := state];
          return true;
        } else {
          return false;
        }
      }
      if states[key].version == expectedVersion {
        states := states[key := state];
        return true;
      } else {
        return false;
      }
    }

    method LoadRun(runId: string) returns (state: Option<RunState>)
      requires Valid()
      ensures state == LastAccepted(history, runId)
    {
      var key := StateKey(runId);
      state := if key in states then Some(states[key]) else None;
      assert Lookup(states, key) == LastAccepted(history, runId);
    }

    method DeleteRun(runId: string)
      requires Valid()
      modifies this`states, this`history
      ensures Valid() && history == old(history) + [Deleted(runId)]
      ensures states == old(states) - {StateKey(runId)}
    {
      forall r ensures StateKey(r) == StateKey(runId) ==> r == runId {
        KeysAreInjective(r, runId);
      }
      states := states - {StateKey(runId)};
      HistoryGrows(history, Deleted(runId));
      history := history + [Deleted(runId)];
    }

    method TryAcquireLease(runId: string, serverId: string) returns (token: Option<nat>)
      modifies this`leases, this`counters
      ensures var key := LeaseKey(runId);
        var next := (if key in old(counters) then old(counters)[key] else 0) + 1;
        && token == (if key in old(leases) then None else Some(next))
        && leases == (if token.None? then old(leases) else old(leases)[key := Lease(serverId, next)])
        && counters == (if token.None? then old(counters) else old(counters)[key := next])
      ensures LeaseNext(old(LeaseOf(runId)), Acquire(serverId, token), LeaseOf(runId))
      ensures forall r :: r != runId ==> LeaseNext(old(LeaseOf(r)), OtherRun, LeaseOf(r))
    {
      var key := LeaseKey(runId);
      forall r ensures LeaseKey(r) == key ==> r == runId {
        KeysAreInjective(r, runId);
      }
      if key in leases {
        return None;
      }
      var version := (if key in counters then counters[key] else 0) + 1;
      counters := counters[key := version];
      leases := leases[key := Lease(serverId, version)];
      return Some(version);
    }

    method RenewLease(runId: string, serverId: string, leaseVersion: nat) returns (renewed: bool)
      ensures renewed <==> LeaseKey(runId) in leases && leases[LeaseKey(runId)] == Lease(serverId, leaseVersion)
      ensures LeaseNext(LeaseOf(runId), Renew(serverId, leaseVersion, renewed), LeaseOf(runId))
    {
      var key := LeaseKey(runId);
      if key !in leases {
        return false;
      }
      return leases[key].serverId == serverId && leases[key].version == leaseVersion;
    }

    /** Deletes the lease key; the token counter stays, so tokens keep growing. */
    method ReleaseLease(runId: string)
      modifies this`leases
      ensures leases == old(leases) - {LeaseKey(runId)}
      ensures LeaseNext(old(LeaseOf(runId)), Release, LeaseOf(runId))
      ensures forall r :: r != runId ==> LeaseOf(r) == old(LeaseOf(r))
    {
      forall r ensures LeaseKey(r) == LeaseKey(runId) ==> r == runId {
        KeysAreInjective(r, runId);
      }
      leases := leases - {LeaseKey(runId)};
    }

    ghost predicate Lists(terminal: bool, key: string, id: string)
      reads this
    {
      && key in states
      && |Split(key)| >= 4 && Split(key)[2] == id
      && RunStateIsTerminal(states[key]) == terminal
      && LeaseKey(id) !in leases
    }

    /** One scan over the state keys; `terminal` selects which of the two listings it makes. */
    method Scan(terminal: bool) returns (ids: seq<string>)
      ensures forall id :: id in ids <==> exists key :: Lists(terminal, key, id)
    {
      ids := [];
      var keys := states.Keys;
      while keys != {}
        invariant keys <= states.Keys
        invariant forall id :: id in ids <==> exists key :: key !in keys && Lists(terminal, key, id)
        decreases keys
      {
        var key :| key in keys;
        keys := keys - {key};
        var parts := Split(key);
        if |parts| < 4 {
          continue;
        }
        var runId := parts[2];
        if RunStateIsTerminal(states[key]) != terminal {
          continue;
        }
        if LeaseKey(runId) !in leases {
          assert Lists(terminal, key, runId);
          ids := ids + [runId];
        }
      }
    }

    /** When no stored run id has a colon, the two scans are the two listings. */
    lemma ScanIsTheListing(terminal: bool, id: string)
      requires forall key :: key in states ==> exists r :: ':' !in r && key == StateKey(r)
      ensures (exists key :: Lists(terminal, key, id)) <==>
        && StateKey(id) in states
        && RunStateIsTerminal(states[StateKey(id)]) == terminal
        && LeaseKey(id) !in leases
    {
      if key :| Lists(terminal, key, id) {
        var r :| ':' !in r && key == StateKey(r);
        RunIdOfStateKey(r);
      }
      if StateKey(id) in states && RunStateIsTerminal(states[StateKey(id)]) == terminal && LeaseKey(id) !in leases {
        var r :| ':' !in r && StateKey(id) == StateKey(r);
        KeysAreInjective(id, r);
        RunIdOfStateKey(id);
        assert Lists(terminal, StateKey(id), id);
      }
    }
  }
}
