/** The life of one run's lease key: grants with growing tokens, renewals, releases, expiry. */
module Leases {
  import opened Common

  datatype Lease = Lease(serverId: string, version: nat)

  /** What the store knows about one run: who holds the lease, and the last token handed out. */
  datatype LeaseState = LeaseState(held: Option<Lease>, counter: nat)

  datatype LeaseOp =
    | Acquire(server: string, granted: Option<nat>)
    | Renew(holder: string, token: nat, renewed: bool)
    | Release
    | Expire
    /** A grant for another run; it moves the counter when the counter is shared. */
    | OtherRun

  ghost predicate LeaseNext(s: LeaseState, op: LeaseOp, t: LeaseState) {
    match op
    case Acquire(server, None) => s.held.Some? && t == s
    case Acquire(server, Some(token)) =>
      s.held.None? && token == s.counter + 1 && t == LeaseState(Some(Lease(server, token)), token)
    case Renew(server, token, renewed) => t == s && (renewed <==> s.held == Some(Lease(server, token)))
    case Release => t == s.(held := None)
    case Expire => t == s.(held := None)
    case OtherRun => t.held == s.held && s.counter <= t.counter
  }

  ghost predicate LeaseHistory(states: seq<LeaseState>, ops: seq<LeaseOp>) {
    && |states| == |ops| + 1
    && states[0].held == None
    && forall i :: 0 <= i < |ops| ==> LeaseNext(states[i], ops[i], states[i + 1])
  }

  predicate Grants(op: LeaseOp, server: string, token: nat) {
    op == Acquire(server, Some(token))
  }

  predicate HoldsToken(s: LeaseState, token: nat) {
    s.held.Some? && s.held.value.version == token
  }

  lemma {:induction false} CounterGrows(states: seq<LeaseState>, ops: seq<LeaseOp>, i: nat, j: nat)
    requires LeaseHistory(states, ops) && i <= j < |states|
    ensures states[i].counter <= states[j].counter
    ensures states[j].held.Some? ==> states[j].held.value.version <= states[j].counter
    decreases j
  {
    if j == 0 {
    } else if i == j {
      CounterGrows(states, ops, 0, j - 1);
      assert LeaseNext(states[j - 1], ops[j - 1], states[j]);
    } else {
      CounterGrows(states, ops, i, j - 1);
      assert LeaseNext(states[j - 1], ops[j - 1], states[j]);
    }
  }

  /** Later grants carry larger tokens, whoever asks and whatever happened in between. */
  lemma {:induction false} TokensIncrease(
      states: seq<LeaseState>, ops: seq<LeaseOp>, i: nat, j: nat, a: string, t: nat, b: string, u: nat)
    requires LeaseHistory(states, ops) && i < j < |ops|
    requires Grants(ops[i], a, t) && Grants(ops[j], b, u)
    ensures t < u
  {
    assert LeaseNext(states[i], ops[i], states[i + 1]) && LeaseNext(states[j], ops[j], states[j + 1]);
    CounterGrows(states, ops, i + 1, j);
  }

  /** A token that is not held at some moment after its grant is never held again. */
  lemma {:induction false} LostForever(
      states: seq<LeaseState>, ops: seq<LeaseOp>, i: nat, a: string, t: nat, j: nat, k: nat)
    requires LeaseHistory(states, ops) && i < j <= k < |states|
    requires Grants(ops[i], a, t) && !HoldsToken(states[j], t)
    ensures !HoldsToken(states[k], t)
    decreases k
  {
    if j < k {
      LostForever(states, ops, i, a, t, j, k - 1);
      assert LeaseNext(states[i], ops[i], states[i + 1]) && LeaseNext(states[k - 1], ops[k - 1], states[k]);
      CounterGrows(states, ops, i + 1, k - 1);
    }
  }

  lemma {:induction false} HolderIsTheGrantee(
      states: seq<LeaseState>, ops: seq<LeaseOp>, i: nat, a: string, t: nat, k: nat)
    requires LeaseHistory(states, ops) && i < k < |states|
    requires Grants(ops[i], a, t) && HoldsToken(states[k], t)
    ensures states[k].held == Some(Lease(a, t))
    decreases k
  {
    assert LeaseNext(states[i], ops[i], states[i + 1]) && LeaseNext(states[k - 1], ops[k - 1], states[k]);
    if i + 1 < k {
      CounterGrows(states, ops, i + 1, k - 1);
      HolderIsTheGrantee(states, ops, i, a, t, k - 1);
    }
  }

  /** A renewal succeeds only for the server that was granted the token, and only if nothing
      has taken the lease away since: no release, no expiry, no other grant. */
  lemma {:induction false} RenewalMeansUninterrupted(
      states: seq<LeaseState>, ops: seq<LeaseOp>, i: nat, a: string, t: nat, k: nat, b: string)
    requires LeaseHistory(states, ops) && i < k < |ops|
    requires Grants(ops[i], a, t) && ops[k] == Renew(b, t, true)
    ensures b == a
    ensures forall m :: i < m < k ==>
      ops[m] != Release && ops[m] != Expire && !(ops[m].Acquire? && ops[m].granted.Some?)
  {
    assert LeaseNext(states[k], ops[k], states[k + 1]);
    HolderIsTheGrantee(states, ops, i, a, t, k);
    forall m | i < m < k
      ensures ops[m] != Release && ops[m] != Expire && !(ops[m].Acquire? && ops[m].granted.Some?)
    {
      assert LeaseNext(states[m], ops[m], states[m + 1]);
      if !HoldsToken(states[m + 1], t) {
        LostForever(states, ops, i, a, t, m + 1, k);
      } else if ops[m].Acquire? && ops[m].granted.Some? {
        TokensIncrease(states, ops, i, m, a, t, ops[m].server, ops[m].granted.value);
      }
    }
  }

  /** Conversely, an uninterrupted lease can always be renewed by its holder. */
  lemma {:induction false} UninterruptedIsRenewable(
      states: seq<LeaseState>, ops: seq<LeaseOp>, i: nat, a: string, t: nat, k: nat)
    requires LeaseHistory(states, ops) && i < k < |states|
    requires Grants(ops[i], a, t)
    requires forall m :: i < m < k ==> ops[m] != Release && ops[m] != Expire
    ensures states[k].held == Some(Lease(a, t))
    decreases k
  {
    assert LeaseNext(states[k - 1], ops[k - 1], states[k]);
    if i + 1 < k {
      UninterruptedIsRenewable(states, ops, i, a, t, k - 1);
    }
  }
}
