/** The pod watcher: classifies pod events, forwards each (kind, node, pod) once, and reports
    running nodes whose pods are gone. */
module PodWatcher {
  import opened Common

  datatype Reason =
    | ImagePullFailed(image: string, message: string)
    | OOMKilled
    | InitContainerFailed(name: string, cause: InitCause)
    | ContainerCreateError(waitingReason: string, message: string)
    | ContainerTerminated(exitCode: int, reason: string, message: string)
    | PodDeletedUnexpectedly

  datatype InitCause = CannotPull(waitingReason: string, message: string) | Exited(exitCode: int, message: string)

  datatype PodSignal =
    | PodRunning(node: string, uid: string)
    | InfraFailure(node: string, uid: string, reason: Reason)

  datatype Waiting = Waiting(reason: Option<string>, message: Option<string>)

  datatype Terminated = Terminated(exitCode: int, reason: Option<string>, message: Option<string>)

  datatype ContainerState = ContainerState(waiting: Option<Waiting>, terminated: Option<Terminated>, running: bool)

  datatype Container = Container(name: string, image: string, state: Option<ContainerState>)

  datatype PodStatus = PodStatus(initContainers: Option<seq<Container>>, containers: Option<seq<Container>>)

  /** The parts of a pod the watcher looks at: node annotation, uid, status. */
  datatype Pod = Pod(node: Option<string>, uid: Option<string>, status: Option<PodStatus>)

  function Or(text: Option<string>, default: string): string {
    if text.Some? then text.value else default
  }

  predicate PullFails(reason: string) {
    reason == "ImagePullBackOff" || reason == "ErrImagePull"
  }

  /** The first init container that failed; a container without a state ends the search. */
  function ClassifyInit(containers: seq<Container>): Option<Reason> {
    if containers == [] || containers[0].state.None? then None
    else
      var c, state := containers[0], containers[0].state.value;
      if state.waiting.Some? && PullFails(Or(state.waiting.value.reason, "")) then
        Some(InitContainerFailed(
          c.name, CannotPull(Or(state.waiting.value.reason, ""), Or(state.waiting.value.message, ""))))
      else if state.terminated.Some? && state.terminated.value.exitCode != 0 then
        Some(InitContainerFailed(
          c.name, Exited(state.terminated.value.exitCode, Or(state.terminated.value.message, ""))))
      else ClassifyInit(containers[1..])
  }

  /** The first main container that failed or runs decides. */
  function ClassifyMain(containers: seq<Container>, node: string, uid: string): Option<PodSignal> {
    if containers == [] || containers[0].state.None? then None
    else
      var c, state := containers[0], containers[0].state.value;
      var waitingFor := if state.waiting.Some? then Or(state.waiting.value.reason, "") else "";
      var message := if state.waiting.Some? then Or(state.waiting.value.message, "") else "";
      if PullFails(waitingFor) then
        Some(InfraFailure(node, uid, ImagePullFailed(c.image, message)))
      else if waitingFor == "CreateContainerConfigError" || waitingFor == "CreateContainerError" then
        Some(InfraFailure(node, uid, ContainerCreateError(waitingFor, message)))
      else if state.terminated.Some? && state.terminated.value.reason == Some("OOMKilled") then
        Some(InfraFailure(node, uid, OOMKilled))
      else if state.terminated.Some? && state.terminated.value.exitCode != 0 then
        var t := state.terminated.value;
        Some(InfraFailure(node, uid, ContainerTerminated(t.exitCode, Or(t.reason, ""), Or(t.message, ""))))
      else if state.running then
        Some(PodRunning(node, uid))
      else ClassifyMain(containers[1..], node, uid)
  }

  function Classify(pod: Pod): Option<PodSignal> {
    if pod.node.None? || pod.uid.None? || pod.status.None? then None
    else
      var status := pod.status.value;
      var failed := if status.initContainers.Some? then ClassifyInit(status.initContainers.value) else None;
      if failed.Some? then Some(InfraFailure(pod.node.value, pod.uid.value, failed.value))
      else if status.containers.None? then None
      else ClassifyMain(status.containers.value, pod.node.value, pod.uid.value)
  }

  lemma {:induction false} MainSignal(containers: seq<Container>, node: string, uid: string)
    ensures var s := ClassifyMain(containers, node, uid);
      s.Some? ==>
        && s.value.node == node && s.value.uid == uid
        && (s.value.InfraFailure? ==> s.value.reason != PodDeletedUnexpectedly)
  {
    if containers != [] {
      MainSignal(containers[1..], node, uid);
    }
  }

  lemma {:induction false} InitReason(containers: seq<Container>)
    ensures ClassifyInit(containers).Some? ==> ClassifyInit(containers).value != PodDeletedUnexpectedly
  {
    if containers != [] {
      InitReason(containers[1..]);
    }
  }

  /** A classified pod speaks for its own node and uid, and never claims a deletion. */
  lemma ClassifiedSpeaksForItself(pod: Pod)
    ensures var s := Classify(pod);
      s.Some? ==>
        && pod.node == Some(s.value.node) && pod.uid == Some(s.value.uid)
        && (s.value.InfraFailure? ==> s.value.reason != PodDeletedUnexpectedly)
  {
    if pod.node.Some? && pod.uid.Some? && pod.status.Some? {
      var status := pod.status.value;
      if status.initContainers.Some? {
        InitReason(status.initContainers.value);
      }
      if status.containers.Some? {
        MainSignal(status.containers.value, pod.node.value, pod.uid.value);
      }
    }
  }

  predicate Waits(c: Container, reason: string) {
    c.state.Some? && c.state.value.waiting.Some? && c.state.value.waiting.value.reason == Some(reason)
  }

  predicate CannotStart(c: Container) {
    || Waits(c, "ImagePullBackOff") || Waits(c, "ErrImagePull")
    || Waits(c, "CreateContainerConfigError") || Waits(c, "CreateContainerError")
  }

  predicate KilledForMemory(c: Container) {
    c.state.Some? && c.state.value.terminated.Some? && c.state.value.terminated.value.reason == Some("OOMKilled")
  }

  predicate ExitedBadly(c: Container) {
    c.state.Some? && c.state.value.terminated.Some? && c.state.value.terminated.value.exitCode != 0
  }

  /** A container that neither fails nor runs leaves the decision to the next one. */
  predicate Undecided(c: Container) {
    c.state.Some? && !CannotStart(c) && !KilledForMemory(c) && !ExitedBadly(c) && !c.state.value.running
  }

  /** The first container that is not undecided gives the signal: why it cannot start, else that it
      was killed for memory, else that it exited badly, else that it runs. */
  lemma {:induction false} MainDecidedBy(containers: seq<Container>, i: nat, node: string, uid: string)
    requires i <= |containers| && forall k :: 0 <= k < i ==> Undecided(containers[k])
    ensures i == |containers| ==> ClassifyMain(containers, node, uid) == None
    ensures i < |containers| && containers[i].state.None? ==> ClassifyMain(containers, node, uid) == None
    ensures i < |containers| && CannotStart(containers[i]) ==>
      var waiting := containers[i].state.value.waiting.value;
      ClassifyMain(containers, node, uid) == Some(InfraFailure(node, uid,
        if waiting.reason == Some("ImagePullBackOff") || waiting.reason == Some("ErrImagePull")
        then ImagePullFailed(containers[i].image, if waiting.message.Some? then waiting.message.value else "")
        else ContainerCreateError(waiting.reason.value, if waiting.message.Some? then waiting.message.value else "")))
    ensures i < |containers| && !CannotStart(containers[i]) && KilledForMemory(containers[i]) ==>
      ClassifyMain(containers, node, uid) == Some(InfraFailure(node, uid, OOMKilled))
    ensures
      i < |containers| && !CannotStart(containers[i]) && !KilledForMemory(containers[i]) && ExitedBadly(containers[i])
      ==>
      var t := containers[i].state.value.terminated.value;
      ClassifyMain(containers, node, uid) == Some(InfraFailure(node, uid, ContainerTerminated(
        t.exitCode, if t.reason.Some? then t.reason.value else "", if t.message.Some? then t.message.value else "")))
    ensures
      && i < |containers| && containers[i].state.Some? && containers[i].state.value.running
      && !CannotStart(containers[i]) && !KilledForMemory(containers[i]) && !ExitedBadly(containers[i])
      ==> ClassifyMain(containers, node, uid) == Some(PodRunning(node, uid))
  {
    if i > 0 {
      MainDecidedBy(containers[1..], i - 1, node, uid);
    }
  }

  predicate InitFails(c: Container) {
    Waits(c, "ImagePullBackOff") || Waits(c, "ErrImagePull") || ExitedBadly(c)
  }

  /** The first init container that failed decides, unless one before it has no state yet. */
  lemma {:induction false} InitDecidedBy(containers: seq<Container>, i: nat)
    requires i <= |containers|
    requires forall k :: 0 <= k < i ==> containers[k].state.Some? && !InitFails(containers[k])
    ensures i == |containers| ==> ClassifyInit(containers) == None
    ensures i < |containers| && containers[i].state.None? ==> ClassifyInit(containers) == None
    ensures i < |containers| && InitFails(containers[i]) ==>
      && ClassifyInit(containers).Some? && ClassifyInit(containers).value.InitContainerFailed?
      && ClassifyInit(containers).value.name == containers[i].name
      && var state, cause := containers[i].state.value, ClassifyInit(containers).value.cause;
         if Waits(containers[i], "ImagePullBackOff") || Waits(containers[i], "ErrImagePull") then
           && cause.CannotPull? && Some(cause.waitingReason) == state.waiting.value.reason
           && cause.message == if state.waiting.value.message.Some? then state.waiting.value.message.value else ""
         else
           && cause.Exited? && cause.exitCode == state.terminated.value.exitCode
           && cause.message == if state.terminated.value.message.Some? then state.terminated.value.message.value else ""
  {
    if i > 0 {
      InitDecidedBy(containers[1..], i - 1);
    }
  }

  /** A failed init container hides whatever the main containers do. */
  lemma FailedInitHides(pod: Pod, i: nat)
    requires pod.node.Some? && pod.uid.Some? && pod.status.Some? && pod.status.value.initContainers.Some?
    requires var inits := pod.status.value.initContainers.value;
      && i < |inits| && InitFails(inits[i])
      && forall k :: 0 <= k < i ==> inits[k].state.Some? && !InitFails(inits[k])
    ensures Classify(pod).Some? && Classify(pod).value.InfraFailure?
    ensures Classify(pod).value.node == pod.node.value && Classify(pod).value.uid == pod.uid.value
    ensures var reason := Classify(pod).value.reason;
      reason.InitContainerFailed? && reason.name == pod.status.value.initContainers.value[i].name
  {
    InitDecidedBy(pod.status.value.initContainers.value, i);
  }

  /** A pod counts as running from the first container that runs, when no container before it and no
      init container whose state is known has failed. */
  lemma RunningPod(pod: Pod, i: nat)
    requires pod.node.Some? && pod.uid.Some? && pod.status.Some? && pod.status.value.containers.Some?
    requires pod.status.value.initContainers.Some? ==>
      forall c :: c in pod.status.value.initContainers.value ==> !InitFails(c)
    requires var mains := pod.status.value.containers.value;
      && i < |mains| && mains[i].state.Some? && mains[i].state.value.running
      && !CannotStart(mains[i]) && !KilledForMemory(mains[i]) && !ExitedBadly(mains[i])
      && forall k :: 0 <= k < i ==> Undecided(mains[k])
    ensures Classify(pod) == Some(PodRunning(pod.node.value, pod.uid.value))
  {
    if pod.status.value.initContainers.Some? {
      NoInitFailure(pod.status.value.initContainers.value);
    }
    MainDecidedBy(pod.status.value.containers.value, i, pod.node.value, pod.uid.value);
  }

  lemma {:induction false} NoInitFailure(containers: seq<Container>)
    requires forall c :: c in containers ==> !InitFails(c)
    ensures ClassifyInit(containers) == None
  {
    if containers != [] && containers[0].state.Some? {
      assert !InitFails(containers[0]);
      NoInitFailure(containers[1..]);
    }
  }

  // ---------- what the watcher should send ----------

  const SENTINEL := "__rehydrated__"

  datatype Input =
    | InitApply(pod: Pod)
    | Apply(pod: Pod)
    | Delete(pod: Pod)
    | Init
    | InitDone
    | ExpectDeletion(node: string)

  datatype Key = Key(running: bool, node: string, uid: string)

  function KeyOf(s: PodSignal): Key {
    Key(s.PodRunning?, s.node, s.uid)
  }

  predicate Sent(signals: seq<PodSignal>, key: Key) {
    exists k :: 0 <= k < |signals| && KeyOf(signals[k]) == key
  }

  predicate SawRunning(signals: seq<PodSignal>, node: string) {
    exists k :: 0 <= k < |signals| && signals[k].PodRunning? && signals[k].node == node
  }

  predicate ObservedIn(past: seq<Input>, node: string) {
    exists i :: 0 <= i < |past| && past[i].InitApply? && past[i].pod.node == Some(node)
  }

  function Missing(seed: set<string>, past: seq<Input>): set<string> {
    set n | n in seed && !ObservedIn(past, n)
  }

  function Gone(node: string, uid: string): PodSignal {
    InfraFailure(node, uid, PodDeletedUnexpectedly)
  }

  function Unless(suppressed: bool, s: PodSignal): seq<PodSignal> {
    if suppressed then [] else [s]
  }

  ghost predicate ReportsMissing(missing: set<string>, batch: seq<PodSignal>) {
    && (forall k :: 0 <= k < |batch| ==> batch[k].node in missing && batch[k] == Gone(batch[k].node, SENTINEL))
    && (forall n :: n in missing ==> Gone(n, SENTINEL) in batch)
    && (forall j, k :: 0 <= j < k < |batch| ==> batch[j].node != batch[k].node)
  }

  /** What one input makes the watcher send, given everything that came and was sent before. */
  ghost predicate Reacts(
      seed: set<string>, past: seq<Input>, sent: seq<PodSignal>, input: Input, batch: seq<PodSignal>)
  {
    match input
    case InitApply(pod) => ReactsToPod(sent, pod, batch)
    case Apply(pod) => ReactsToPod(sent, pod, batch)
    case Delete(pod) =>
      if pod.node.None? || ExpectDeletion(pod.node.value) in past
        || !(pod.node.value in seed || SawRunning(sent, pod.node.value))
      then batch == []
      else
        var s := Gone(pod.node.value, Or(pod.uid, ""));
        batch == Unless(Sent(sent, KeyOf(s)), s)
    case InitDone => if InitDone in past then batch == [] else ReportsMissing(Missing(seed, past), batch)
    case _ => batch == []
  }

  predicate ReactsToPod(sent: seq<PodSignal>, pod: Pod, batch: seq<PodSignal>) {
    match Classify(pod)
    case None => batch == []
    case Some(s) => batch == Unless(Sent(sent, KeyOf(s)), s)
  }

  function Flat(batches: seq<seq<PodSignal>>): seq<PodSignal> {
    if batches == [] then [] else Flat(batches[..|batches| - 1]) + batches[|batches| - 1]
  }

  /** A whole run of the watcher: one batch of signals per input. */
  ghost predicate Watched(seed: set<string>, inputs: seq<Input>, batches: seq<seq<PodSignal>>) {
    && |inputs| == |batches|
    && (inputs != [] ==>
          var n := |inputs| - 1;
          && Watched(seed, inputs[..n], batches[..n])
          && Reacts(seed, inputs[..n], Flat(batches[..n]), inputs[n], batches[n]))
  }

  predicate OrdinaryPod(input: Input) {
    (input.InitApply? || input.Apply? || input.Delete?) ==> input.pod.uid != Some(SENTINEL)
  }

  // ---------- what follows for whole traces ----------

  ghost predicate DistinctKeys(signals: seq<PodSignal>) {
    forall j, k :: 0 <= j < k < |signals| ==> KeyOf(signals[j]) != KeyOf(signals[k])
  }

  lemma {:induction false} SentinelOnlyAfterInit(
      seed: set<string>, inputs: seq<Input>, batches: seq<seq<PodSignal>>, node: string)
    requires Watched(seed, inputs, batches)
    requires forall i :: 0 <= i < |inputs| ==> OrdinaryPod(inputs[i])
    requires InitDone !in inputs
    ensures !Sent(Flat(batches), Key(false, node, SENTINEL))
  {
    if inputs != [] {
      var n := |inputs| - 1;
      SentinelOnlyAfterInit(seed, inputs[..n], batches[..n], node);
      assert OrdinaryPod(inputs[n]) && inputs[n] in inputs;
      if inputs[n].InitApply? || inputs[n].Apply? {
        ClassifiedSpeaksForItself(inputs[n].pod);
      }
    }
  }

  /** No two signals share kind, node and pod. */
  lemma {:induction false} NoDuplicates(seed: set<string>, inputs: seq<Input>, batches: seq<seq<PodSignal>>)
    requires Watched(seed, inputs, batches)
    requires forall i :: 0 <= i < |inputs| ==> OrdinaryPod(inputs[i])
    ensures DistinctKeys(Flat(batches))
  {
    if inputs != [] {
      var n := |inputs| - 1;
      var sent, batch := Flat(batches[..n]), batches[n];
      NoDuplicates(seed, inputs[..n], batches[..n]);
      forall j, k | 0 <= j < k < |sent + batch| ensures KeyOf((sent + batch)[j]) != KeyOf((sent + batch)[k]) {
        if j < |sent| && |sent| <= k && inputs[n] == InitDone {
          var late := batch[k - |sent|];
          SentinelOnlyAfterInit(seed, inputs[..n], batches[..n], late.node);
        }
      }
    }
  }

  /** Every classified pod event has been answered: its key is among the signals sent up to then. */
  lemma {:induction false} EveryKeyIsSent(seed: set<string>, inputs: seq<Input>, batches: seq<seq<PodSignal>>, i: nat)
    requires Watched(seed, inputs, batches) && i < |inputs|
    requires (inputs[i].InitApply? || inputs[i].Apply?) && Classify(inputs[i].pod).Some?
    ensures Sent(Flat(batches[..i + 1]), KeyOf(Classify(inputs[i].pod).value))
  {
    BatchAt(seed, inputs, batches, i);
    var s, sent := Classify(inputs[i].pod).value, Flat(batches[..i]);
    if Sent(sent, KeyOf(s)) {
      var k :| 0 <= k < |sent| && KeyOf(sent[k]) == KeyOf(s);
      assert (sent + batches[i])[k] == sent[k];
    } else {
      assert (sent + batches[i])[|sent|] == s;
    }
  }

  lemma {:induction false} BatchAt(seed: set<string>, inputs: seq<Input>, batches: seq<seq<PodSignal>>, i: nat)
    requires Watched(seed, inputs, batches) && i < |inputs|
    ensures Reacts(seed, inputs[..i], Flat(batches[..i]), inputs[i], batches[i])
    ensures Flat(batches[..i + 1]) == Flat(batches[..i]) + batches[i]
    decreases |inputs|
  {
    hide Reacts;
    var n := |inputs| - 1;
    assert batches[..i + 1][..i] == batches[..i];
    if i < n {
      BatchAt(seed, inputs[..n], batches[..n], i);
      assert inputs[..n][..i] == inputs[..i] && batches[..n][..i] == batches[..i];
      assert batches[..n][..i + 1] == batches[..i + 1];
    } else {
      assert inputs[..i] == inputs[..n] && batches[..i + 1] == batches;
    }
  }

  /** The missing-pod report is made at the first InitDone and only there, and names exactly the
      seeded nodes no pod was listed for before it. */
  lemma MissingReport(seed: set<string>, inputs: seq<Input>, batches: seq<seq<PodSignal>>, i: nat)
    requires Watched(seed, inputs, batches) && i < |inputs| && inputs[i] == InitDone
    ensures InitDone in inputs[..i] ==> batches[i] == []
    ensures InitDone !in inputs[..i] ==>
      forall s :: s in batches[i] <==> exists n :: n in seed && !ObservedIn(inputs[..i], n) && s == Gone(n, SENTINEL)
  {
    BatchAt(seed, inputs, batches, i);
    if InitDone !in inputs[..i] {
      var missing := Missing(seed, inputs[..i]);
      forall s
        ensures s in batches[i] <==> exists n :: n in seed && !ObservedIn(inputs[..i], n) && s == Gone(n, SENTINEL)
      {
        if s in batches[i] {
          assert s.node in missing && s == Gone(s.node, SENTINEL);
        }
        if exists n :: n in seed && !ObservedIn(inputs[..i], n) && s == Gone(n, SENTINEL) {
          var n :| n in seed && !ObservedIn(inputs[..i], n) && s == Gone(n, SENTINEL);
          assert n in missing;
        }
      }
    }
  }

  /** A deletion failure for a pod is sent only on its deletion, for a node that was seeded or
      reported running before, and only if nobody announced the deletion before. */
  lemma DeletionFailureHasCause(
      seed: set<string>, inputs: seq<Input>, batches: seq<seq<PodSignal>>, i: nat, s: PodSignal)
    requires Watched(seed, inputs, batches) && i < |inputs|
    requires s in batches[i] && s.InfraFailure? && s.reason == PodDeletedUnexpectedly && s.uid != SENTINEL
    ensures inputs[i].Delete? && inputs[i].pod.node == Some(s.node)
    ensures s.node in seed || SawRunning(Flat(batches[..i]), s.node)
    ensures ExpectDeletion(s.node) !in inputs[..i]
  {
    BatchAt(seed, inputs, batches, i);
    if inputs[i].InitApply? || inputs[i].Apply? {
      ClassifiedSpeaksForItself(inputs[i].pod);
    }
  }

  /** And the other way round: whenever a pod of a node that was seeded or reported running goes
      without an announcement, its failure is among the signals sent up to then, and it is sent
      at that point unless the pod's failure was reported before. */
  lemma DeletionIsReported(seed: set<string>, inputs: seq<Input>, batches: seq<seq<PodSignal>>, i: nat)
    requires Watched(seed, inputs, batches) && i < |inputs|
    requires inputs[i].Delete? && inputs[i].pod.node.Some?
    requires var node, sent := inputs[i].pod.node.value, Flat(batches[..i]);
      && (node in seed || exists k :: 0 <= k < |sent| && sent[k].PodRunning? && sent[k].node == node)
      && ExpectDeletion(node) !in inputs[..i]
    ensures var node, uid := inputs[i].pod.node.value, Or(inputs[i].pod.uid, "");
      && Sent(Flat(batches[..i + 1]), Key(false, node, uid))
      && (!Sent(Flat(batches[..i]), Key(false, node, uid)) ==> batches[i] == [Gone(node, uid)])
  {
    BatchAt(seed, inputs, batches, i);
    var sent, s := Flat(batches[..i]), Gone(inputs[i].pod.node.value, Or(inputs[i].pod.uid, ""));
    if Sent(sent, KeyOf(s)) {
      var k :| 0 <= k < |sent| && KeyOf(sent[k]) == KeyOf(s);
      assert (sent + batches[i])[k] == sent[k];
    } else {
      assert (sent + batches[i])[|sent|] == s;
    }
  }

  lemma {:induction false} SentStays(batches: seq<seq<PodSignal>>, i: nat, j: nat, key: Key)
    requires i <= j <= |batches| && Sent(Flat(batches[..i]), key)
    ensures Sent(Flat(batches[..j]), key)
  {
    if i < j {
      SentStays(batches, i, j - 1, key);
      assert batches[..j][..j - 1] == batches[..j - 1];
      var sent := Flat(batches[..j - 1]);
      var k :| 0 <= k < |sent| && KeyOf(sent[k]) == key;
      assert (sent + batches[j - 1])[k] == sent[k];
    }
  }

  /** So a pod that was once seen running does not vanish silently. */
  lemma SeenPodIsMissed(
      seed: set<string>, inputs: seq<Input>, batches: seq<seq<PodSignal>>, i: nat, j: nat, uid: string)
    requires Watched(seed, inputs, batches) && j < i < |inputs|
    requires inputs[i].Delete? && inputs[i].pod.node.Some?
    requires inputs[j].InitApply? || inputs[j].Apply?
    requires Classify(inputs[j].pod) == Some(PodRunning(inputs[i].pod.node.value, uid))
    requires ExpectDeletion(inputs[i].pod.node.value) !in inputs[..i]
    ensures Sent(Flat(batches[..i + 1]), Key(false, inputs[i].pod.node.value, Or(inputs[i].pod.uid, "")))
  {
    hide Reacts;
    var node, sent := inputs[i].pod.node.value, Flat(batches[..i]);
    EveryKeyIsSent(seed, inputs, batches, j);
    SentStays(batches, j + 1, i, Key(true, node, uid));
    var k :| 0 <= k < |sent| && KeyOf(sent[k]) == Key(true, node, uid);
    assert Flat(batches[..i])[k].PodRunning? && Flat(batches[..i])[k].node == inputs[i].pod.node.value;
    assert |inputs| == |batches|;
    DeletionIsReported(seed, inputs, batches, i);
  }

  /** Every other signal is what the event it answers was classified as. */
  lemma SignalsAreClassified(seed: set<string>, inputs: seq<Input>, batches: seq<seq<PodSignal>>, i: nat, s: PodSignal)
    requires Watched(seed, inputs, batches) && i < |inputs| && s in batches[i]
    requires s.PodRunning? || s.reason != PodDeletedUnexpectedly
    ensures (inputs[i].InitApply? || inputs[i].Apply?) && Classify(inputs[i].pod) == Some(s)
  {
    BatchAt(seed, inputs, batches, i);
  }

  function FirstInitDone(inputs: seq<Input>): (i: nat)
    requires InitDone in inputs
    ensures i < |inputs| && inputs[i] == InitDone && InitDone !in inputs[..i]
  {
    if InitDone in inputs[..|inputs| - 1] then FirstInitDone(inputs[..|inputs| - 1]) else |inputs| - 1
  }

  lemma FirstStays(inputs: seq<Input>, i: nat)
    requires i < |inputs| && inputs[i] == InitDone && InitDone !in inputs[..i]
    ensures FirstInitDone(inputs) == i
  {
    var k := FirstInitDone(inputs);
    assert forall j :: 0 <= j < i ==> inputs[j] == inputs[..i][j];
    assert forall j :: 0 <= j < k ==> inputs[j] == inputs[..k][j];
  }

  lemma {:induction false} SignalHasBatch(batches: seq<seq<PodSignal>>, s: PodSignal)
    ensures s in Flat(batches) <==> exists i :: 0 <= i < |batches| && s in batches[i]
  {
    if batches != [] {
      var n := |batches| - 1;
      SignalHasBatch(batches[..n], s);
      if i :| 0 <= i < n && s in batches[..n][i] {
        assert s in batches[i];
      }
      if i :| 0 <= i < |batches| && s in batches[i] {
        assert i < n ==> batches[..n][i] == batches[i];
      }
    }
  }

  lemma ReportedOnlyIfMissing(
      seed: set<string>, inputs: seq<Input>, batches: seq<seq<PodSignal>>, i: nat, node: string)
    requires Watched(seed, inputs, batches) && i < |inputs| && OrdinaryPod(inputs[i])
    requires Gone(node, SENTINEL) in batches[i]
    ensures InitDone in inputs && node in seed && !ObservedIn(inputs[..FirstInitDone(inputs)], node)
  {
    SentinelComesFromInitDone(seed, inputs, batches, i, node);
    MissingReport(seed, inputs, batches, i);
    FirstStays(inputs, i);
  }

  lemma MissingIsReported(seed: set<string>, inputs: seq<Input>, batches: seq<seq<PodSignal>>, node: string)
    requires Watched(seed, inputs, batches)
    requires InitDone in inputs && node in seed && !ObservedIn(inputs[..FirstInitDone(inputs)], node)
    ensures Gone(node, SENTINEL) in batches[FirstInitDone(inputs)]
  {
    MissingReport(seed, inputs, batches, FirstInitDone(inputs));
  }

  /** Over the whole run a node is reported missing if and only if it was seeded, the listing
      ended, and no pod of it was listed before that first end; and it is reported once. */
  lemma MissingOverall(seed: set<string>, inputs: seq<Input>, batches: seq<seq<PodSignal>>, node: string)
    requires Watched(seed, inputs, batches)
    requires forall i :: 0 <= i < |inputs| ==> OrdinaryPod(inputs[i])
    ensures Gone(node, SENTINEL) in Flat(batches) <==>
      && node in seed && InitDone in inputs
      && forall i :: 0 <= i < FirstInitDone(inputs) ==> !(inputs[i].InitApply? && inputs[i].pod.node == Some(node))
    ensures forall j, k :: 0 <= j < k < |Flat(batches)| ==>
      !(Flat(batches)[j] == Flat(batches)[k] == Gone(node, SENTINEL))
  {
    hide Reacts;
    NoDuplicates(seed, inputs, batches);
    SignalHasBatch(batches, Gone(node, SENTINEL));
    if i :| 0 <= i < |batches| && Gone(node, SENTINEL) in batches[i] {
      ReportedOnlyIfMissing(seed, inputs, batches, i, node);
    }
    if InitDone in inputs && node in seed && !ObservedIn(inputs[..FirstInitDone(inputs)], node) {
      MissingIsReported(seed, inputs, batches, node);
    }
  }

  lemma SentinelComesFromInitDone(
      seed: set<string>, inputs: seq<Input>, batches: seq<seq<PodSignal>>, i: nat, node: string)
    requires Watched(seed, inputs, batches) && i < |inputs| && OrdinaryPod(inputs[i])
    requires Gone(node, SENTINEL) in batches[i]
    ensures inputs[i] == InitDone && InitDone !in inputs[..i]
  {
    BatchAt(seed, inputs, batches, i);
    if inputs[i].InitApply? || inputs[i].Apply? {
      ClassifiedSpeaksForItself(inputs[i].pod);
    }
  }

  /** Over the whole run every deletion failure answers one deletion of a pod of that node, after
      a sign of life and without an announcement before it. */
  lemma DeletionFailuresOverall(seed: set<string>, inputs: seq<Input>, batches: seq<seq<PodSignal>>, s: PodSignal)
    requires Watched(seed, inputs, batches)
    requires s in Flat(batches) && s.InfraFailure? && s.reason == PodDeletedUnexpectedly && s.uid != SENTINEL
    ensures exists i :: && 0 <= i < |inputs| && inputs[i].Delete? && inputs[i].pod.node == Some(s.node)
                        && (s.node in seed || SawRunning(Flat(batches[..i]), s.node))
                        && ExpectDeletion(s.node) !in inputs[..i]
  {
    SignalHasBatch(batches, s);
    var i :| 0 <= i < |batches| && s in batches[i];
    DeletionFailureHasCause(seed, inputs, batches, i, s);
  }

  // ---------- the watcher itself ----------

  predicate Reported(m: map<string, set<string>>, node: string, uid: string) {
    node in m && uid in m[node]
  }

  function WithUid(m: map<string, set<string>>, node: string, uid: string): map<string, set<string>> {
    m[node := (if node in m then m[node] else {}) + {uid}]
  }

  /** The two report tables hold exactly the keys already sent, and the sentinel of every seeded node. */
  ghost predicate TablesMatch(
      failures: map<string, set<string>>, running: map<string, set<string>>, seed: set<string>, sent: seq<PodSignal>)
  {
    && (forall n, u :: Reported(failures, n, u) <==> Sent(sent, Key(false, n, u)))
    && (forall n, u :: Reported(running, n, u) <==> Sent(sent, Key(true, n, u)) || (n in seed && u == SENTINEL))
  }

  lemma SentMore(sent: seq<PodSignal>, s: PodSignal, key: Key)
    ensures Sent(sent + [s], key) <==> Sent(sent, key) || key == KeyOf(s)
  {
    assert (sent + [s])[|sent|] == s;
    assert forall k :: 0 <= k < |sent| ==> (sent + [s])[k] == sent[k];
  }

  /** The two sets and the flag tell what the inputs so far contained. */
  ghost predicate SetsMatch(
      expected: set<string>, observed: set<string>, emitted: bool, seed: set<string>, inputs: seq<Input>)
  {
    && (forall n :: n in expected <==> ExpectDeletion(n) in inputs)
    && observed == (set n | n in seed && ObservedIn(inputs, n))
    && (emitted <==> InitDone in inputs)
  }

  function NewlyObserved(input: Input, seed: set<string>): set<string> {
    if input.InitApply? && input.pod.node.Some? && input.pod.node.value in seed then {input.pod.node.value} else {}
  }

  lemma SetsMatchMore(
      expected: set<string>, observed: set<string>, emitted: bool, seed: set<string>, inputs: seq<Input>, input: Input)
    requires SetsMatch(expected, observed, emitted, seed, inputs)
    ensures SetsMatch(
      expected + if input.ExpectDeletion? then {input.node} else {},
      observed + NewlyObserved(input, seed),
      emitted || input.InitDone?, seed, inputs + [input])
  {
    var longer := inputs + [input];
    forall n
      ensures ObservedIn(longer, n) <==> ObservedIn(inputs, n) || (input.InitApply? && input.pod.node == Some(n))
    {
      assert longer[|inputs|] == input;
      assert forall i :: 0 <= i < |inputs| ==> longer[i] == inputs[i];
    }
  }

  lemma WatchedMore(
      seed: set<string>, inputs: seq<Input>, batches: seq<seq<PodSignal>>, input: Input, batch: seq<PodSignal>)
    requires Watched(seed, inputs, batches) && Reacts(seed, inputs, Flat(batches), input, batch)
    ensures Watched(seed, inputs + [input], batches + [batch])
    ensures Flat(batches + [batch]) == Flat(batches) + batch
  {
  }

  class WatcherState {
    var failureUids: map<string, set<string>>
    var runningUids: map<string, set<string>>
    var expectedDeletions: set<string>
    const seedRunning: set<string>
    var observedDuringInit: set<string>
    var presenceDiffEmitted: bool
    /** The channel to the coordinator. */
    var sent: seq<PodSignal>
    ghost var inputs: seq<Input>
    ghost var batches: seq<seq<PodSignal>>

    ghost predicate Remembers()
      reads this
    {
      && TablesMatch(failureUids, runningUids, seedRunning, sent)
      && SetsMatch(expectedDeletions, observedDuringInit, presenceDiffEmitted, seedRunning, inputs)
    }

    ghost predicate Valid()
      reads this
    {
      Remembers() && sent == Flat(batches) && Watched(seedRunning, inputs, batches)
    }

    constructor Seeded(running: set<string>)
      ensures Valid() && seedRunning == running && inputs == [] && sent == []
    {
      failureUids, expectedDeletions, observedDuringInit, presenceDiffEmitted := map[], {}, {}, false;
      runningUids := map n | n in running :: {SENTINEL};
      seedRunning := running;
      sent, inputs, batches := [], [], [];
    }

    /** Sends the signal unless its key was reported before. */
    method SendOnce(s: PodSignal)
      requires TablesMatch(failureUids, runningUids, seedRunning, sent)
      requires s.PodRunning? ==> s.uid != SENTINEL
      modifies this`failureUids, this`runningUids, this`sent
      ensures TablesMatch(failureUids, runningUids, seedRunning, sent)
      ensures sent == old(sent) + Unless(Sent(old(sent), KeyOf(s)), s)
    {
      forall key ensures Sent(sent + [s], key) <==> Sent(sent, key) || key == KeyOf(s) {
        SentMore(sent, s, key);
      }
      if s.PodRunning? {
        if Reported(runningUids, s.node, s.uid) {
          return;
        }
        runningUids := WithUid(runningUids, s.node, s.uid);
      } else {
        if Reported(failureUids, s.node, s.uid) {
          return;
        }
        failureUids := WithUid(failureUids, s.node, s.uid);
      }
      sent := sent + [s];
    }

    method ForwardPod(pod: Pod)
      requires TablesMatch(failureUids, runningUids, seedRunning, sent)
      requires pod.uid != Some(SENTINEL)
      modifies this`failureUids, this`runningUids, this`sent
      ensures TablesMatch(failureUids, runningUids, seedRunning, sent)
      ensures old(sent) <= sent && ReactsToPod(old(sent), pod, sent[|old(sent)|..])
    {
      ClassifiedSpeaksForItself(pod);
      var signal := Classify(pod);
      if signal.Some? {
        SendOnce(signal.value);
      }
    }

    predicate WasRunning(node: string)
      reads this
    {
      node in runningUids && runningUids[node] != {}
    }

    lemma WasRunningMeans(node: string)
      requires TablesMatch(failureUids, runningUids, seedRunning, sent)
      ensures WasRunning(node) <==> node in seedRunning || SawRunning(sent, node)
    {
      if WasRunning(node) {
        var u :| u in runningUids[node];
        assert Reported(runningUids, node, u);
        if Sent(sent, Key(true, node, u)) {
          var k :| 0 <= k < |sent| && KeyOf(sent[k]) == Key(true, node, u);
          assert sent[k].PodRunning? && sent[k].node == node;
        }
      }
      if node in seedRunning {
        assert Reported(runningUids, node, SENTINEL);
      }
      if SawRunning(sent, node) {
        var k :| 0 <= k < |sent| && sent[k].PodRunning? && sent[k].node == node;
        assert KeyOf(sent[k]) == Key(true, node, sent[k].uid);
        assert Reported(runningUids, node, sent[k].uid);
      }
    }

    method HandleDelete(pod: Pod)
      requires Valid() && pod.uid != Some(SENTINEL)
      modifies this`failureUids, this`runningUids, this`sent
      ensures TablesMatch(failureUids, runningUids, seedRunning, sent)
      ensures old(sent) <= sent
      ensures Reacts(seedRunning, inputs, old(sent), Delete(pod), sent[|old(sent)|..])
    {
      if pod.node.None? {
        return;
      }
      var node := pod.node.value;
      if node in expectedDeletions {
        return;
      }
      WasRunningMeans(node);
      if !WasRunning(node) {
        return;
      }
      SendOnce(Gone(node, Or(pod.uid, "")));
    }

    lemma ReportOneMore(missing: set<string>, batch: seq<PodSignal>, node: string)
      requires ReportsMissing(missing, batch) && node !in missing
      ensures ReportsMissing(missing + {node}, batch + [Gone(node, SENTINEL)])
    {
    }

    method ReportAll(missing: set<string>)
      requires TablesMatch(failureUids, runningUids, seedRunning, sent)
      requires forall n :: n in missing ==> !Sent(sent, Key(false, n, SENTINEL))
      modifies this`failureUids, this`runningUids, this`sent
      ensures TablesMatch(failureUids, runningUids, seedRunning, sent)
      ensures old(sent) <= sent && ReportsMissing(missing, sent[|old(sent)|..])
    {
      var before, todo := sent, missing;
      ghost var batch: seq<PodSignal> := [];
      while todo != {}
        invariant todo <= missing
        invariant TablesMatch(failureUids, runningUids, seedRunning, sent)
        invariant sent == before + batch
        invariant forall n :: n in todo ==> !Sent(sent, Key(false, n, SENTINEL))
        invariant ReportsMissing(missing - todo, batch)
        decreases todo
      {
        var node :| node in todo;
        var s := Gone(node, SENTINEL);
        ghost var sofar := sent;
        SendOnce(s);
        forall n ensures Sent(sent, Key(false, n, SENTINEL)) <==> Sent(sofar, Key(false, n, SENTINEL)) || n == node {
          SentMore(sofar, s, Key(false, n, SENTINEL));
        }
        ReportOneMore(missing - todo, batch, node);
        assert missing - (todo - {node}) == (missing - todo) + {node};
        todo := todo - {node};
        batch := batch + [s];
      }
      assert missing - todo == missing;
      assert sent[|before|..] == batch;
    }

    /** Reports, once, the seeded nodes that no pod was listed for. */
    method EmitPresenceDiff()
      requires Valid() && forall i :: 0 <= i < |inputs| ==> OrdinaryPod(inputs[i])
      modifies this`failureUids, this`runningUids, this`sent, this`presenceDiffEmitted
      ensures TablesMatch(failureUids, runningUids, seedRunning, sent) && presenceDiffEmitted
      ensures old(sent) <= sent
      ensures Reacts(seedRunning, inputs, old(sent), InitDone, sent[|old(sent)|..])
    {
      if presenceDiffEmitted {
        return;
      }
      presenceDiffEmitted := true;
      var missing := seedRunning - observedDuringInit;
      assert missing == Missing(seedRunning, inputs);
      forall n ensures !Sent(sent, Key(false, n, SENTINEL)) {
        SentinelOnlyAfterInit(seedRunning, inputs, batches, n);
      }
      ReportAll(missing);
    }

    method React(input: Input)
      requires Valid() && OrdinaryPod(input)
      requires forall i :: 0 <= i < |inputs| ==> OrdinaryPod(inputs[i])
      modifies this`failureUids, this`runningUids, this`sent, this`presenceDiffEmitted
      modifies this`expectedDeletions, this`observedDuringInit
      ensures TablesMatch(failureUids, runningUids, seedRunning, sent)
      ensures old(sent) <= sent && Reacts(seedRunning, inputs, old(sent), input, sent[|old(sent)|..])
      ensures expectedDeletions == old(expectedDeletions) + if input.ExpectDeletion? then {input.node} else {}
      ensures observedDuringInit == old(observedDuringInit) + NewlyObserved(input, seedRunning)
      ensures presenceDiffEmitted <==> old(presenceDiffEmitted) || input.InitDone?
    {
      match input {
        case InitApply(pod) =>
          if pod.node.Some? && pod.node.value in seedRunning {
            observedDuringInit := observedDuringInit + {pod.node.value};
          }
          ForwardPod(pod);
        case Apply(pod) => ForwardPod(pod);
        case Delete(pod) => HandleDelete(pod);
        case Init =>
        case InitDone => EmitPresenceDiff();
        case ExpectDeletion(node) => expectedDeletions := expectedDeletions + {node};
      }
    }

    /** One input; the run so far, extended by it, is again what a watcher should do. */
    method Handle(input: Input)
      requires Valid() && OrdinaryPod(input)
      requires forall i :: 0 <= i < |inputs| ==> OrdinaryPod(inputs[i])
      modifies this
      ensures Valid() && inputs == old(inputs) + [input]
      ensures old(sent) <= sent
    {
      hide Reacts, Watched, Flat, TablesMatch, SetsMatch;
      SetsMatchMore(expectedDeletions, observedDuringInit, presenceDiffEmitted, seedRunning, inputs, input);
      React(input);
      ghost var batch := sent[|old(sent)|..];
      WatchedMore(seedRunning, inputs, batches, input, batch);
      assert old(sent) + batch == sent;
      inputs, batches := inputs + [input], batches + [batch];
    }

    /** The watcher's loop over any sequence of events and commands. */
    method Watch(events: seq<Input>)
      requires Valid() && inputs == []
      requires forall i :: 0 <= i < |events| ==> OrdinaryPod(events[i])
      modifies this
      ensures Valid() && inputs == events
      ensures DistinctKeys(sent)
    {
      hide Reacts, Watched, Flat, TablesMatch, SetsMatch;
      var i := 0;
      while i < |events|
        invariant i <= |events|
        invariant Valid() && inputs == events[..i]
      {
        assert events[..i + 1] == events[..i] + [events[i]];
        Handle(events[i]);
        i := i + 1;
      }
      assert events[..|events|] == events;
      NoDuplicates(seedRunning, inputs, batches);
    }
  }
}
