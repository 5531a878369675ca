/** The TaskRun reconciler: one pass over a TaskRun's status, with every outside answer an input. */
module Reconciler {
  import opened Wrappers
  import opened PodStatus
  import opened StatusMerge
  import opened PodNames

  // Times are recorded only as set or unset.
  datatype Status = Status(
    condition: Option<Condition>,
    started: bool,
    completed: bool,
    podName: string,
    retriesStatus: seq<Status>,
    results: seq<Result>,
    steps: seq<ContainerStatus>,
    sidecars: seq<ContainerStatus>)

  // What never changes about a TaskRun: its name and spec.retries, and the digest behind its pods' names.
  datatype Config = Config(md5: string -> string, name: string, retries: nat)

  datatype SidecarMode = TektonSidecars | NativeSidecars | DiscoveryFailed
  datatype StopOutcome = Stopped(sidecars: seq<ContainerStatus>) | StopPodMissing | StopConflict | StopFailed
  datatype Preparation = Ready | Ongoing(reason: string) | Transient | Invalid(reason: string)
  datatype Lookup = Found(pod: Pod) | Missing | LookupFailed
  datatype ListedPod = ListedPod(pod: Pod, controlled: bool)
  // made: the pod was made all the same, only the answer was lost.
  datatype Creation = Created(pod: Pod) | Exists(cached: Option<Pod>)
                    | QuotaConflict | QuotaExceeded | ValidationRejected | AdmissionRejected | OtherFailure(made: bool)
  datatype StatusError = Fine | TooLarge | OtherError

  // Everything one pass learns from the cluster, the clock and the other parts of the controller.
  // recovering: a pod in ImagePullBackOff is still within its grace period.
  datatype Inputs = Inputs(
    sidecarMode: SidecarMode, stop: StopOutcome,
    timedOut: bool, recovering: bool, deletionFails: bool,
    preparation: Preparation, lookup: Lookup, listing: Option<seq<ListedPod>>,
    claimFails: bool, substitutionFails: bool, creation: Creation, readyFails: bool,
    resultsFromSidecar: bool, ignoreFailure: bool, podResults: seq<Result>,
    statusError: StatusError, resultsInvalid: bool)

  // The pods made for a TaskRun, by name: those ever made, those gone again, and those there now.
  datatype Cluster = Cluster(made: multiset<string>, deleted: multiset<string>, live: set<string>)

  function WithPod(cl: Cluster, name: string): Cluster {
    cl.(made := cl.made + multiset{name}, live := cl.live + {name})
  }

  // ----- Reading a status -----

  predicate IsDone(s: Status) {
    s.condition.Some? && !s.condition.value.Unknown?
  }

  predicate HasFailed(s: Status) {
    s.condition.Some? && s.condition.value.False?
  }

  predicate IsPodArchived(name: string, s: Status) {
    exists r :: r in s.retriesStatus && r.podName == name
  }

  predicate Adoptable(p: ListedPod, s: Status) {
    p.controlled && !DidTaskRunFail(p.pod) && !IsPodArchived(p.pod.name, s)
  }

  predicate PullFails(c: ContainerStatus) {
    c.state.Waiting? && (c.state.why == "ImagePullBackOff" || c.state.why == "InvalidImageName")
  }

  // The first container whose image cannot be pulled decides.
  predicate PodCheckFails(containers: seq<ContainerStatus>, recovering: bool) {
    containers != [] &&
    if PullFails(containers[0]) then !(recovering && containers[0].state.why == "ImagePullBackOff")
    else PodCheckFails(containers[1..], recovering)
  }

  // ----- What a pass makes of a status -----

  function Initialized(s: Status): Status {
    if s.started then s
    else
      var condition :=
        if s.condition.None? then Unknown("Started")
        else match s.condition.value
          case Unknown(_) => Unknown("Started")
          case True(_) => True("Started")
          case False(_) => False("Started");
      s.(started := true, condition := Some(condition))
  }

  function MarkedFailed(s: Status, reason: string): Status {
    s.(condition := Some(False(reason)), completed := true)
  }

  function MarkedOngoing(s: Status, reason: string): Status {
    s.(condition := Some(Unknown(reason)))
  }

  function Terminate(c: ContainerStatus, reason: string): ContainerStatus {
    if c.state.Terminated? then c else c.(state := Terminated(1, reason))
  }

  function TerminateAll(steps: seq<ContainerStatus>, reason: string): seq<ContainerStatus> {
    seq(|steps|, i requires 0 <= i < |steps| => Terminate(steps[i], reason))
  }

  function Failing(s: Status, reason: string): Status {
    var failed := MarkedFailed(s, reason);
    if s.podName == "" then failed else failed.(steps := TerminateAll(s.steps, reason))
  }

  // The archived attempt joins retriesStatus; its steps and sidecars stay on the new attempt's status.
  function Archived(s: Status): Status {
    s.(retriesStatus := [])
  }

  function Retried(s: Status): Status {
    s.(retriesStatus := s.retriesStatus + [Archived(s)], started := false, completed := false,
       podName := "", results := [], condition := Some(Unknown("ToBeRetried")))
  }

  predicate Retriable(c: Config, cancelled: bool, s: Status) {
    HasFailed(s) && !cancelled && |s.retriesStatus| < c.retries
  }

  function Finished(c: Config, cancelled: bool, s: Status): Status {
    if Retriable(c, cancelled, s) then Retried(s) else s
  }

  // None: the pass ends here with an error.
  function Stopping(s: Status, stop: StopOutcome): Option<Status> {
    if s.podName == "" then Some(s)
    else if s.condition.Some? && s.condition.value.reason in {"TaskRunCancelled", "TaskRunTimeout"} then Some(s)
    else match stop
      case Stopped(sidecars) =>
        Some(if exists c :: c in s.sidecars && !c.state.Terminated? then s.(sidecars := sidecars) else s)
      case StopPodMissing => None
      case StopConflict => None
      case StopFailed => Some(MarkedFailed(s, "TaskRunStopSidecarFailed"))
  }

  // The last adoptable pod of the list.
  function LastAdoptable(listed: seq<ListedPod>, s: Status): Option<Pod> {
    if listed == [] then None
    else if Adoptable(listed[|listed| - 1], s) then Some(listed[|listed| - 1].pod)
    else LastAdoptable(listed[..|listed| - 1], s)
  }

  datatype Search = Have(pod: Pod) | NoPod | SearchFailed

  // The pod the attempt already has.
  function FoundPod(s: Status, inputs: Inputs): Search {
    if s.podName != "" then
      match inputs.lookup
      case Found(pod) => Have(pod.(name := s.podName))
      case Missing => NoPod
      case LookupFailed => SearchFailed
    else if inputs.listing.None? then SearchFailed
    else
      var pod := LastAdoptable(inputs.listing.value, s);
      if pod.Some? then Have(pod.value) else NoPod
  }

  function OwnName(c: Config, s: Status): string
    requires |s.retriesStatus| < MAX_ATTEMPTS
  {
    PodName(c.md5, c.name, |s.retriesStatus|)
  }

  // The pod that asking for one gives: a new one, or from the cache the one that is there.
  function AskedPod(creation: Creation, name: string): Option<Pod> {
    match creation
    case Created(pod) => Some(pod.(name := name))
    case Exists(Some(pod)) => Some(pod.(name := name))
    case _ => None
  }

  function CreationFailing(s: Status, creation: Creation): Status {
    match creation
    case QuotaConflict => MarkedOngoing(s.(started := false), "Pending")
    case QuotaExceeded => MarkedOngoing(s.(started := false), "ExceededResourceQuota")
    case ValidationRejected => MarkedFailed(s, "TaskRunValidationFailed")
    case Exists(_) => MarkedOngoing(s, "Pending")
    case AdmissionRejected => MarkedFailed(s, "PodAdmissionFailed")
    case _ => MarkedFailed(s, "PodCreationFailed")
  }

  function WithStep(steps: seq<ContainerStatus>, step: ContainerStatus): seq<ContainerStatus> {
    if steps == [] then [step]
    else if steps[0].name == step.name then [step] + steps[1..]
    else [steps[0]] + WithStep(steps[1..], step)
  }

  function WithSteps(steps: seq<ContainerStatus>, statuses: seq<ContainerStatus>): seq<ContainerStatus> {
    if statuses == [] then steps
    else
      var before, last := WithSteps(steps, statuses[..|statuses| - 1]), statuses[|statuses| - 1];
      if IsContainerStep(last.name) then WithStep(before, last) else before
  }

  function SidecarsOf(statuses: seq<ContainerStatus>): seq<ContainerStatus> {
    if statuses == [] then []
    else
      var before, last := SidecarsOf(statuses[..|statuses| - 1]), statuses[|statuses| - 1];
      if !IsContainerStep(last.name) && IsContainerSidecar(last.name) then before + [last] else before
  }

  // The status a pod gives: its verdict, its containers, and its results once it is done.
  function FromPod(s: Status, pod: Pod, inputs: Inputs): Status {
    var condition := NextCondition(s.condition, pod, inputs.resultsFromSidecar, inputs.ignoreFailure);
    s.(condition := Some(condition),
       completed := s.completed || Complete(pod, inputs.resultsFromSidecar),
       podName := pod.name,
       steps := WithSteps(s.steps, pod.statuses),
       sidecars := SidecarsOf(pod.statuses),
       results := Merged(s.results + if condition.Unknown? then [] else inputs.podResults))
  }

  datatype Reconciling = Reconciling(status: Status, error: StatusError)

  function FromAnyPod(s: Status, pod: Pod, inputs: Inputs): Reconciling {
    if inputs.readyFails then Reconciling(s, OtherError)
    else if inputs.statusError != Fine then Reconciling(FromPod(s, pod, inputs), inputs.statusError)
    else if inputs.resultsInvalid then
      Reconciling(MarkedFailed(FromPod(s, pod, inputs), "TaskRunValidationFailed"), OtherError)
    else Reconciling(FromPod(s, pod, inputs), Fine)
  }

  // Without a pod: ask for one.
  function Asking(c: Config, s: Status, inputs: Inputs): Reconciling
    requires |s.retriesStatus| < MAX_ATTEMPTS
  {
    if inputs.claimFails then Reconciling(MarkedFailed(s, "CouldntCreateWorkspacePVC"), OtherError)
    else if inputs.substitutionFails then Reconciling(s, OtherError)
    else
      var pod := AskedPod(inputs.creation, OwnName(c, s));
      if pod.None? then Reconciling(CreationFailing(s, inputs.creation), OtherError)
      else FromAnyPod(s, pod.value, inputs)
  }

  function ReconcileResult(c: Config, s: Status, inputs: Inputs): Reconciling
    requires |s.retriesStatus| < MAX_ATTEMPTS
  {
    match FoundPod(s, inputs)
    case SearchFailed => Reconciling(s, OtherError)
    case NoPod => Asking(c, s, inputs)
    case Have(pod) => if inputs.substitutionFails then Reconciling(s, OtherError) else FromAnyPod(s, pod, inputs)
  }

  // An attempt that is not done, up to the decision to retry.
  function AttemptResult(c: Config, cancelled: bool, s: Status, inputs: Inputs): Status
    requires |s.retriesStatus| < MAX_ATTEMPTS
  {
    if cancelled then Failing(s, "TaskRunCancelled")
    else if inputs.timedOut then Failing(s, "TaskRunTimeout")
    else if PodCheckFails(s.steps + s.sidecars, inputs.recovering) then Failing(s, "TaskRunImagePullFailed")
    else match inputs.preparation
      case Ready =>
        var r := ReconcileResult(c, s, inputs);
        if r.error == TooLarge then Failing(r.status, "TaskRunResultLargerThanAllowedLimit") else r.status
      case Ongoing(reason) => MarkedOngoing(s, reason)
      case Invalid(reason) => MarkedFailed(s, reason)
      case Transient => s
  }

  // Broken off: the pass returns early. Settled: it goes on to the decision to retry.
  datatype Ending = BrokenOff(status: Status) | Settled(status: Status)

  function PassEnding(c: Config, cancelled: bool, was: Status, inputs: Inputs): Ending
    requires |was.retriesStatus| < MAX_ATTEMPTS
  {
    var s := Initialized(was);
    if !IsDone(s) then Settled(AttemptResult(c, cancelled, s, inputs))
    else match inputs.sidecarMode
      case DiscoveryFailed => BrokenOff(s)
      case NativeSidecars => Settled(s)
      case TektonSidecars =>
        var stopped := Stopping(s, inputs.stop);
        if stopped.None? then BrokenOff(s) else Settled(stopped.value)
  }

  /** What a pass decides. */
  function Decided(c: Config, cancelled: bool, s: Status, inputs: Inputs): Status
    requires |s.retriesStatus| < MAX_ATTEMPTS
  {
    match PassEnding(c, cancelled, s, inputs)
    case BrokenOff(now) => now
    case Settled(now) => Finished(c, cancelled, now)
  }

  // ----- What a pass does to the cluster -----

  predicate MakesPod(creation: Creation) {
    creation.Created? || (creation.OtherFailure? && creation.made)
  }

  // The pass comes to look after the attempt's pod.
  predicate Reaches(cancelled: bool, s: Status, inputs: Inputs) {
    && !IsDone(s) && !cancelled && !inputs.timedOut && !PodCheckFails(s.steps + s.sidecars, inputs.recovering)
    && inputs.preparation == Ready
  }

  // Looking for the pod comes to asking the API server for one.
  predicate Asks(s: Status, inputs: Inputs) {
    FoundPod(s, inputs) == NoPod && !inputs.claimFails && !inputs.substitutionFails
  }

  function ReconcileCluster(c: Config, s: Status, inputs: Inputs, cl: Cluster): Cluster
    requires |s.retriesStatus| < MAX_ATTEMPTS
  {
    if Asks(s, inputs) && MakesPod(inputs.creation) then WithPod(cl, OwnName(c, s)) else cl
  }

  function ClusterAfter(c: Config, cancelled: bool, s: Status, inputs: Inputs, cl: Cluster): Cluster
    requires |s.retriesStatus| < MAX_ATTEMPTS
  {
    if Reaches(cancelled, Initialized(s), inputs) then ReconcileCluster(c, Initialized(s), inputs, cl) else cl
  }

  // The API server makes a pod of a name exactly when there is none, however stale the lists are;
  // pods listed as controlled by the TaskRun were made for it.
  ghost predicate Truthful(c: Config, s: Status, inputs: Inputs, cl: Cluster)
    requires |s.retriesStatus| < MAX_ATTEMPTS
  {
    && (MakesPod(inputs.creation) ==> OwnName(c, s) !in cl.live)
    && (inputs.creation.Exists? ==> OwnName(c, s) in cl.live && OwnName(c, s) in cl.made)
    && (inputs.listing.Some? ==> forall p :: p in inputs.listing.value && p.controlled ==> p.pod.name in cl.made)
  }

  // ----- The code -----

  method MergeResults(all: seq<Result>) returns (merged: seq<Result>)
    ensures merged == Merged(all)
  {
    merged := RemoveDuplicateResults(all);
    MergedIsMerge(all);
    MergeUnique(all, merged, Merged(all));
  }

  class TaskRun {
    const config: Config
    var cancelled: bool
    var status: Status
    ghost var cluster: Cluster

    constructor (config: Config, cancelled: bool, status: Status, ghost cluster: Cluster)
      ensures this.config == config && this.cancelled == cancelled && this.status == status && this.cluster == cluster
    {
      this.config := config;
      this.cancelled := cancelled;
      this.status := status;
      this.cluster := cluster;
    }

    method MarkResourceFailed(reason: string)
      modifies `status
      ensures status == MarkedFailed(old(status), reason)
    {
      status := status.(condition := Some(False(reason)));
      status := status.(completed := true);
    }

    method MarkResourceOngoing(reason: string)
      modifies `status
      ensures status == MarkedOngoing(old(status), reason)
    {
      status := status.(condition := Some(Unknown(reason)));
    }

    method RetryTaskRun()
      modifies `status
      ensures status == Retried(old(status))
    {
      var archived := status.(retriesStatus := []);
      status := status.(retriesStatus := status.retriesStatus + [archived]);
      status := status.(started := false);
      status := status.(completed := false);
      status := status.(podName := "");
      status := status.(results := []);
      MarkResourceOngoing("ToBeRetried");
    }

    method Finish()
      modifies `status
      ensures status == Finished(config, cancelled, old(status))
    {
      if HasFailed(status) && !cancelled && |status.retriesStatus| < config.retries {
        RetryTaskRun();
      }
    }

    method TerminateStepsInPod(reason: string)
      modifies `status
      ensures status == old(status).(steps := TerminateAll(old(status).steps, reason))
    {
      ghost var was := status;
      for i := 0 to |status.steps|
        invariant status == was.(steps := status.steps) && |status.steps| == |was.steps|
        invariant forall j :: 0 <= j < i ==> status.steps[j] == Terminate(was.steps[j], reason)
        invariant forall j :: i <= j < |was.steps| ==> status.steps[j] == was.steps[j]
      {
        var step := status.steps[i];
        if step.state.Running? || step.state.Waiting? {
          status := status.(steps := status.steps[i := step.(state := Terminated(1, reason))]);
        }
      }
      assert status.steps == TerminateAll(was.steps, reason);
    }

    method FailTaskRun(reason: string, deletionFails: bool) returns (err: bool)
      modifies `status
      ensures status == Failing(old(status), reason)
      ensures err <==> old(status).podName != "" && deletionFails
    {
      MarkResourceFailed(reason);
      if status.podName == "" {
        return false;
      }
      TerminateStepsInPod(reason);
      return deletionFails;
    }

    /** A failure to stop the sidecars fails the TaskRun, even one that has succeeded. */
    method StopSidecars(stop: StopOutcome) returns (err: bool)
      modifies `status
      ensures err <==> Stopping(old(status), stop).None?
      ensures status == if err then old(status) else Stopping(old(status), stop).value
    {
      err := false;
      if status.podName == "" {
        return;
      }
      if status.condition.Some? && status.condition.value.reason in {"TaskRunCancelled", "TaskRunTimeout"} {
        return;
      }
      match stop
      case Stopped(sidecars) =>
        if exists c :: c in status.sidecars && !c.state.Terminated? {
          status := status.(sidecars := sidecars);
        }
      case StopPodMissing => err := true;
      case StopConflict => err := true;
      case StopFailed => MarkResourceFailed("TaskRunStopSidecarFailed");
    }

    method ChoosePod(listed: seq<ListedPod>) returns (pod: Option<Pod>)
      ensures pod == LastAdoptable(listed, status)
    {
      pod := None;
      for i := 0 to |listed|
        invariant pod == LastAdoptable(listed[..i], status)
      {
        assert listed[..i + 1][..i] == listed[..i];
        if Adoptable(listed[i], status) {
          pod := Some(listed[i].pod);
        }
      }
      assert listed[..|listed|] == listed;
    }

    method FindPod(inputs: Inputs) returns (found: Option<Pod>, err: bool)
      ensures FoundPod(status, inputs) == if err then SearchFailed else if found.Some? then Have(found.value) else NoPod
    {
      found, err := None, false;
      if status.podName != "" {
        match inputs.lookup
        case Found(pod) => found := Some(pod.(name := status.podName));
        case Missing =>
        case LookupFailed => err := true;
      } else if inputs.listing.None? {
        err := true;
      } else {
        found := ChoosePod(inputs.listing.value);
      }
    }

    method CreatePod(creation: Creation) returns (pod: Option<Pod>)
      requires |status.retriesStatus| < MAX_ATTEMPTS
      modifies `cluster
      ensures pod == AskedPod(creation, OwnName(config, status))
      ensures cluster == if MakesPod(creation) then WithPod(old(cluster), OwnName(config, status)) else old(cluster)
    {
      if creation == ValidationRejected {
        return None;
      }
      var podName := PodName(config.md5, config.name, |status.retriesStatus|);
      if MakesPod(creation) {
        cluster := WithPod(cluster, podName);
      }
      match creation
      case Created(p) => pod := Some(p.(name := podName));
      case Exists(cached) => pod := if cached.Some? then Some(cached.value.(name := podName)) else None;
      case _ => pod := None;
    }

    method HandlePodCreationError(creation: Creation)
      requires !creation.Created?
      modifies `status
      ensures status == CreationFailing(old(status), creation)
    {
      match creation
      case QuotaConflict =>
        status := status.(started := false);
        MarkResourceOngoing("Pending");
      case QuotaExceeded =>
        status := status.(started := false);
        MarkResourceOngoing("ExceededResourceQuota");
      case ValidationRejected => MarkResourceFailed("TaskRunValidationFailed");
      case Exists(_) => MarkResourceOngoing("Pending");
      case AdmissionRejected => MarkResourceFailed("PodAdmissionFailed");
      case OtherFailure(_) => MarkResourceFailed("PodCreationFailed");
    }

    method MakeTaskRunStatus(pod: Pod, inputs: Inputs)
      modifies `status
      ensures status == FromPod(old(status), pod, inputs)
    {
      var condition := NextCondition(status.condition, pod, inputs.resultsFromSidecar, inputs.ignoreFailure);
      status := status.(condition := Some(condition));
      if Complete(pod, inputs.resultsFromSidecar) {
        status := status.(completed := true);
      }
      status := status.(podName := pod.name, sidecars := []);
      ghost var was := status;
      for i := 0 to |pod.statuses|
        invariant status == was.(steps := WithSteps(was.steps, pod.statuses[..i]),
                                 sidecars := SidecarsOf(pod.statuses[..i]))
      {
        assert pod.statuses[..i + 1][..i] == pod.statuses[..i];
        var s := pod.statuses[i];
        if IsContainerStep(s.name) {
          status := status.(steps := WithStep(status.steps, s));
        } else if IsContainerSidecar(s.name) {
          status := status.(sidecars := status.sidecars + [s]);
        }
      }
      assert pod.statuses[..|pod.statuses|] == pod.statuses;
      var all := status.results + if IsDone(status) then inputs.podResults else [];
      var merged := MergeResults(all);
      status := status.(results := merged);
    }

    /** Finds or creates the attempt's pod and pulls its status in. */
    method Reconcile(inputs: Inputs) returns (err: StatusError)
      requires |status.retriesStatus| < MAX_ATTEMPTS
      modifies `status, `cluster
      ensures Reconciling(status, err) == ReconcileResult(config, old(status), inputs)
      ensures cluster == ReconcileCluster(config, old(status), inputs, old(cluster))
    {
      var pod, lookupErr := FindPod(inputs);
      if lookupErr {
        return OtherError;
      }
      if pod.None? && inputs.claimFails {
        MarkResourceFailed("CouldntCreateWorkspacePVC");
        return OtherError;
      }
      if inputs.substitutionFails {
        return OtherError;
      }
      if pod.None? {
        pod := CreatePod(inputs.creation);
        if pod.None? {
          HandlePodCreationError(inputs.creation);
          return OtherError;
        }
      }
      if inputs.readyFails {
        return OtherError;
      }
      MakeTaskRunStatus(pod.value, inputs);
      if inputs.statusError != Fine {
        return inputs.statusError;
      }
      if inputs.resultsInvalid {
        MarkResourceFailed("TaskRunValidationFailed");
        return OtherError;
      }
      return Fine;
    }

    // A pass over an attempt that is not done, up to the decision to retry.
    method Attempt(inputs: Inputs)
      requires |status.retriesStatus| < MAX_ATTEMPTS && status.started && !IsDone(status)
      modifies `status, `cluster
      ensures status == AttemptResult(config, cancelled, old(status), inputs)
      ensures cluster == ClusterAfter(config, cancelled, old(status), inputs, old(cluster))
    {
      if cancelled {
        var _ := FailTaskRun("TaskRunCancelled", inputs.deletionFails);
      } else if inputs.timedOut {
        var _ := FailTaskRun("TaskRunTimeout", inputs.deletionFails);
      } else if PodCheckFails(status.steps + status.sidecars, inputs.recovering) {
        var _ := FailTaskRun("TaskRunImagePullFailed", inputs.deletionFails);
      } else if inputs.preparation == Ready {
        var err := Reconcile(inputs);
        if err == TooLarge {
          var _ := FailTaskRun("TaskRunResultLargerThanAllowedLimit", inputs.deletionFails);
        }
      } else if inputs.preparation.Ongoing? {
        MarkResourceOngoing(inputs.preparation.reason);
      } else if inputs.preparation.Invalid? {
        MarkResourceFailed(inputs.preparation.reason);
      }
    }

    /** One pass. */
    method ReconcileKind(inputs: Inputs)
      requires |status.retriesStatus| < MAX_ATTEMPTS
      modifies `status, `cluster
      ensures status == Decided(config, cancelled, old(status), inputs)
      ensures cluster == ClusterAfter(config, cancelled, old(status), inputs, old(cluster))
    {
      if !status.started {
        status := Initialized(status);
      }
      if IsDone(status) {
        if inputs.sidecarMode == DiscoveryFailed {
          return;
        }
        if inputs.sidecarMode == TektonSidecars {
          var err := StopSidecars(inputs.stop);
          if err {
            return;
          }
        }
      } else {
        Attempt(inputs);
      }
      Finish();
    }
  }

  // ----- What every pass keeps -----

  // Attempt n may put its own pod into the cluster, and ends up with no other pod than that one,
  // the one it had, or one from the cluster that no archived attempt used.
  ghost predicate Progressed(c: Config, s: Status, cl: Cluster, s': Status, cl': Cluster) {
    && |s.retriesStatus| < MAX_ATTEMPTS
    && (cl' == cl || (OwnName(c, s) !in cl.live && cl' == WithPod(cl, OwnName(c, s))))
    && s'.retriesStatus == s.retriesStatus
    && (|| s'.podName == s.podName
        || (s'.podName == OwnName(c, s) && s'.podName in cl'.made)
        || (s.podName == "" && s'.podName in cl.made && !IsPodArchived(s'.podName, s)))
  }

  lemma {:induction false} LastAdoptableFound(listed: seq<ListedPod>, s: Status)
    ensures var pod := LastAdoptable(listed, s);
      && (pod.None? <==> forall p :: p in listed ==> !Adoptable(p, s))
      && (pod.Some? ==> exists p :: p in listed && p.pod == pod.value && Adoptable(p, s))
  {
    if listed != [] {
      LastAdoptableFound(listed[..|listed| - 1], s);
      assert listed == listed[..|listed| - 1] + [listed[|listed| - 1]];
    }
  }

  // The archive as it was, and the pod as it was or the one named.
  ghost predicate OnlyPod(s: Status, s': Status, name: string) {
    s'.retriesStatus == s.retriesStatus && (s'.podName == s.podName || s'.podName == name)
  }

  lemma FromAnyPodShape(s: Status, pod: Pod, inputs: Inputs)
    ensures OnlyPod(s, FromAnyPod(s, pod, inputs).status, pod.name)
  {
  }

  lemma AskingShape(c: Config, s: Status, inputs: Inputs)
    requires |s.retriesStatus| < MAX_ATTEMPTS
    ensures var s' := Asking(c, s, inputs).status;
      OnlyPod(s, s', OwnName(c, s)) && (s'.podName == s.podName || inputs.creation.Created? || inputs.creation.Exists?)
    ensures inputs.claimFails || inputs.substitutionFails ==> Asking(c, s, inputs).status.podName == s.podName
  {
    var pod := AskedPod(inputs.creation, OwnName(c, s));
    if pod.Some? {
      FromAnyPodShape(s, pod.value, inputs);
    }
  }

  lemma ReconcileProgresses(c: Config, s: Status, inputs: Inputs, cl: Cluster)
    requires |s.retriesStatus| < MAX_ATTEMPTS && Truthful(c, s, inputs, cl)
    ensures Progressed(c, s, cl, ReconcileResult(c, s, inputs).status, ReconcileCluster(c, s, inputs, cl))
  {
    match FoundPod(s, inputs)
    case SearchFailed =>
    case NoPod => AskingShape(c, s, inputs);
    case Have(pod) =>
      FromAnyPodShape(s, pod, inputs);
      if s.podName == "" {
        LastAdoptableFound(inputs.listing.value, s);
      }
  }

  lemma AttemptProgresses(c: Config, cancelled: bool, s: Status, inputs: Inputs, cl: Cluster)
    requires |s.retriesStatus| < MAX_ATTEMPTS && Truthful(c, s, inputs, cl) && !IsDone(s)
    ensures Progressed(c, s, cl, AttemptResult(c, cancelled, s, inputs),
                       if Reaches(cancelled, s, inputs) then ReconcileCluster(c, s, inputs, cl) else cl)
  {
    if Reaches(cancelled, s, inputs) {
      ReconcileProgresses(c, s, inputs, cl);
      FailingShape(ReconcileResult(c, s, inputs).status, "TaskRunResultLargerThanAllowedLimit");
    } else {
      UnreachedShape(c, cancelled, s, inputs);
    }
  }

  lemma UnreachedShape(c: Config, cancelled: bool, s: Status, inputs: Inputs)
    requires |s.retriesStatus| < MAX_ATTEMPTS && !IsDone(s) && !Reaches(cancelled, s, inputs)
    ensures OnlyPod(s, AttemptResult(c, cancelled, s, inputs), s.podName)
  {
  }

  lemma FailingShape(s: Status, reason: string)
    ensures Failing(s, reason).retriesStatus == s.retriesStatus && Failing(s, reason).podName == s.podName
  {
  }

  lemma InitializedShape(s: Status)
    ensures var i := Initialized(s);
      && i.retriesStatus == s.retriesStatus && i.podName == s.podName && i.started && Initialized(i) == i
      && (IsDone(i) <==> IsDone(s)) && (HasFailed(i) <==> HasFailed(s))
  {
  }

  lemma PassProgresses(c: Config, cancelled: bool, s: Status, inputs: Inputs, cl: Cluster)
    requires |s.retriesStatus| < MAX_ATTEMPTS && Truthful(c, s, inputs, cl)
    ensures Progressed(c, s, cl, PassEnding(c, cancelled, s, inputs).status, ClusterAfter(c, cancelled, s, inputs, cl))
    ensures PassEnding(c, cancelled, s, inputs).BrokenOff? ==>
              (HasFailed(PassEnding(c, cancelled, s, inputs).status) <==> HasFailed(s))
  {
    InitializedShape(s);
    if !IsDone(s) {
      AttemptProgresses(c, cancelled, Initialized(s), inputs, cl);
    }
  }

  /** Whatever the cluster answers, a pass moves the current attempt on, or archives exactly it; it never leaves a
      failure that is owed a retry. */
  lemma PassMovesOrArchives(c: Config, cancelled: bool, s: Status, inputs: Inputs, cl: Cluster)
    requires |s.retriesStatus| < MAX_ATTEMPTS && Truthful(c, s, inputs, cl)
    ensures var last, now, cl' := PassEnding(c, cancelled, s, inputs).status, Decided(c, cancelled, s, inputs),
                                  ClusterAfter(c, cancelled, s, inputs, cl);
      && Progressed(c, s, cl, last, cl')
      && (now == last || (now == Retried(last) && Retriable(c, cancelled, last)))
      && (HasFailed(now) ==> HasFailed(s) || !Retriable(c, cancelled, now))
  {
    PassProgresses(c, cancelled, s, inputs, cl);
  }

  /** A success is taken back, and retried if it may be, when its sidecars cannot be stopped. */
  lemma SuccessTakenBack(c: Config, cancelled: bool, s: Status, inputs: Inputs)
    requires |s.retriesStatus| < c.retries < MAX_ATTEMPTS && !cancelled
    requires s.condition == Some(True("Succeeded")) && s.started && s.podName != ""
    requires inputs.sidecarMode == TektonSidecars && inputs.stop == StopFailed
    ensures var now := Decided(c, cancelled, s, inputs);
      !IsDone(now) && now.podName == "" && now.results == [] && |now.retriesStatus| == |s.retriesStatus| + 1
  {
  }
}
