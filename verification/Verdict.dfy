/** The pod as the controller sees it, and the verdict on the TaskRun it derives from the container statuses. */
module PodStatus {
  import opened Wrappers
  import opened Text

  datatype ContainerState = Waiting(why: string) | Running | Terminated(exitCode: int, reason: string)

  datatype ContainerStatus = ContainerStatus(name: string, state: ContainerState)

  datatype PodPhase = Pending | PodRunning | Succeeded | Failed | PodUnknown

  // unschedulable: a pod condition says that the node lacks resources.
  datatype Pod = Pod(name: string, phase: PodPhase, statuses: seq<ContainerStatus>, unschedulable: bool)

  datatype Condition = Unknown(reason: string) | True(reason: string) | False(reason: string)

  const OOM_KILLED := "OOMKilled"
  const RESULTS_SIDECAR := "sidecar-tekton-log-results"

  predicate IsContainerStep(name: string) {
    HasPrefix(name, "step-")
  }

  predicate IsContainerSidecar(name: string) {
    HasPrefix(name, "sidecar-")
  }

  predicate StepFailed(c: ContainerStatus) {
    && IsContainerStep(c.name)
    && c.state.Terminated?
    && (c.state.exitCode != 0 || c.state.reason == OOM_KILLED)
  }

  predicate DidTaskRunFail(pod: Pod) {
    pod.phase == Failed || exists c :: c in pod.statuses && StepFailed(c)
  }

  predicate IsPodCompleted(pod: Pod) {
    || pod.phase == Succeeded || pod.phase == Failed
    || exists c :: c in pod.statuses && IsContainerStep(c.name) && c.state.Terminated? && c.state.reason == OOM_KILLED
  }

  predicate MustTerminate(c: ContainerStatus, resultsFromSidecar: bool) {
    IsContainerStep(c.name) || (resultsFromSidecar && c.name == RESULTS_SIDECAR)
  }

  // Steps must have terminated, and the results sidecar too when results come from its log.
  predicate AreContainersCompleted(pod: Pod, resultsFromSidecar: bool) {
    && pod.statuses != [] && (pod.phase == PodRunning || pod.phase == Succeeded)
    && (forall c :: c in pod.statuses && MustTerminate(c, resultsFromSidecar) ==> c.state.Terminated?)
  }

  predicate Complete(pod: Pod, resultsFromSidecar: bool) {
    AreContainersCompleted(pod, resultsFromSidecar) || IsPodCompleted(pod)
  }

  predicate HitConfigError(pod: Pod) {
    exists c :: c in pod.statuses && c.state == Waiting("CreateContainerConfigError")
  }

  const IMAGE_ERRORS := {"ImagePullBackOff", "ImageInspectError", "ErrImagePull", "ErrImageNeverPull",
                         "RegistryUnavailable", "InvalidImageName"}

  predicate HitPullError(pod: Pod) {
    exists c :: c in pod.statuses && c.state.Waiting? && c.state.why in IMAGE_ERRORS
  }

  // The Succeeded condition after one look at the pod.
  function NextCondition(prior: Option<Condition>, pod: Pod, resultsFromSidecar: bool, ignoreFailure: bool): Condition {
    var current := if prior.None? || prior.value.Unknown? then Unknown("Running") else prior.value;
    if Complete(pod, resultsFromSidecar) then
      if DidTaskRunFail(pod) then False(if ignoreFailure then "FailureIgnored" else "Failed") else True("Succeeded")
    else if pod.phase == PodRunning then Unknown("Running")
    else if pod.phase == Pending then
      if pod.unschedulable then Unknown("ExceededNodeResources")
      else if HitConfigError(pod) then False("CreateContainerConfigError")
      else if HitPullError(pod) then Unknown("PullImageFailed")
      else Unknown("Pending")
    else current
  }

  // ----- Putting the statuses into the order of the containers -----

  predicate DistinctNames(statuses: seq<ContainerStatus>) {
    forall i, j :: 0 <= i < j < |statuses| ==> statuses[i].name != statuses[j].name
  }

  const NO_STATUS := ContainerStatus("", Waiting(""))

  function ByName(statuses: seq<ContainerStatus>): map<string, ContainerStatus> {
    if statuses == [] then map[]
    else
      var last := statuses[|statuses| - 1];
      ByName(statuses[..|statuses| - 1])[last.name := last]
  }

  lemma {:induction false} ByNameFinds(statuses: seq<ContainerStatus>, k: nat)
    requires DistinctNames(statuses) && k < |statuses|
    ensures statuses[k].name in ByName(statuses) && ByName(statuses)[statuses[k].name] == statuses[k]
  {
    if k < |statuses| - 1 {
      ByNameFinds(statuses[..|statuses| - 1], k);
    }
  }

  function StatusOf(m: map<string, ContainerStatus>, name: string): ContainerStatus {
    if name in m then m[name] else NO_STATUS
  }

  ghost predicate Sorted(was: seq<ContainerStatus>, containers: seq<string>, now: seq<ContainerStatus>) {
    var m := ByName(was);
    && |now| == |was|
    && (forall i :: 0 <= i < |containers| && i < |now| ==> now[i] == StatusOf(m, containers[i]))
    && (forall i :: |containers| <= i < |now| ==> now[i] == was[i])
  }

  /** Status i becomes the status of container i. */
  method SortPodContainerStatuses(statuses: array<ContainerStatus>, containers: seq<string>)
    modifies statuses
    ensures Sorted(old(statuses[..]), containers, statuses[..])
  {
    ghost var was := statuses[..];
    var m: map<string, ContainerStatus> := map[];
    for k := 0 to statuses.Length
      invariant m == ByName(was[..k]) && statuses[..] == was
    {
      m := m[statuses[k].name := statuses[k]];
      assert was[..k + 1][..k] == was[..k];
    }
    assert was[..statuses.Length] == was;
    for i := 0 to |containers|
      invariant forall j :: 0 <= j < i && j < statuses.Length ==>
                  statuses[j] == StatusOf(m, containers[j])
      invariant forall j :: i <= j < statuses.Length ==> statuses[j] == was[j]
    {
      if i < statuses.Length {
        statuses[i] := StatusOf(m, containers[i]);
      }
    }
  }

  // When every status belongs to a container, sorting loses none and puts each in its container's place.
  lemma SortingLosesNothing(was: seq<ContainerStatus>, containers: seq<string>, now: seq<ContainerStatus>, k: nat)
    requires Sorted(was, containers, now) && DistinctNames(was) && |containers| == |was| && k < |was|
    requires was[k].name in containers
    ensures exists i :: 0 <= i < |now| && now[i] == was[k] && containers[i] == was[k].name
  {
    var i :| 0 <= i < |containers| && containers[i] == was[k].name;
    ByNameFinds(was, k);
    assert now[i] == was[k];
  }
}

/** What the controller's verdict says about the run of the step processes. */
module Verdict {
  import opened Wrappers
  import opened Entrypoint
  import opened StepProtocol
  import opened PodStatus

  predicate HasStatus(pod: Pod, name: string) {
    exists c :: c in pod.statuses && c.name == name
  }

  // The pod's container statuses report the processes of state s: one status per container, distinct
  // names, exit codes as the processes left them; a killed container does not report a clean exit.
  ghost predicate Reports(cfg: Config, s: State, pod: Pod, names: seq<string>) {
    && |s.phases| == cfg.Steps() == |names|
    && DistinctNames(pod.statuses)
    && (forall i :: 0 <= i < |names| ==> IsContainerStep(names[i]))
    && (forall c :: c in pod.statuses && IsContainerStep(c.name) ==> c.name in names)
    && (forall i :: 0 <= i < |names| ==> HasStatus(pod, names[i]))
    && (forall i, c :: 0 <= i < |names| && c in pod.statuses && c.name == names[i] && c.state.Terminated? ==>
          || s.phases[i] == Exited(c.state.exitCode)
          || (s.phases[i] == Dead && (c.state.exitCode != 0 || c.state.reason == OOM_KILLED)))
    // A pod succeeds only when all its containers have exited cleanly.
    && (pod.phase == Succeeded ==> forall i :: 0 <= i < cfg.Steps() ==> s.phases[i] == Exited(0))
  }

  /**
   A TaskRun is marked successful only if every step posted plain "out": none failed, and none was
   skipped after a failure.
   */
  lemma SuccessMeansEveryStepPosted(cfg: Config, b: nat -> State, a: nat -> Action, t: nat, pod: Pod,
                                    names: seq<string>, prior: Option<Condition>, resultsFromSidecar: bool,
                                    ignoreFailure: bool)
    requires Behaviour(cfg, b, a) && Reports(cfg, b(t), pod, names)
    requires prior.None? || prior.value.Unknown?
    requires NextCondition(prior, pod, resultsFromSidecar, ignoreFailure).True?
    ensures forall i :: 0 <= i < cfg.Steps() ==>
              b(t).phases[i] == Exited(0) && Out(i) in b(t).files && Err(i) !in b(t).files
  {
    Invariant(cfg, b, a, t);
    forall i | 0 <= i < cfg.Steps()
      ensures b(t).phases[i] == Exited(0) && Out(i) in b(t).files && Err(i) !in b(t).files
    {
      assert StepInv(cfg, b(t), i);
      assert HasStatus(pod, names[i]);
      var c :| c in pod.statuses && c.name == names[i];
      assert !StepFailed(c);
    }
  }

  /** A step that posted ".err" makes the verdict a failure as soon as its container has terminated. */
  lemma PostedErrorMeansFailure(cfg: Config, b: nat -> State, a: nat -> Action, t: nat, pod: Pod, names: seq<string>,
                                k: nat)
    requires Behaviour(cfg, b, a) && Reports(cfg, b(t), pod, names) && k < cfg.Steps() && Err(k) in b(t).files
    requires exists c :: c in pod.statuses && c.name == names[k] && c.state.Terminated?
    ensures DidTaskRunFail(pod)
  {
    Invariant(cfg, b, a, t);
    assert StepInv(cfg, b(t), k);
    var c :| c in pod.statuses && c.name == names[k] && c.state.Terminated?;
    assert StepFailed(c);
  }

  /** The status of a step whose command ended with a status of its own, and was not tolerated, tells exactly that
      status once the container has terminated, unless it was killed or failed over its termination message. */
  lemma ReportTellsStatus(cfg: Config, b: nat -> State, a: nat -> Action, t: nat, u: nat, pod: Pod, names: seq<string>,
                          k: nat, status: int, c: ContainerStatus)
    requires Behaviour(cfg, b, a) && t <= u && k < cfg.Steps() && !cfg.messageFaults && b(u).phases[k] != Dead
    requires b(t).phases[k] == Posted(Some(ExitError(status))) && Reports(cfg, b(u), pod, names)
    requires c in pod.statuses && c.name == names[k] && c.state.Terminated?
    ensures c.state.exitCode == if cfg.continues[k] then 0 else if status == -1 then 255 else status
  {
    PostedThenExits(cfg, b, a, t, u, k);
  }

  lemma CleanExitsDoNotFail(cfg: Config, s: State, pod: Pod, names: seq<string>)
    requires Reports(cfg, s, pod, names) && pod.phase == PodRunning
    requires forall i :: 0 <= i < cfg.Steps() ==> s.phases[i] == Exited(0)
    requires forall c :: c in pod.statuses && IsContainerStep(c.name) && c.state.Terminated? ==>
              c.state.reason != OOM_KILLED
    ensures !DidTaskRunFail(pod)
  {
    forall c | c in pod.statuses && IsContainerStep(c.name)
      ensures !StepFailed(c)
    {
      var i :| 0 <= i < |names| && names[i] == c.name;
    }
  }

  /** A run whose steps all exited cleanly is marked successful once the statuses say so of the steps, and of the
      results sidecar where results come from its log; other sidecars may still run. */
  lemma CleanExitsMeanSuccess(cfg: Config, s: State, pod: Pod, names: seq<string>, prior: Option<Condition>,
                              resultsFromSidecar: bool, ignoreFailure: bool)
    requires Reports(cfg, s, pod, names) && pod.phase == PodRunning && pod.statuses != []
    requires forall i :: 0 <= i < cfg.Steps() ==> s.phases[i] == Exited(0)
    requires forall c :: c in pod.statuses && MustTerminate(c, resultsFromSidecar) ==> c.state.Terminated?
    requires forall c :: c in pod.statuses && IsContainerStep(c.name) && c.state.Terminated? ==>
              c.state.reason != OOM_KILLED
    ensures NextCondition(prior, pod, resultsFromSidecar, ignoreFailure).True?
  {
    CleanExitsDoNotFail(cfg, s, pod, names);
    assert Complete(pod, resultsFromSidecar);
  }
}
