/** How one pass of the reconciler ends, case by case: what fails an attempt, and what keeps it going. */
module PassOutcomes {
  import opened Wrappers
  import opened Text
  import opened PodStatus
  import opened StatusMerge
  import opened PodNames
  import opened Reconciler
  import opened PodReports

  // ----- An attempt that fails -----

  // The attempt that a pass ended: the one it archived if it is retried, or the one that stays.
  function Ended(was: Status, retry: bool, now: Status): Status
    requires retry ==> |was.retriesStatus| < |now.retriesStatus|
  {
    if retry then now.retriesStatus[|was.retriesStatus|] else now
  }

  // The attempt failed with the reason, kept its pod and results, and is archived if it is retried; then the next
  // attempt starts with none of its own.
  ghost predicate FailedAs(was: Status, retry: bool, now: Status, reason: string) {
    && |now.retriesStatus| == |was.retriesStatus| + (if retry then 1 else 0)
    && was.retriesStatus <= now.retriesStatus
    && var last := Ended(was, retry, now);
       && last.condition == Some(False(reason)) && last.completed && last.started
       && last.podName == was.podName && last.results == was.results && last.sidecars == was.sidecars
       && (retry ==>
             && last.retriesStatus == [] && now.condition == Some(Unknown("ToBeRetried"))
             && !now.started && !now.completed && now.podName == "" && now.results == []
             && now.steps == last.steps && now.sidecars == last.sidecars)
  }

  // Steps that had not terminated are terminated with code 1; the others stay as they are.
  ghost predicate StepsEnded(was: seq<ContainerStatus>, now: seq<ContainerStatus>, reason: string) {
    && |now| == |was|
    && forall i :: 0 <= i < |was| ==>
         && now[i].name == was[i].name
         && now[i].state == if was[i].state.Terminated? then was[i].state else Terminated(1, reason)
  }

  // The attempt failed, and where it had a pod none of its steps is left running or waiting.
  ghost predicate KilledAs(was: Status, retry: bool, now: Status, reason: string) {
    && FailedAs(was, retry, now, reason)
    && var steps := Ended(was, retry, now).steps;
       if was.podName == "" then steps == was.steps else StepsEnded(was.steps, steps, reason)
  }

  // A pass whose attempt comes out failing with the reason.
  lemma FailingIsKilled(c: Config, cancelled: bool, s: Status, reason: string)
    requires s.started
    ensures KilledAs(s, !cancelled && |s.retriesStatus| < c.retries, Finished(c, cancelled, Failing(s, reason)), reason)
  {
  }

  lemma MarkedIsFailed(c: Config, cancelled: bool, s: Status, reason: string)
    requires s.started
    ensures var retry := !cancelled && |s.retriesStatus| < c.retries;
      var now := Finished(c, cancelled, MarkedFailed(s, reason));
      FailedAs(s, retry, now, reason) && Ended(s, retry, now).steps == s.steps
  {
  }

  // Only starting changes anything before the attempt is looked at.
  lemma StartedSame(was: Status, retry: bool, now: Status, reason: string)
    requires KilledAs(Initialized(was), retry, now, reason)
    ensures KilledAs(was, retry, now, reason)
  {
  }

  lemma StartedSameFailed(was: Status, retry: bool, now: Status)
    ensures forall reason :: FailedAs(Initialized(was), retry, now, reason) ==> FailedAs(was, retry, now, reason)
  {
  }

  /** A cancelled attempt that is not done: whatever the cluster answers, a pass fails it for that reason, archives
      nothing, makes no pod, and leaves no step of its pod running or waiting. */
  lemma CancelledIsKilled(c: Config, was: Status, inputs: Inputs, cl: Cluster)
    requires |was.retriesStatus| < MAX_ATTEMPTS && !IsDone(was)
    ensures KilledAs(was, false, Decided(c, true, was, inputs), "TaskRunCancelled")
    ensures ClusterAfter(c, true, was, inputs, cl) == cl
  {
    InitializedShape(was);
    FailingIsKilled(c, true, Initialized(was), "TaskRunCancelled");
    StartedSame(was, false, Decided(c, true, was, inputs), "TaskRunCancelled");
  }

  /** One that has run out of time fails for that, and is retried if it may be. */
  lemma TimedOutIsKilled(c: Config, was: Status, inputs: Inputs, cl: Cluster)
    requires |was.retriesStatus| < MAX_ATTEMPTS && !IsDone(was) && inputs.timedOut
    ensures KilledAs(was, |was.retriesStatus| < c.retries, Decided(c, false, was, inputs), "TaskRunTimeout")
    ensures ClusterAfter(c, false, was, inputs, cl) == cl
  {
    InitializedShape(was);
    FailingIsKilled(c, false, Initialized(was), "TaskRunTimeout");
    StartedSame(was, |was.retriesStatus| < c.retries, Decided(c, false, was, inputs), "TaskRunTimeout");
  }

  // ----- Images that cannot be pulled -----

  predicate StuckAt(containers: seq<ContainerStatus>, i: nat) {
    i < |containers| && containers[i].state in {Waiting("ImagePullBackOff"), Waiting("InvalidImageName")}
  }

  // Container i is the first that waits for such an image.
  ghost predicate FirstStuck(containers: seq<ContainerStatus>, i: nat) {
    StuckAt(containers, i) && forall j: nat :: j < i ==> !StuckAt(containers, j)
  }

  lemma {:induction false} FirstStuckDecides(containers: seq<ContainerStatus>, i: nat, recovering: bool)
    requires FirstStuck(containers, i)
    ensures PodCheckFails(containers, recovering) <==>
              !(recovering && containers[i].state == Waiting("ImagePullBackOff"))
  {
    if i > 0 {
      assert !StuckAt(containers, 0) && containers[1..][i - 1] == containers[i];
      forall j: nat | j < i - 1
        ensures !StuckAt(containers[1..], j)
      {
        assert !StuckAt(containers, j + 1);
      }
      FirstStuckDecides(containers[1..], i - 1, recovering);
    }
  }

  lemma {:induction false} NoneStuckPasses(containers: seq<ContainerStatus>, recovering: bool)
    requires forall i: nat :: !StuckAt(containers, i)
    ensures !PodCheckFails(containers, recovering)
  {
    if containers != [] {
      assert !StuckAt(containers, 0);
      forall i: nat
        ensures !StuckAt(containers[1..], i)
      {
        assert !StuckAt(containers, i + 1);
      }
      NoneStuckPasses(containers[1..], recovering);
    }
  }

  /** An attempt whose first step or sidecar with an image that cannot be pulled is not in its grace period fails for
      that; a grace period is only for ImagePullBackOff. */
  lemma StuckIsKilled(c: Config, was: Status, i: nat, inputs: Inputs, cl: Cluster)
    requires |was.retriesStatus| < MAX_ATTEMPTS && !IsDone(was) && !inputs.timedOut
    requires FirstStuck(was.steps + was.sidecars, i)
    requires !(inputs.recovering && (was.steps + was.sidecars)[i].state == Waiting("ImagePullBackOff"))
    ensures KilledAs(was, |was.retriesStatus| < c.retries, Decided(c, false, was, inputs), "TaskRunImagePullFailed")
    ensures ClusterAfter(c, false, was, inputs, cl) == cl
  {
    InitializedShape(was);
    FirstStuckDecides(was.steps + was.sidecars, i, inputs.recovering);
    FailingIsKilled(c, false, Initialized(was), "TaskRunImagePullFailed");
    StartedSame(was, |was.retriesStatus| < c.retries, Decided(c, false, was, inputs), "TaskRunImagePullFailed");
  }

  // ----- The attempt goes on to its pod -----

  // Nothing stands against looking after the pod: not done, cancelled or out of time, and no image to wait for in vain.
  ghost predicate LooksAfterPod(s: Status, inputs: Inputs) {
    && !IsDone(s) && !inputs.timedOut && inputs.preparation == Ready
    && ((forall i: nat :: !StuckAt(s.steps + s.sidecars, i))
        || (exists i: nat :: && FirstStuck(s.steps + s.sidecars, i) && inputs.recovering
                             && (s.steps + s.sidecars)[i].state == Waiting("ImagePullBackOff")))
  }

  lemma ReachesPod(c: Config, was: Status, inputs: Inputs)
    requires |was.retriesStatus| < MAX_ATTEMPTS && LooksAfterPod(was, inputs)
    ensures var s := Initialized(was);
      && Reaches(false, s, inputs)
      && Decided(c, false, was, inputs) ==
           Finished(c, false, var r := ReconcileResult(c, s, inputs);
                              if r.error == TooLarge then Failing(r.status, "TaskRunResultLargerThanAllowedLimit")
                              else r.status)
  {
    InitializedShape(was);
    var containers := was.steps + was.sidecars;
    if forall i: nat :: !StuckAt(containers, i) {
      NoneStuckPasses(containers, inputs.recovering);
    } else {
      var i: nat :| && FirstStuck(containers, i) && inputs.recovering
                    && containers[i].state == Waiting("ImagePullBackOff");
      FirstStuckDecides(containers, i, inputs.recovering);
    }
  }

  // ----- Which pod it is -----

  // A listed pod that may be taken over: the TaskRun controls it, it has not failed, and no archived attempt used it.
  ghost predicate Usable(p: ListedPod, s: Status) {
    p.controlled && !PodFailed(p.pod) && forall r :: r in s.retriesStatus ==> r.podName != p.pod.name
  }

  ghost predicate LastUsable(listed: seq<ListedPod>, s: Status, k: nat) {
    k < |listed| && Usable(listed[k], s) && forall j :: k < j < |listed| ==> !Usable(listed[j], s)
  }

  lemma UsableIsAdoptable(p: ListedPod, s: Status)
    ensures Usable(p, s) <==> Adoptable(p, s)
  {
  }

  /** Of the listed pods the last usable one is taken. */
  lemma {:induction false} LastUsableIsTaken(listed: seq<ListedPod>, s: Status, k: nat)
    requires LastUsable(listed, s, k)
    ensures LastAdoptable(listed, s) == Some(listed[k].pod)
  {
    UsableIsAdoptable(listed[|listed| - 1], s);
    if k < |listed| - 1 {
      LastUsableIsTaken(listed[..|listed| - 1], s, k);
    }
  }

  // The attempt has no pod: none is there of the recorded name, or none is recorded and none of those listed is usable.
  ghost predicate NeedsPod(s: Status, inputs: Inputs) {
    if s.podName != "" then inputs.lookup == Missing
    else inputs.listing.Some? && forall p :: p in inputs.listing.value ==> !Usable(p, s)
  }

  lemma NeedsPodMeansNone(s: Status, inputs: Inputs)
    requires NeedsPod(s, inputs)
    ensures FoundPod(s, inputs) == NoPod
  {
    if s.podName == "" {
      forall p | p in inputs.listing.value
        ensures !Adoptable(p, s)
      {
        UsableIsAdoptable(p, s);
      }
      LastAdoptableFound(inputs.listing.value, s);
    }
  }

  // The pod the pass comes to look at: the recorded one as it is looked up; with none recorded the last usable one of
  // those listed; and where there is none, the one asked for, under the attempt's own name, be it new or there already.
  ghost predicate LooksAt(c: Config, s: Status, inputs: Inputs, pod: Pod)
    requires |s.retriesStatus| < MAX_ATTEMPTS
  {
    || (s.podName != "" && inputs.lookup.Found? && pod == inputs.lookup.pod.(name := s.podName))
    || (s.podName == "" && inputs.listing.Some?
        && exists k: nat :: LastUsable(inputs.listing.value, s, k) && pod == inputs.listing.value[k].pod)
    || (NeedsPod(s, inputs) && !inputs.claimFails && pod.name == PodName(c.md5, c.name, |s.retriesStatus|)
        && ((inputs.creation.Created? && pod == inputs.creation.pod.(name := pod.name))
            || (inputs.creation.Exists? && inputs.creation.cached.Some?
                && pod == inputs.creation.cached.value.(name := pod.name))))
  }

  ghost predicate Unhindered(inputs: Inputs) {
    !inputs.substitutionFails && !inputs.readyFails
  }

  lemma LooksAtPod(c: Config, s: Status, inputs: Inputs, pod: Pod)
    requires |s.retriesStatus| < MAX_ATTEMPTS && LooksAt(c, s, inputs, pod) && Unhindered(inputs)
    ensures ReconcileResult(c, s, inputs) == FromAnyPod(s, pod, inputs)
  {
    if NeedsPod(s, inputs) {
      NeedsPodMeansNone(s, inputs);
    } else if s.podName == "" {
      var k: nat :| LastUsable(inputs.listing.value, s, k) && pod == inputs.listing.value[k].pod;
      LastUsableIsTaken(inputs.listing.value, s, k);
    }
  }

  // ----- What the pod makes of the attempt -----

  // A pass that looks after the attempt, and at that pod.
  ghost predicate Attends(c: Config, was: Status, inputs: Inputs, pod: Pod)
    requires |was.retriesStatus| < MAX_ATTEMPTS
  {
    LooksAfterPod(was, inputs) && Unhindered(inputs) && LooksAt(c, Initialized(was), inputs, pod)
  }

  lemma AttendedStatus(c: Config, was: Status, inputs: Inputs, pod: Pod)
    requires |was.retriesStatus| < MAX_ATTEMPTS && Attends(c, was, inputs, pod)
    ensures var now, s := Decided(c, false, was, inputs), FromPod(Initialized(was), pod, inputs);
      now == Finished(c, false,
        if inputs.statusError == TooLarge then Failing(s, "TaskRunResultLargerThanAllowedLimit")
        else if inputs.statusError == Fine && inputs.resultsInvalid then MarkedFailed(s, "TaskRunValidationFailed")
        else s)
    ensures !IsDone(Initialized(was)) && Initialized(was).started
  {
    InitializedShape(was);
    ReachesPod(c, was, inputs);
    LooksAtPod(c, Initialized(was), inputs, pod);
  }

  /** A pod that is over without a failure, and nothing wrong with its results: the TaskRun has succeeded, in this pod,
      with what the pod reports. */
  lemma PodSucceeds(c: Config, was: Status, inputs: Inputs, pod: Pod)
    requires |was.retriesStatus| < MAX_ATTEMPTS && Attends(c, was, inputs, pod)
    requires PodOver(pod, inputs.resultsFromSidecar) && !PodFailed(pod)
    requires inputs.statusError != TooLarge && !inputs.resultsInvalid
    ensures var now := Decided(c, false, was, inputs);
      && now == FromPod(Initialized(was), pod, inputs)
      && now.condition == Some(True("Succeeded")) && now.completed && now.podName == pod.name
      && now.retriesStatus == was.retriesStatus
  {
    AttendedStatus(c, was, inputs, pod);
    ConditionReported(Initialized(was), pod, inputs);
  }

  /** A pod that has failed fails the attempt, which is retried if it may be; what the pod reports stays with it. */
  lemma PodFails(c: Config, was: Status, inputs: Inputs, pod: Pod)
    requires |was.retriesStatus| < MAX_ATTEMPTS && Attends(c, was, inputs, pod)
    requires PodOver(pod, inputs.resultsFromSidecar) && PodFailed(pod)
    requires inputs.statusError != TooLarge && !inputs.resultsInvalid
    ensures var s, now, retry :=
                FromPod(Initialized(was), pod, inputs), Decided(c, false, was, inputs), |was.retriesStatus| < c.retries;
      && FailedAs(s, retry, now, if inputs.ignoreFailure then "FailureIgnored" else "Failed")
      && Ended(s, retry, now).steps == s.steps && s.podName == pod.name
  {
    AttendedStatus(c, was, inputs, pod);
    ConditionReported(Initialized(was), pod, inputs);
  }

  /** Results over the size limit fail the attempt whatever the pod's verdict, and end its steps. */
  lemma TooLargeIsKilled(c: Config, was: Status, inputs: Inputs, pod: Pod)
    requires |was.retriesStatus| < MAX_ATTEMPTS && Attends(c, was, inputs, pod) && inputs.statusError == TooLarge
    ensures KilledAs(FromPod(Initialized(was), pod, inputs), |was.retriesStatus| < c.retries,
                     Decided(c, false, was, inputs), "TaskRunResultLargerThanAllowedLimit")
  {
    AttendedStatus(c, was, inputs, pod);
    FailingIsKilled(c, false, FromPod(Initialized(was), pod, inputs), "TaskRunResultLargerThanAllowedLimit");
  }

  /** Results of the wrong type fail it too. */
  lemma InvalidResultsFail(c: Config, was: Status, inputs: Inputs, pod: Pod)
    requires |was.retriesStatus| < MAX_ATTEMPTS && Attends(c, was, inputs, pod)
    requires inputs.statusError == Fine && inputs.resultsInvalid
    ensures FailedAs(FromPod(Initialized(was), pod, inputs), |was.retriesStatus| < c.retries,
                     Decided(c, false, was, inputs), "TaskRunValidationFailed")
  {
    AttendedStatus(c, was, inputs, pod);
    MarkedIsFailed(c, false, FromPod(Initialized(was), pod, inputs), "TaskRunValidationFailed");
  }

  // ----- Without a pod -----

  // The attempt has started, if it had not; what is done stays so.
  lemma StartingStarts(was: Status)
    ensures was.started ==> Initialized(was) == was
    ensures !was.started && !IsDone(was) ==>
              Initialized(was) == was.(started := true, condition := Some(Unknown("Started")))
    ensures !was.started && IsDone(was) ==>
              Initialized(was) == was.(started := true, condition :=
                Some(if was.condition.value.False? then False("Started") else True("Started")))
  {
  }

  lemma NoPodStatus(c: Config, was: Status, inputs: Inputs)
    requires |was.retriesStatus| < MAX_ATTEMPTS && LooksAfterPod(was, inputs) && NeedsPod(was, inputs)
    ensures Decided(c, false, was, inputs) ==
              var r := Asking(c, Initialized(was), inputs);
              Finished(c, false, if r.error == TooLarge then Failing(r.status, "TaskRunResultLargerThanAllowedLimit")
                                 else r.status)
  {
    InitializedShape(was);
    ReachesPod(c, was, inputs);
    NeedsPodMeansNone(Initialized(was), inputs);
  }

  /** A quota in the way never fails an attempt, nor uses up a retry: it goes on as if it had not started. */
  lemma QuotaKeepsGoing(c: Config, was: Status, inputs: Inputs, cl: Cluster)
    requires |was.retriesStatus| < MAX_ATTEMPTS && LooksAfterPod(was, inputs) && NeedsPod(was, inputs)
    requires !inputs.claimFails && !inputs.substitutionFails
    requires inputs.creation == QuotaConflict || inputs.creation == QuotaExceeded
    ensures var reason := if inputs.creation == QuotaConflict then "Pending" else "ExceededResourceQuota";
      Decided(c, false, was, inputs) == was.(started := false, condition := Some(Unknown(reason)))
    ensures ClusterAfter(c, false, was, inputs, cl) == cl
  {
    NoPodStatus(c, was, inputs);
  }

  /** A pod that is there but not in the cache yet is waited for. */
  lemma UnseenPodIsWaitedFor(c: Config, was: Status, inputs: Inputs, cl: Cluster)
    requires |was.retriesStatus| < MAX_ATTEMPTS && LooksAfterPod(was, inputs) && NeedsPod(was, inputs)
    requires !inputs.claimFails && !inputs.substitutionFails && inputs.creation == Exists(None)
    ensures Decided(c, false, was, inputs) == was.(started := true, condition := Some(Unknown("Pending")))
    ensures ClusterAfter(c, false, was, inputs, cl) == cl
  {
    NoPodStatus(c, was, inputs);
  }

  /** Every other answer to asking for a pod fails the attempt; a volume claim that cannot be made does so before. */
  lemma RefusedPodFails(c: Config, was: Status, inputs: Inputs)
    requires |was.retriesStatus| < MAX_ATTEMPTS && LooksAfterPod(was, inputs) && NeedsPod(was, inputs)
    ensures var now, retry := Decided(c, false, was, inputs), |was.retriesStatus| < c.retries;
      && (inputs.claimFails ==> FailedAs(was, retry, now, "CouldntCreateWorkspacePVC"))
      && (!inputs.claimFails && !inputs.substitutionFails ==>
            && (inputs.creation == ValidationRejected ==> FailedAs(was, retry, now, "TaskRunValidationFailed"))
            && (inputs.creation == AdmissionRejected ==> FailedAs(was, retry, now, "PodAdmissionFailed"))
            && (inputs.creation.OtherFailure? ==> FailedAs(was, retry, now, "PodCreationFailed")))
  {
    var s := Initialized(was);
    NoPodStatus(c, was, inputs);
    InitializedShape(was);
    MarkedIsFailed(c, false, s, "CouldntCreateWorkspacePVC");
    MarkedIsFailed(c, false, s, "TaskRunValidationFailed");
    MarkedIsFailed(c, false, s, "PodAdmissionFailed");
    MarkedIsFailed(c, false, s, "PodCreationFailed");
    StartedSameFailed(was, |was.retriesStatus| < c.retries, Decided(c, false, was, inputs));
  }

  /** One pod is made, under the attempt's own name, exactly when the attempt needs one, nothing fails before it is
      asked for, and the API server makes it, be its answer lost or not. */
  lemma PodMadeIff(c: Config, was: Status, inputs: Inputs, cl: Cluster)
    requires |was.retriesStatus| < MAX_ATTEMPTS && LooksAfterPod(was, inputs) && NeedsPod(was, inputs)
    ensures var cl', name := ClusterAfter(c, false, was, inputs, cl), PodName(c.md5, c.name, |was.retriesStatus|);
      if && !inputs.claimFails && !inputs.substitutionFails
         && (inputs.creation.Created? || inputs.creation == OtherFailure(true))
      then cl' == Cluster(cl.made + multiset{name}, cl.deleted, cl.live + {name})
      else cl' == cl
  {
    InitializedShape(was);
    ReachesPod(c, was, inputs);
    NeedsPodMeansNone(Initialized(was), inputs);
  }

  /** And none where it has one, or where looking for it fails. */
  lemma NoPodMade(c: Config, was: Status, inputs: Inputs, cl: Cluster)
    requires |was.retriesStatus| < MAX_ATTEMPTS
    requires if was.podName != "" then inputs.lookup != Missing
             else inputs.listing.None? || exists k: nat :: LastUsable(inputs.listing.value, was, k)
    ensures ClusterAfter(c, false, was, inputs, cl) == cl
  {
    InitializedShape(was);
    if was.podName == "" && inputs.listing.Some? {
      var k: nat :| LastUsable(inputs.listing.value, was, k);
      assert LastUsable(inputs.listing.value, Initialized(was), k);
      LastUsableIsTaken(inputs.listing.value, Initialized(was), k);
    }
  }

  /** A look-up or listing that fails, or a variable that cannot be replaced, changes nothing; nor does a pod that
      cannot be told to go ahead. */
  lemma HinderedChangesNothing(c: Config, was: Status, inputs: Inputs, pod: Pod)
    requires |was.retriesStatus| < MAX_ATTEMPTS && LooksAfterPod(was, inputs)
    requires || (if was.podName != "" then inputs.lookup == LookupFailed else inputs.listing.None?)
             || (inputs.substitutionFails && !inputs.claimFails && NeedsPod(was, inputs))
             || (LooksAt(c, Initialized(was), inputs, pod) && (inputs.substitutionFails || inputs.readyFails))
    ensures Decided(c, false, was, inputs) == Initialized(was)
  {
    var s := Initialized(was);
    InitializedShape(was);
    ReachesPod(c, was, inputs);
    if NeedsPod(s, inputs) {
      NeedsPodMeansNone(s, inputs);
    } else if s.podName == "" && inputs.listing.Some? {
      var k: nat :| LastUsable(inputs.listing.value, s, k) && pod == inputs.listing.value[k].pod;
      LastUsableIsTaken(inputs.listing.value, s, k);
    }
  }

  // ----- Preparation -----

  /** Preparing the TaskRun before anything is asked of the cluster: an invalid one fails, one that is still being
      resolved says so, and a passing error changes nothing. */
  lemma PreparationDecides(c: Config, was: Status, inputs: Inputs, cl: Cluster)
    requires |was.retriesStatus| < MAX_ATTEMPTS && !IsDone(was) && !inputs.timedOut
    requires LooksAfterPod(was, inputs.(preparation := Ready)) && inputs.preparation != Ready
    ensures inputs.preparation.Invalid? ==>
              FailedAs(was, |was.retriesStatus| < c.retries, Decided(c, false, was, inputs), inputs.preparation.reason)
    ensures inputs.preparation.Ongoing? ==>
              Decided(c, false, was, inputs) ==
                was.(started := true, condition := Some(Unknown(inputs.preparation.reason)))
    ensures inputs.preparation.Transient? ==> Decided(c, false, was, inputs) == Initialized(was)
    ensures ClusterAfter(c, false, was, inputs, cl) == cl
  {
    InitializedShape(was);
    ReachesPod(c, was, inputs.(preparation := Ready));
  }

  // ----- A TaskRun that is done -----

  /** A pass over a TaskRun that is done, and owed no retry, leaves it as it is; but sidecars that still run are
      reported as they were stopped, and sidecars that cannot be stopped fail the TaskRun. */
  lemma DoneStays(c: Config, cancelled: bool, was: Status, inputs: Inputs)
    requires |was.retriesStatus| < MAX_ATTEMPTS && IsDone(was) && was.started
    requires HasFailed(was) ==> cancelled || |was.retriesStatus| >= c.retries
    ensures var now := Decided(c, cancelled, was, inputs);
      var stops := && inputs.sidecarMode == TektonSidecars && was.podName != ""
                   && was.condition.value.reason !in {"TaskRunCancelled", "TaskRunTimeout"};
      if !stops || inputs.stop == StopPodMissing || inputs.stop == StopConflict then now == was
      else if inputs.stop == StopFailed then
        FailedAs(was, !cancelled && |was.retriesStatus| < c.retries, now, "TaskRunStopSidecarFailed")
      else if forall k :: k in was.sidecars ==> k.state.Terminated? then now == was
      else now == was.(sidecars := inputs.stop.sidecars)
  {
  }

  /** Not knowing how sidecars are run, or a pod that is missing or changed meanwhile, ends the pass with no change. */
  lemma BrokenOffChangesNothing(c: Config, cancelled: bool, was: Status, inputs: Inputs)
    requires |was.retriesStatus| < MAX_ATTEMPTS && IsDone(was) && was.started
    requires || inputs.sidecarMode == DiscoveryFailed
             || (&& inputs.sidecarMode == TektonSidecars && was.podName != ""
                 && was.condition.value.reason !in {"TaskRunCancelled", "TaskRunTimeout"}
                 && inputs.stop in {StopPodMissing, StopConflict})
    ensures Decided(c, cancelled, was, inputs) == was
  {
  }
}
