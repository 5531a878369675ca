/** What the status of a TaskRun says of its pod; a second look at the pod changes nothing. */
module PodReports {
  import opened Wrappers
  import opened Text
  import opened PodStatus
  import opened StatusMerge
  import opened Reconciler

  // ----- Results -----

  ghost predicate DistinctResults(rs: seq<Result>) {
    forall i, j :: 0 <= i < j < |rs| ==> rs[i].name != rs[j].name
  }

  // No later result has the name of result k.
  ghost predicate LastOfName(rs: seq<Result>, k: nat)
    requires k < |rs|
  {
    forall j :: k < j < |rs| ==> rs[j].name != rs[k].name
  }

  ghost predicate Named(rs: seq<Result>, name: string) {
    exists r :: r in rs && r.name == name
  }

  lemma {:induction false} LastIsLast(xs: seq<Result>, k: nat)
    requires k < |xs| && LastOfName(xs, k)
    ensures LastOf(xs, xs[k].name) == Some(xs[k])
  {
    if k < |xs| - 1 {
      LastIsLast(xs[..|xs| - 1], k);
    }
  }

  lemma {:induction false} FirstNamesGrow(xs: seq<Result>, ys: seq<Result>)
    ensures FirstNames(xs) <= FirstNames(xs + ys)
  {
    if ys == [] {
      assert xs + ys == xs;
    } else {
      FirstNamesGrow(xs, ys[..|ys| - 1]);
      assert (xs + ys)[..|xs + ys| - 1] == xs + ys[..|ys| - 1];
    }
  }

  lemma {:induction false} FirstNamesAreNames(xs: seq<Result>, name: string)
    ensures name in FirstNames(xs) <==> Named(xs, name)
  {
    if xs != [] {
      var before, last := xs[..|xs| - 1], xs[|xs| - 1];
      FirstNamesAreNames(before, name);
      assert xs == before + [last];
    }
  }

  // Everything merged has its last value in the merge.
  lemma MergedHoldsLast(xs: seq<Result>, k: nat)
    requires k < |xs| && LastOfName(xs, k)
    ensures xs[k] in Merged(xs)
  {
    MergedIsMerge(xs);
    LastIsLast(xs, k);
    FirstNamesAreNames(xs, xs[k].name);
    assert xs[k] in xs;
    var i :| 0 <= i < |FirstNames(xs)| && FirstNames(xs)[i] == xs[k].name;
    assert Merged(xs)[i] == xs[k];
  }

  lemma MergedIsFrom(xs: seq<Result>)
    ensures DistinctResults(Merged(xs)) && forall r :: r in Merged(xs) ==> r in xs
  {
    MergedIsMerge(xs);
    FirstNamesDistinct(xs);
    forall r | r in Merged(xs)
      ensures r in xs
    {
      LastNamed(xs, r.name);
    }
  }

  // Merging more in leaves the places, and the values of what is not named again.
  lemma MergedKeepsPlaces(xs: seq<Result>, ys: seq<Result>, i: nat)
    requires DistinctResults(xs) && i < |xs|
    ensures i < |Merged(xs + ys)| && Merged(xs + ys)[i].name == xs[i].name
    ensures !Named(ys, xs[i].name) ==> Merged(xs + ys)[i] == xs[i]
  {
    MergedIsMerge(xs + ys);
    DistinctIsFixed(xs);
    FirstNamesGrow(xs, ys);
    if !Named(ys, xs[i].name) {
      LastOfConcat(xs, ys, xs[i].name);
      LastNamed(ys, xs[i].name);
    }
  }

  /** Once the run is done, the last value of every result of the pod is among the results, earlier results keep their
      place, and those the pod does not name keep their value; nothing else is there, and no name twice. */
  lemma ResultsReported(s: Status, pod: Pod, inputs: Inputs)
    requires DistinctResults(s.results) && IsDone(FromPod(s, pod, inputs))
    ensures var was, now := s.results, FromPod(s, pod, inputs).results;
      && DistinctResults(now)
      && (forall k :: 0 <= k < |inputs.podResults| && LastOfName(inputs.podResults, k) ==> inputs.podResults[k] in now)
      && |was| <= |now| && (forall i :: 0 <= i < |was| ==> now[i].name == was[i].name)
      && (forall i :: 0 <= i < |was| && !Named(inputs.podResults, was[i].name) ==> now[i] == was[i])
      && (forall r :: r in now ==> r in was || r in inputs.podResults)
  {
    var was, more := s.results, inputs.podResults;
    MergedIsFrom(was + more);
    forall k | 0 <= k < |more| && LastOfName(more, k)
      ensures more[k] in Merged(was + more)
    {
      var all, at := was + more, |was| + k;
      assert all[at] == more[k];
      assert LastOfName(all, at);
      MergedHoldsLast(all, at);
    }
    forall i | 0 <= i < |was|
      ensures i < |Merged(was + more)| && Merged(was + more)[i].name == was[i].name
      ensures !Named(more, was[i].name) ==> Merged(was + more)[i] == was[i]
    {
      MergedKeepsPlaces(was, more, i);
    }
    if |was| > 0 {
      MergedKeepsPlaces(was, more, |was| - 1);
    }
  }

  /** While it is not done, nothing is added. */
  lemma NothingReportedYet(s: Status, pod: Pod, inputs: Inputs)
    requires DistinctResults(s.results) && !IsDone(FromPod(s, pod, inputs))
    ensures FromPod(s, pod, inputs).results == s.results
  {
    assert s.results + [] == s.results;
    DistinctIsFixed(s.results);
    MergedIsMerge(s.results);
  }

  // ----- Steps -----

  // The first entry of that name is this one.
  predicate Holds(steps: seq<ContainerStatus>, c: ContainerStatus) {
    steps != [] && if steps[0].name == c.name then steps[0] == c else Holds(steps[1..], c)
  }

  lemma {:induction false} HeldIsFixed(steps: seq<ContainerStatus>, c: ContainerStatus)
    requires Holds(steps, c)
    ensures WithStep(steps, c) == steps && c in steps
  {
    if steps[0].name != c.name {
      HeldIsFixed(steps[1..], c);
    }
  }

  lemma {:induction false} WithStepHolds(steps: seq<ContainerStatus>, c: ContainerStatus)
    ensures Holds(WithStep(steps, c), c)
  {
    if steps != [] && steps[0].name != c.name {
      WithStepHolds(steps[1..], c);
    }
  }

  lemma {:induction false} WithStepKeepsHeld(steps: seq<ContainerStatus>, c: ContainerStatus, d: ContainerStatus)
    requires Holds(steps, d) && d.name != c.name
    ensures Holds(WithStep(steps, c), d)
  {
    if steps[0].name != c.name && steps[0].name != d.name {
      WithStepKeepsHeld(steps[1..], c, d);
    }
  }

  ghost predicate NamedStep(steps: seq<ContainerStatus>, name: string) {
    exists i :: 0 <= i < |steps| && steps[i].name == name
  }

  lemma {:induction false} NewStepComesLast(steps: seq<ContainerStatus>, c: ContainerStatus)
    requires !NamedStep(steps, c.name)
    ensures WithStep(steps, c) == steps + [c]
  {
    if steps != [] {
      assert steps[0].name != c.name;
      assert forall i :: 0 <= i < |steps[1..]| ==> steps[1..][i] == steps[i + 1];
      NewStepComesLast(steps[1..], c);
    }
  }

  lemma {:induction false} KnownStepKeepsPlace(steps: seq<ContainerStatus>, c: ContainerStatus, k: nat)
    requires DistinctNames(steps) && k < |steps| && steps[k].name == c.name
    ensures WithStep(steps, c) == steps[k := c]
  {
    if k > 0 {
      assert steps[0].name != c.name;
      KnownStepKeepsPlace(steps[1..], c, k - 1);
    }
  }

  predicate FromStatuses(c: ContainerStatus, statuses: seq<ContainerStatus>) {
    c in statuses && IsContainerStep(c.name)
  }

  // Places stay, and an entry changes only to the status of its name.
  ghost predicate Updated(was: seq<ContainerStatus>, statuses: seq<ContainerStatus>, now: seq<ContainerStatus>) {
    && DistinctNames(now) && |was| <= |now|
    && (forall i :: 0 <= i < |was| ==> now[i].name == was[i].name)
    && (forall i :: 0 <= i < |was| ==> now[i] == was[i] || FromStatuses(now[i], statuses))
    && (forall i :: |was| <= i < |now| ==> FromStatuses(now[i], statuses))
  }

  lemma OneMoreStep(was: seq<ContainerStatus>, statuses: seq<ContainerStatus>, now: seq<ContainerStatus>,
                    c: ContainerStatus)
    requires DistinctNames(was) && Updated(was, statuses, now) && IsContainerStep(c.name)
    ensures Updated(was, statuses + [c], WithStep(now, c))
  {
    var next, more := WithStep(now, c), statuses + [c];
    if k :| 0 <= k < |now| && now[k].name == c.name {
      KnownStepKeepsPlace(now, c, k);
    } else {
      NewStepComesLast(now, c);
    }
    assert c in more && forall d :: FromStatuses(d, statuses) ==> FromStatuses(d, more);
    forall i, j | 0 <= i < j < |next|
      ensures next[i].name != next[j].name
    {
      assert i < |now| && next[i].name == now[i].name;
    }
  }

  lemma {:induction false} WithStepsUpdates(was: seq<ContainerStatus>, statuses: seq<ContainerStatus>)
    requires DistinctNames(was)
    ensures Updated(was, statuses, WithSteps(was, statuses))
  {
    if statuses != [] {
      var before, last := statuses[..|statuses| - 1], statuses[|statuses| - 1];
      WithStepsUpdates(was, before);
      assert before + [last] == statuses;
      if IsContainerStep(last.name) {
        OneMoreStep(was, before, WithSteps(was, before), last);
      } else {
        assert forall d :: FromStatuses(d, before) ==> FromStatuses(d, statuses);
      }
    }
  }

  lemma {:induction false} WithStepsHolds(was: seq<ContainerStatus>, statuses: seq<ContainerStatus>, k: nat)
    requires DistinctNames(statuses) && k < |statuses| && IsContainerStep(statuses[k].name)
    ensures Holds(WithSteps(was, statuses), statuses[k])
  {
    var before, last := statuses[..|statuses| - 1], statuses[|statuses| - 1];
    if k < |before| {
      WithStepsHolds(was, before, k);
      if IsContainerStep(last.name) {
        WithStepKeepsHeld(WithSteps(was, before), last, statuses[k]);
      }
    } else {
      WithStepHolds(WithSteps(was, before), last);
    }
  }

  lemma {:induction false} HeldStepsAreFixed(steps: seq<ContainerStatus>, statuses: seq<ContainerStatus>)
    requires forall k :: 0 <= k < |statuses| && IsContainerStep(statuses[k].name) ==> Holds(steps, statuses[k])
    ensures WithSteps(steps, statuses) == steps
  {
    if statuses != [] {
      HeldStepsAreFixed(steps, statuses[..|statuses| - 1]);
      if IsContainerStep(statuses[|statuses| - 1].name) {
        HeldIsFixed(steps, statuses[|statuses| - 1]);
      }
    }
  }

  lemma {:induction false} SidecarsAre(statuses: seq<ContainerStatus>, c: ContainerStatus)
    ensures c in SidecarsOf(statuses) <==> c in statuses && !HasPrefix(c.name, "step-") && HasPrefix(c.name, "sidecar-")
  {
    if statuses != [] {
      var before, last := statuses[..|statuses| - 1], statuses[|statuses| - 1];
      SidecarsAre(before, c);
      assert statuses == before + [last];
    }
  }

  /** Every step container of the pod is among the steps exactly once, with the state the pod gives it; steps keep their
      places, and those that the pod does not have keep their state. The sidecars are those of the pod. */
  lemma StepsReported(s: Status, pod: Pod, inputs: Inputs)
    requires DistinctNames(s.steps) && DistinctNames(pod.statuses)
    ensures var was, now := s.steps, FromPod(s, pod, inputs).steps;
      && DistinctNames(now)
      && (forall c :: c in pod.statuses && HasPrefix(c.name, "step-") ==> c in now)
      && |was| <= |now| && (forall i :: 0 <= i < |was| ==> now[i].name == was[i].name)
      && (forall i :: 0 <= i < |was| && !NamedStep(pod.statuses, was[i].name) ==> now[i] == was[i])
      && (forall c :: c in now ==> c in was || (c in pod.statuses && HasPrefix(c.name, "step-")))
    ensures forall c :: c in FromPod(s, pod, inputs).sidecars <==>
              c in pod.statuses && !HasPrefix(c.name, "step-") && HasPrefix(c.name, "sidecar-")
  {
    var was, now := s.steps, FromPod(s, pod, inputs).steps;
    WithStepsUpdates(was, pod.statuses);
    forall c | c in pod.statuses && HasPrefix(c.name, "step-")
      ensures c in now
    {
      var k :| 0 <= k < |pod.statuses| && pod.statuses[k] == c;
      WithStepsHolds(was, pod.statuses, k);
      HeldIsFixed(now, c);
    }
    forall c
      ensures c in FromPod(s, pod, inputs).sidecars <==>
                c in pod.statuses && !HasPrefix(c.name, "step-") && HasPrefix(c.name, "sidecar-")
    {
      SidecarsAre(pod.statuses, c);
    }
  }

  // ----- A second look -----

  lemma ResultsSettle(s: Status, pod: Pod, inputs: Inputs)
    ensures FromPod(FromPod(s, pod, inputs), pod, inputs).results == FromPod(s, pod, inputs).results
  {
    var now := FromPod(s, pod, inputs);
    var more := if IsDone(now) then inputs.podResults else [];
    MergedIsMerge(s.results + more);
    MergedIsMerge(now.results + more);
    SecondReconcileChangesNothing(s.results, more, now.results, FromPod(now, pod, inputs).results);
  }

  /** A second look at the same pod changes nothing at all. */
  lemma SecondLookChangesNothing(s: Status, pod: Pod, inputs: Inputs)
    requires DistinctNames(pod.statuses)
    ensures FromPod(FromPod(s, pod, inputs), pod, inputs) == FromPod(s, pod, inputs)
  {
    var now := FromPod(s, pod, inputs);
    ResultsSettle(s, pod, inputs);
    forall k | 0 <= k < |pod.statuses| && IsContainerStep(pod.statuses[k].name)
      ensures Holds(now.steps, pod.statuses[k])
    {
      WithStepsHolds(s.steps, pod.statuses, k);
    }
    HeldStepsAreFixed(now.steps, pod.statuses);
  }

  // ----- The condition -----

  // The pod, or one of its steps, has failed.
  ghost predicate PodFailed(pod: Pod) {
    || pod.phase == Failed
    || exists c :: c in pod.statuses && HasPrefix(c.name, "step-") && c.state.Terminated?
                   && (c.state.exitCode != 0 || c.state.reason == "OOMKilled")
  }

  // The pod is over, or a step ran out of memory, or every container that is waited for has terminated.
  ghost predicate PodOver(pod: Pod, resultsFromSidecar: bool) {
    || pod.phase == Succeeded || pod.phase == Failed
    || (exists c :: c in pod.statuses && HasPrefix(c.name, "step-") && c.state.Terminated?
                    && c.state.reason == "OOMKilled")
    || (&& pod.phase == PodRunning && pod.statuses != []
        && forall c :: && c in pod.statuses
                       && (HasPrefix(c.name, "step-") || (resultsFromSidecar && c.name == "sidecar-tekton-log-results"))
                       ==> c.state.Terminated?)
  }

  // A container of the pod waits for that reason.
  ghost predicate WaitsFor(pod: Pod, why: string) {
    exists c :: c in pod.statuses && c.state == Waiting(why)
  }

  /** A TaskRun that is not done: it succeeds exactly when its pod is over and has not failed; it fails exactly when the
      pod is over and has failed, or is pending over a container configuration error though it could be scheduled. */
  lemma ConditionReported(s: Status, pod: Pod, inputs: Inputs)
    requires !IsDone(s)
    ensures var now, over := FromPod(s, pod, inputs), PodOver(pod, inputs.resultsFromSidecar);
      && (now.condition == Some(True("Succeeded")) <==> over && !PodFailed(pod))
      && (now.condition.value.True? ==> now.condition == Some(True("Succeeded")))
      && (over && PodFailed(pod) ==>
            now.condition == Some(False(if inputs.ignoreFailure then "FailureIgnored" else "Failed")))
      && (!over && pod.phase == Pending && !pod.unschedulable && WaitsFor(pod, "CreateContainerConfigError") ==>
            now.condition == Some(False("CreateContainerConfigError")))
      && (!over && !(pod.phase == Pending && !pod.unschedulable && WaitsFor(pod, "CreateContainerConfigError")) ==>
            now.condition.value.Unknown?)
      && (now.completed <==> s.completed || over)
      && now.podName == pod.name
  {
  }

  /** While it goes on, the reason says what it waits for. */
  lemma ReasonReported(s: Status, pod: Pod, inputs: Inputs)
    requires !IsDone(s) && !PodOver(pod, inputs.resultsFromSidecar)
    ensures var now := FromPod(s, pod, inputs).condition;
      && (pod.phase == PodRunning || pod.phase == PodUnknown ==> now == Some(Unknown("Running")))
      && (pod.phase == Pending && pod.unschedulable ==> now == Some(Unknown("ExceededNodeResources")))
      && (pod.phase == Pending && !pod.unschedulable && !WaitsFor(pod, "CreateContainerConfigError") ==>
            now == Some(Unknown(
              if || WaitsFor(pod, "ImagePullBackOff") || WaitsFor(pod, "ErrImagePull")
                 || WaitsFor(pod, "InvalidImageName") || WaitsFor(pod, "ImageInspectError")
                 || WaitsFor(pod, "ErrImageNeverPull") || WaitsFor(pod, "RegistryUnavailable")
              then "PullImageFailed" else "Pending")))
  {
  }
}
