/** What whole runs of a TaskRun keep of its pods' reports. */
module RunReports {
  import opened Wrappers
  import opened PodStatus
  import opened StatusMerge
  import opened PodNames
  import opened Reconciler
  import opened Retries
  import opened PodReports
  import opened PassOutcomes

  // ----- No name twice -----

  ghost predicate Tidy(s: Status) {
    DistinctNames(s.steps) && DistinctResults(s.results)
  }

  lemma FromPodIsTidy(s: Status, pod: Pod, inputs: Inputs)
    requires Tidy(s)
    ensures Tidy(FromPod(s, pod, inputs))
  {
    WithStepsUpdates(s.steps, pod.statuses);
    MergedIsFrom(s.results + if IsDone(FromPod(s, pod, inputs)) then inputs.podResults else []);
  }

  lemma FromAnyPodIsTidy(s: Status, pod: Pod, inputs: Inputs)
    requires Tidy(s)
    ensures Tidy(FromAnyPod(s, pod, inputs).status)
  {
    FromPodIsTidy(s, pod, inputs);
  }

  lemma ReconcileIsTidy(c: Config, s: Status, inputs: Inputs)
    requires |s.retriesStatus| < MAX_ATTEMPTS && Tidy(s)
    ensures Tidy(ReconcileResult(c, s, inputs).status)
  {
    var found, asked := FoundPod(s, inputs), AskedPod(inputs.creation, OwnName(c, s));
    if found.Have? {
      FromAnyPodIsTidy(s, found.pod, inputs);
    } else if asked.Some? {
      FromAnyPodIsTidy(s, asked.value, inputs);
    }
  }

  lemma FailingIsTidy(s: Status, reason: string)
    requires Tidy(s)
    ensures Tidy(Failing(s, reason))
  {
  }

  lemma AttemptIsTidy(c: Config, cancelled: bool, s: Status, inputs: Inputs)
    requires |s.retriesStatus| < MAX_ATTEMPTS && Tidy(s)
    ensures Tidy(AttemptResult(c, cancelled, s, inputs))
  {
    if cancelled {
      FailingIsTidy(s, "TaskRunCancelled");
    } else if inputs.timedOut {
      FailingIsTidy(s, "TaskRunTimeout");
    } else if PodCheckFails(s.steps + s.sidecars, inputs.recovering) {
      FailingIsTidy(s, "TaskRunImagePullFailed");
    } else if inputs.preparation == Ready {
      ReconcileIsTidy(c, s, inputs);
      FailingIsTidy(ReconcileResult(c, s, inputs).status, "TaskRunResultLargerThanAllowedLimit");
    }
  }

  lemma FinishedIsTidy(c: Config, cancelled: bool, s: Status)
    requires Tidy(s)
    ensures Tidy(Finished(c, cancelled, s))
  {
  }

  lemma PassIsTidy(c: Config, cancelled: bool, s: Status, inputs: Inputs)
    requires |s.retriesStatus| < MAX_ATTEMPTS && Tidy(s)
    ensures Tidy(Decided(c, cancelled, s, inputs))
  {
    AttemptIsTidy(c, cancelled, Initialized(s), inputs);
    FinishedIsTidy(c, cancelled, PassEnding(c, cancelled, s, inputs).status);
  }

  ghost predicate TidyAt(ws: nat -> World, t: nat) {
    Tidy(ws(t).status)
  }

  ghost predicate TidyUntil(ws: nat -> World, t: nat) {
    forall u: nat :: u <= t ==> TidyAt(ws, u)
  }

  lemma StepStaysTidy(c: Config, ws: nat -> World, t: nat, e: Event)
    requires Step(c, ws, t, e) && TidyUntil(ws, t)
    ensures TidyAt(ws, t + 1)
  {
    assert TidyAt(ws, t);
    if e.Stored? {
      assert TidyAt(ws, e.read);
      PassIsTidy(c, ws(e.read).cancelled, ws(e.read).status, e.inputs);
    }
  }

  /** In every run no step and no result is ever reported twice. */
  lemma {:induction false} RunStaysTidy(c: Config, ws: nat -> World, es: nat -> Event, t: nat)
    requires Run(c, ws, es) && TidyAt(ws, 0)
    ensures TidyUntil(ws, t)
  {
    if t > 0 {
      RunStaysTidy(c, ws, es, t - 1);
      assert StepAt(c, ws, es, t - 1);
      StepStaysTidy(c, ws, t - 1, es(t - 1));
    }
  }

  // ----- A success -----

  predicate Succeeds(s: Status) {
    s.condition == Some(True("Succeeded")) && s.started
  }

  /** A stored pass that finds the pod over without a failure, and nothing wrong with its results: the TaskRun has
      succeeded, and has the last value of every result of the pod. */
  lemma SuccessIsStored(c: Config, ws: nat -> World, es: nat -> Event, t: nat, pod: Pod)
    requires Run(c, ws, es) && TidyAt(ws, 0) && es(t).Stored? && es(t).read <= t
    requires InRange(ws(es(t).read)) && !ws(es(t).read).cancelled
    requires Attends(c, ws(es(t).read).status, es(t).inputs, pod)
    requires PodOver(pod, es(t).inputs.resultsFromSidecar) && !PodFailed(pod)
    requires es(t).inputs.statusError != TooLarge && !es(t).inputs.resultsInvalid
    ensures Succeeds(ws(t + 1).status) && ws(t + 1).status.completed && ws(t + 1).status.podName == pod.name
    ensures forall k :: 0 <= k < |es(t).inputs.podResults| && LastOfName(es(t).inputs.podResults, k) ==>
              es(t).inputs.podResults[k] in ws(t + 1).status.results
  {
    var was, inputs := ws(es(t).read).status, es(t).inputs;
    assert StepAt(c, ws, es, t);
    RunStaysTidy(c, ws, es, t);
    assert TidyAt(ws, es(t).read);
    InitializedShape(was);
    PodSucceeds(c, was, inputs, pod);
    ResultsReported(Initialized(was), pod, inputs);
  }

  // The statuses say the same, but for the sidecars.
  predicate SameReport(s: Status, s': Status) {
    s' == s.(sidecars := s'.sidecars)
  }

  lemma SuccessIsLeftAlone(c: Config, cancelled: bool, s: Status, inputs: Inputs)
    requires |s.retriesStatus| < MAX_ATTEMPTS && Succeeds(s) && inputs.stop != StopFailed
    ensures SameReport(s, Decided(c, cancelled, s, inputs))
  {
    DoneStays(c, cancelled, s, inputs);
  }

  // Stored passes from time t on read the TaskRun as it was at t or later, and can stop its sidecars.
  ghost predicate Undisturbed(es: nat -> Event, t: nat, v: nat) {
    t <= v && es(v).Stored? ==> t <= es(v).read && es(v).inputs.stop != StopFailed
  }

  ghost predicate SameAt(ws: nat -> World, t: nat, v: nat) {
    SameReport(ws(t).status, ws(v).status)
  }

  lemma SuccessStep(c: Config, ws: nat -> World, es: nat -> Event, t: nat, u: nat)
    requires Run(c, ws, es) && t <= u && Succeeds(ws(t).status) && Undisturbed(es, t, u)
    requires forall v: nat :: t <= v <= u ==> SameAt(ws, t, v)
    ensures SameAt(ws, t, u + 1)
  {
    assert StepAt(c, ws, es, u) && SameAt(ws, t, u);
    if es(u).Stored? {
      assert SameAt(ws, t, es(u).read);
      SuccessIsLeftAlone(c, ws(es(u).read).cancelled, ws(es(u).read).status, es(u).inputs);
    }
  }

  /** A success is final: as long as no pass works on an older reading or fails to stop the sidecars, condition, pod,
      results and steps never change again, not even by a cancellation. */
  lemma {:induction false} SuccessIsFinal(c: Config, ws: nat -> World, es: nat -> Event, t: nat, u: nat)
    requires Run(c, ws, es) && t <= u && Succeeds(ws(t).status) && forall v: nat :: Undisturbed(es, t, v)
    ensures forall v: nat :: t <= v <= u ==> SameAt(ws, t, v)
    decreases u
  {
    if t < u {
      SuccessIsFinal(c, ws, es, t, u - 1);
      assert Undisturbed(es, t, u - 1);
      SuccessStep(c, ws, es, t, u - 1);
    }
  }
}
