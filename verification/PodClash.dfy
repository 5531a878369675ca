/** Exactly when the attempts of a TaskRun can still come to share a pod. */
module PodClash {
  import opened Wrappers
  import opened PodStatus
  import opened PodNames
  import opened Reconciler
  import opened Retries
  import opened StaleStore
  import opened AttemptPods

  // ----- A TaskRun that can go on -----

  // No container waits for an image that cannot be pulled.
  predicate Unstuck(s: Status) {
    NoPullFails(s.steps) && NoPullFails(s.sidecars)
  }

  predicate Going(w: World) {
    !w.cancelled && !IsDone(w.status) && Unstuck(w.status)
  }

  ghost predicate GoesOn(c: Config, w: World) {
    Going(w) && |w.status.retriesStatus| <= c.retries < MAX_ATTEMPTS - 1 && Balanced(w.cluster)
  }

  lemma UnstuckPasses(s: Status, recovering: bool)
    requires Unstuck(s)
    ensures !PodCheckFails(s.steps + s.sidecars, recovering)
  {
    SkipSteps(s.steps, s.sidecars, recovering);
    SkipSteps(s.sidecars, [], recovering);
    assert s.sidecars + [] == s.sidecars;
  }

  // ----- Answers that make it go on -----

  // The attempt runs out of time.
  const TIME_OUT := Answers(Missing, [], QuotaConflict).(timedOut := true)

  lemma TimeoutStep(c: Config, w: World) returns (w': World)
    requires GoesOn(c, w) && |w.status.retriesStatus| < c.retries
    ensures PassStep(c, w, TIME_OUT, w') && GoesOn(c, w') && w'.cluster == w.cluster && w'.status.podName == ""
    ensures |w'.status.retriesStatus| == |w.status.retriesStatus| + 1
    ensures w.status.retriesStatus <= w'.status.retriesStatus
    ensures w'.status.retriesStatus[|w.status.retriesStatus|].podName == w.status.podName
  {
    var s := Initialized(w.status);
    InitializedShape(w.status);
    w' := w.(status := Decided(c, false, w.status, TIME_OUT));
    TerminatedPull(s.steps, "TaskRunTimeout");
    assert w'.status == Retried(Failing(s, "TaskRunTimeout"));
  }

  lemma FromRunning(s: Status, name: string, inputs: Inputs)
    requires !IsDone(s) && Unstuck(s)
    ensures var now := FromPod(s, PodIn(PodRunning, name), inputs);
      !IsDone(now) && Unstuck(now) && now.podName == name && now.retriesStatus == s.retriesStatus
  {
    var pod := PodIn(PodRunning, name);
    assert pod.statuses == [] && !Complete(pod, inputs.resultsFromSidecar);
  }

  lemma AdoptStep(c: Config, w: World, x: string) returns (w': World)
    requires GoesOn(c, w) && w.status.podName == "" && x in w.cluster.made && !IsPodArchived(x, w.status)
    ensures PassStep(c, w, PodListed(x), w') && GoesOn(c, w') && w'.cluster == w.cluster
    ensures w'.status.retriesStatus == w.status.retriesStatus && w'.status.podName == x
  {
    var s, inputs := Initialized(w.status), PodListed(x);
    InitializedShape(w.status);
    UnstuckPasses(s, false);
    var listed := inputs.listing.value;
    assert Adoptable(listed[0], s) && listed[0].pod == PodIn(PodRunning, x);
    assert FoundPod(s, inputs) == Have(PodIn(PodRunning, x));
    FromRunning(s, x, inputs);
    w' := w.(status := Decided(c, false, w.status, inputs));
    assert w'.status == FromPod(s, PodIn(PodRunning, x), inputs);
  }

  // The pod is asked for, and answered as the cluster must.
  function Asked(c: Config, w: World): Inputs
    requires |w.status.retriesStatus| < MAX_ATTEMPTS
  {
    PodAsked(if OwnName(c, w.status) in w.cluster.live then Exists(Some(RUNNING_POD)) else Created(RUNNING_POD))
  }

  lemma AskStep(c: Config, w: World) returns (w': World)
    requires GoesOn(c, w)
    ensures PassStep(c, w, Asked(c, w), w')
    ensures w'.status.retriesStatus == w.status.retriesStatus && w'.status.podName == OwnName(c, w.status)
  {
    var s, inputs := Initialized(w.status), Asked(c, w);
    InitializedShape(w.status);
    UnstuckPasses(s, false);
    assert FoundPod(s, inputs) == NoPod;
    var pod := PodIn(PodRunning, OwnName(c, w.status));
    assert AskedPod(inputs.creation, OwnName(c, w.status)) == Some(pod);
    FromRunning(s, pod.name, inputs);
    w' := World(Decided(c, false, w.status, inputs), ClusterAfter(c, false, w.status, inputs, w.cluster), false);
    assert w'.status == FromPod(s, pod, inputs);
    assert OwnName(c, w.status) in w.cluster.live ==> w.cluster.made[OwnName(c, w.status)] > 0;
  }

  // ----- Leading to a clash -----

  lemma Prepend(c: Config, w: World, inputs: Inputs, w': World, path: seq<World>, answers: seq<Inputs>)
    requires PassStep(c, w, inputs, w') && LeadsToClash(c, w', path, answers)
    ensures LeadsToClash(c, w, [w] + path, [inputs] + answers)
  {
    var path', answers' := [w] + path, [inputs] + answers;
    forall k | 0 <= k < |answers'|
      ensures PassStep(c, path'[k], answers'[k], path'[k + 1])
    {
      if k > 0 {
        assert path'[k] == path[k - 1] && path'[k + 1] == path[k] && answers'[k] == answers[k - 1];
      }
    }
  }

  // An archived attempt has the pod of an attempt that is still to come: let attempts run out of time until it comes.
  lemma {:induction false} ArchivedLater(c: Config, w: World, j: nat) returns (path: seq<World>, answers: seq<Inputs>)
    requires GoesOn(c, w) && |w.status.retriesStatus| <= j <= c.retries
    requires IsPodArchived(PodName(c.md5, c.name, j), w.status)
    ensures LeadsToClash(c, w, path, answers)
    decreases j - |w.status.retriesStatus|
  {
    if |w.status.retriesStatus| == j {
      var w' := AskStep(c, w);
      PodNameNonEmpty(c.md5, c.name, j);
      path, answers := [w, w'], [Asked(c, w)];
      assert !Apart(w'.status);
    } else {
      var w' := TimeoutStep(c, w);
      ArchivedStays(PodName(c.md5, c.name, j), w.status, w'.status);
      path, answers := ArchivedLater(c, w', j);
      Prepend(c, w, TIME_OUT, w', path, answers);
      path, answers := [w] + path, [TIME_OUT] + answers;
    }
  }

  lemma ArchivedStays(x: string, s: Status, s': Status)
    requires IsPodArchived(x, s) && s.retriesStatus <= s'.retriesStatus
    ensures IsPodArchived(x, s')
  {
    var i :| 0 <= i < |s.retriesStatus| && s.retriesStatus[i].podName == x;
    assert s'.retriesStatus[i] == s.retriesStatus[i];
  }

  // The attempt itself has the pod of a later one: let it run out of time.
  lemma HeldLater(c: Config, w: World, j: nat) returns (path: seq<World>, answers: seq<Inputs>)
    requires GoesOn(c, w) && |w.status.retriesStatus| < j <= c.retries && w.status.podName == PodName(c.md5, c.name, j)
    ensures LeadsToClash(c, w, path, answers)
  {
    var w' := TimeoutStep(c, w);
    assert w'.status.retriesStatus[|w.status.retriesStatus|] in w'.status.retriesStatus;
    path, answers := ArchivedLater(c, w', j);
    Prepend(c, w, TIME_OUT, w', path, answers);
    path, answers := [w] + path, [TIME_OUT] + answers;
  }

  // An attempt without a pod finds the pod of a later one listed.
  lemma ListedLater(c: Config, w: World, j: nat) returns (path: seq<World>, answers: seq<Inputs>)
    requires GoesOn(c, w) && |w.status.retriesStatus| < j <= c.retries && w.status.podName == ""
    requires PodName(c.md5, c.name, j) in w.cluster.made
    ensures LeadsToClash(c, w, path, answers)
  {
    var x := PodName(c.md5, c.name, j);
    if IsPodArchived(x, w.status) {
      path, answers := ArchivedLater(c, w, j);
    } else {
      var w' := AdoptStep(c, w, x);
      path, answers := HeldLater(c, w', j);
      Prepend(c, w, PodListed(x), w', path, answers);
      path, answers := [w] + path, [PodListed(x)] + answers;
    }
  }

  // The pod of an attempt after the next has been made.
  lemma MadeLater(c: Config, w: World, j: nat) returns (path: seq<World>, answers: seq<Inputs>)
    requires GoesOn(c, w) && NextAdopter(w.status) < j <= c.retries && PodName(c.md5, c.name, j) in w.cluster.made
    ensures LeadsToClash(c, w, path, answers)
  {
    if w.status.podName == "" {
      path, answers := ListedLater(c, w, j);
    } else {
      var w' := TimeoutStep(c, w);
      path, answers := ListedLater(c, w', j);
      Prepend(c, w, TIME_OUT, w', path, answers);
      path, answers := [w] + path, [TIME_OUT] + answers;
    }
  }

  // A name made for the TaskRun that is not one of the first n is that of a later attempt.
  lemma WhichAttempt(c: Config, x: string, n: nat) returns (j: nat)
    requires NamedBefore(c, x, c.retries + 1) && !NamedBefore(c, x, n) && c.retries < MAX_ATTEMPTS - 1
    ensures n <= j <= c.retries && x == PodName(c.md5, c.name, j)
  {
    j :| j < c.retries + 1 && j < MAX_ATTEMPTS && x == PodName(c.md5, c.name, j);
  }

  lemma DisorderClashes(c: Config, w: World) returns (path: seq<World>, answers: seq<Inputs>)
    requires Sound(c, w) && Going(w) && !InOrder(c, w)
    ensures LeadsToClash(c, w, path, answers)
  {
    var s, n := w.status, |w.status.retriesStatus|;
    if !Apart(s) {
      path, answers := [w], [];
    } else if r :| r in s.retriesStatus && r.podName != "" && !NamedBefore(c, r.podName, n) {
      var j := WhichAttempt(c, r.podName, n);
      path, answers := ArchivedLater(c, w, j);
    } else if s.podName != "" && !NamedBefore(c, s.podName, n + 1) {
      var j := WhichAttempt(c, s.podName, n + 1);
      path, answers := HeldLater(c, w, j);
    } else {
      var x :| x in w.cluster.made && !NamedBefore(c, x, NextAdopter(s) + 1);
      var j := WhichAttempt(c, x, NextAdopter(s) + 1);
      path, answers := MadeLater(c, w, j);
    }
  }

  /** Of a TaskRun that can go on: whatever the cluster answers from here on, no two attempts ever share a pod, if and
      only if the pods used so far are in order and no pod has been made for an attempt later than the next that could
      take a listed pod over. */
  lemma ClashFreeIff(c: Config, w: World)
    requires Sound(c, w) && Going(w)
    ensures ClashFree(c, w) <==> InOrder(c, w)
  {
    if InOrder(c, w) {
      forall path, answers
        ensures !LeadsToClash(c, w, path, answers)
      {
        if Path(c, path, answers) && path[0] == w {
          PathStaysInOrder(c, path, answers, |path| - 1);
        }
      }
    } else {
      var path, answers := DisorderClashes(c, w);
      assert LeadsToClash(c, w, path, answers);
    }
  }

  // ----- Continuations of runs -----

  function Continued(ws: nat -> World, t: nat, path: seq<World>): nat -> World
    requires path != []
  {
    (u: nat) => if u <= t then ws(u) else if u - t < |path| then path[u - t] else path[|path| - 1]
  }

  function ContinuedBy(es: nat -> Event, t: nat, answers: seq<Inputs>): nat -> Event {
    (u: nat) => if u < t then es(u) else if u - t < |answers| then Stored(u, answers[u - t]) else Idle
  }

  /** Such a continuation of a run is a run: the passes that lead to a clash can follow any history. */
  lemma ContinuationIsRun(c: Config, ws: nat -> World, es: nat -> Event, t: nat, path: seq<World>, answers: seq<Inputs>)
    requires Run(c, ws, es) && Path(c, path, answers) && path[0] == ws(t)
    ensures Run(c, Continued(ws, t, path), ContinuedBy(es, t, answers))
    ensures Continued(ws, t, path)(t + |path| - 1) == path[|path| - 1]
  {
    var ws', es' := Continued(ws, t, path), ContinuedBy(es, t, answers);
    forall u: nat
      ensures StepAt(c, ws', es', u)
    {
      if u < t {
        assert StepAt(c, ws, es, u);
        EarlierStep(c, ws, ws', t, u, es(u));
      } else if u - t < |answers| {
        assert ws'(u) == path[u - t] && ws'(u + 1) == path[u - t + 1];
        assert PassStep(c, path[u - t], answers[u - t], path[u - t + 1]);
      }
    }
  }

  lemma EarlierStep(c: Config, ws: nat -> World, ws': nat -> World, t: nat, u: nat, e: Event)
    requires u < t && Step(c, ws, u, e) && forall v: nat :: v <= t ==> ws'(v) == ws(v)
    ensures Step(c, ws', u, e)
  {
  }

  /** At any time of any run of a TaskRun that can go on: some continuation of the run makes two attempts share a pod if
      and only if the pods are not in order then. */
  lemma SharingIff(c: Config, ws: nat -> World, es: nat -> Event, t: nat)
    requires Run(c, ws, es) && Going(ws(t))
    ensures InOrder(c, ws(t)) ==> ClashFree(c, ws(t))
    ensures !InOrder(c, ws(t)) ==>
              exists path, answers, u: nat ::
                && LeadsToClash(c, ws(t), path, answers) && Run(c, Continued(ws, t, path), ContinuedBy(es, t, answers))
                && t <= u && !Apart(Continued(ws, t, path)(u).status)
  {
    RunKeepsSound(c, ws, es, t);
    assert SoundAt(c, ws, t, t);
    ClashFreeIff(c, ws(t));
    if !InOrder(c, ws(t)) {
      var path, answers := DisorderClashes(c, ws(t));
      ContinuationIsRun(c, ws, es, t, path, answers);
      var u: nat := t + |path| - 1;
      assert !Apart(Continued(ws, t, path)(u).status);
    }
  }
}
