/** Which attempts use which pods: when the attempts of a TaskRun keep their pods apart. */
module AttemptPods {
  import opened Wrappers
  import opened PodStatus
  import opened PodNames
  import opened Reconciler
  import opened Retries

  // No two attempts report the same pod.
  ghost predicate Apart(s: Status) {
    && (forall i, j :: 0 <= i < j < |s.retriesStatus| && s.retriesStatus[i].podName != "" ==>
          s.retriesStatus[i].podName != s.retriesStatus[j].podName)
    && (s.podName != "" ==> !IsPodArchived(s.podName, s))
  }

  // ... and every attempt's pod is its own or an earlier attempt's.
  ghost predicate Proper(c: Config, s: Status) {
    && Apart(s)
    && (forall r :: r in s.retriesStatus && r.podName != "" ==> NamedBefore(c, r.podName, |s.retriesStatus|))
    && (s.podName != "" ==> NamedBefore(c, s.podName, |s.retriesStatus| + 1))
  }

  // ----- One pass -----

  // The pass gets as far as the status of a pod it found.
  predicate Unhindered(inputs: Inputs) {
    !inputs.substitutionFails && !inputs.readyFails
  }

  // The listed pod that a pass over an attempt without one takes over.
  function Adopts(cancelled: bool, was: Status, inputs: Inputs): Option<string> {
    var s := Initialized(was);
    var found := FoundPod(s, inputs);
    if Reaches(cancelled, s, inputs) && s.podName == "" && found.Have? && Unhindered(inputs) then Some(found.pod.name)
    else None
  }

  // The pod taken over is a later attempt's.
  ghost predicate AdoptsLater(c: Config, seen: World, inputs: Inputs) {
    var pod := Adopts(seen.cancelled, seen.status, inputs);
    pod.Some? && pod.value != "" && !NamedBefore(c, pod.value, |seen.status.retriesStatus| + 1)
  }

  lemma FromAnyPodName(s: Status, pod: Pod, inputs: Inputs)
    ensures FromAnyPod(s, pod, inputs).status.podName == if inputs.readyFails then s.podName else pod.name
  {
  }

  lemma ReconcilePod(c: Config, s: Status, inputs: Inputs)
    requires |s.retriesStatus| < MAX_ATTEMPTS
    ensures var now, found := ReconcileResult(c, s, inputs).status, FoundPod(s, inputs);
      if s.podName == "" && found.Have? && Unhindered(inputs) then now.podName == found.pod.name
      else now.podName == s.podName || now.podName == OwnName(c, s)
  {
    match FoundPod(s, inputs)
    case SearchFailed =>
    case NoPod => AskingShape(c, s, inputs);
    case Have(pod) => FromAnyPodName(s, pod, inputs);
  }

  // A pass leaves an attempt with the pod it had, its own, or the one it adopts.
  lemma EndingPod(c: Config, cancelled: bool, was: Status, inputs: Inputs)
    requires |was.retriesStatus| < MAX_ATTEMPTS
    ensures var name, pod := PassEnding(c, cancelled, was, inputs).status.podName, Adopts(cancelled, was, inputs);
      if pod.Some? then name == pod.value else name == was.podName || name == OwnName(c, was)
  {
    var s := Initialized(was);
    InitializedShape(was);
    if !IsDone(s) {
      if Reaches(cancelled, s, inputs) {
        ReconcilePod(c, s, inputs);
        FailingShape(ReconcileResult(c, s, inputs).status, "TaskRunResultLargerThanAllowedLimit");
      } else {
        UnreachedShape(c, cancelled, s, inputs);
      }
    }
  }

  lemma AdoptedIsFree(cancelled: bool, was: Status, inputs: Inputs)
    requires Adopts(cancelled, was, inputs).Some?
    ensures was.podName == "" && !IsPodArchived(Adopts(cancelled, was, inputs).value, was)
  {
    var s := Initialized(was);
    InitializedShape(was);
    LastAdoptableFound(inputs.listing.value, s);
  }

  // The pod of attempt n was used by no attempt before it.
  lemma OwnPodIsFresh(c: Config, s: Status)
    requires Proper(c, s) && |s.retriesStatus| < MAX_ATTEMPTS
    ensures !IsPodArchived(OwnName(c, s), s) && NamedBefore(c, OwnName(c, s), |s.retriesStatus| + 1)
  {
    var n, own := |s.retriesStatus|, OwnName(c, s);
    if IsPodArchived(own, s) {
      var r :| r in s.retriesStatus && r.podName == own;
      PodNameNonEmpty(c.md5, c.name, n);
      var j: nat :| j < n && j < MAX_ATTEMPTS && own == PodName(c.md5, c.name, j);
      PodNameInjective(c.md5, c.name, j, n);
    }
  }

  lemma LastIsProperIff(c: Config, seen: World, inputs: Inputs, w: World, cl: Cluster)
    requires Proper(c, seen.status) && Pass(c, seen, inputs, w, cl)
    ensures Proper(c, PassEnding(c, seen.cancelled, seen.status, inputs).status) <==> !AdoptsLater(c, seen, inputs)
  {
    PassProgresses(c, seen.cancelled, seen.status, inputs, w.cluster);
    EndingPod(c, seen.cancelled, seen.status, inputs);
    OwnPodIsFresh(c, seen.status);
    var pod := Adopts(seen.cancelled, seen.status, inputs);
    if pod.Some? {
      AdoptedIsFree(seen.cancelled, seen.status, inputs);
    }
  }

  lemma RetriedIsProperIff(c: Config, s: Status)
    requires Apart(s)
    requires forall r :: r in s.retriesStatus && r.podName != "" ==> NamedBefore(c, r.podName, |s.retriesStatus|)
    ensures Proper(c, Retried(s)) <==> Proper(c, s)
  {
    var rs, rs' := s.retriesStatus, Retried(s).retriesStatus;
    assert rs'[|rs|] == Archived(s) && rs'[|rs|] in rs';
    if Proper(c, s) {
      forall r | r in rs' && r.podName != ""
        ensures NamedBefore(c, r.podName, |rs'|)
      {
        if r in rs {
          NamedLater(c, r.podName, |rs|, |rs'|);
        }
      }
      forall i, j | 0 <= i < j < |rs'| && rs'[i].podName != ""
        ensures rs'[i].podName != rs'[j].podName
      {
        assert rs[i] in rs;
      }
    }
  }

  /** A pass over a proper status decides on a proper one if and only if it does not take over a later attempt's pod. */
  lemma PassKeepsProperIff(c: Config, seen: World, inputs: Inputs, w: World, cl: Cluster)
    requires Proper(c, seen.status) && Pass(c, seen, inputs, w, cl)
    ensures Proper(c, Decided(c, seen.cancelled, seen.status, inputs)) <==> !AdoptsLater(c, seen, inputs)
  {
    PassMovesOrArchives(c, seen.cancelled, seen.status, inputs, w.cluster);
    LastIsProperIff(c, seen, inputs, w, cl);
    LastIsApart(c, seen, inputs, w, cl);
    RetriedIsProperIff(c, PassEnding(c, seen.cancelled, seen.status, inputs).status);
  }

  lemma LastIsApart(c: Config, seen: World, inputs: Inputs, w: World, cl: Cluster)
    requires Proper(c, seen.status) && Pass(c, seen, inputs, w, cl)
    ensures Apart(PassEnding(c, seen.cancelled, seen.status, inputs).status)
  {
    PassProgresses(c, seen.cancelled, seen.status, inputs, w.cluster);
    OwnPodIsFresh(c, seen.status);
  }

  // ----- Whole runs -----

  ghost predicate ModestAt(c: Config, ws: nat -> World, e: Event) {
    e.Stored? ==> !AdoptsLater(c, ws(e.read), e.inputs)
  }

  ghost predicate ProperAt(c: Config, ws: nat -> World, t: nat) {
    Proper(c, ws(t).status)
  }

  // No stored pass takes over the pod of a later attempt.
  ghost predicate Modest(c: Config, ws: nat -> World, es: nat -> Event) {
    forall t: nat :: ModestAt(c, ws, es(t))
  }

  ghost predicate ProperUntil(c: Config, ws: nat -> World, t: nat) {
    forall u: nat :: u <= t ==> ProperAt(c, ws, u)
  }

  lemma StepKeepsProperIff(c: Config, ws: nat -> World, t: nat, e: Event)
    requires Step(c, ws, t, e) && ProperUntil(c, ws, t)
    ensures ProperAt(c, ws, t + 1) <==> ModestAt(c, ws, e)
  {
    assert ProperAt(c, ws, t);
    if e.Stored? {
      assert ProperAt(c, ws, e.read);
      PassKeepsProperIff(c, ws(e.read), e.inputs, ws(t), ws(t + 1).cluster);
    }
  }

  lemma {:induction false} ModestRunIsProper(c: Config, ws: nat -> World, es: nat -> Event, t: nat)
    requires Run(c, ws, es) && Modest(c, ws, es)
    ensures ProperUntil(c, ws, t)
  {
    if t > 0 {
      ModestRunIsProper(c, ws, es, t - 1);
      assert StepAt(c, ws, es, t - 1) && ModestAt(c, ws, es(t - 1));
      StepKeepsProperIff(c, ws, t - 1, es(t - 1));
    }
  }

  /** In every run, however stale the statuses it stores, every attempt has its own pod or an earlier attempt's, and no
      two the same, at all times, if and only if no stored pass takes over the pod of a later attempt. */
  lemma RunIsProperIff(c: Config, ws: nat -> World, es: nat -> Event)
    requires Run(c, ws, es)
    ensures (forall t: nat :: ProperAt(c, ws, t)) <==> Modest(c, ws, es)
  {
    if Modest(c, ws, es) {
      forall t: nat
        ensures ProperAt(c, ws, t)
      {
        ModestRunIsProper(c, ws, es, t);
      }
    }
    if forall t: nat :: ProperAt(c, ws, t) {
      forall t: nat
        ensures ModestAt(c, ws, es(t))
      {
        assert StepAt(c, ws, es, t) && ProperAt(c, ws, t + 1);
        StepKeepsProperIff(c, ws, t, es(t));
      }
    }
  }

  // In a timely run there is no later attempt's pod to take over.
  lemma TimelyIsModest(c: Config, ws: nat -> World, es: nat -> Event)
    requires Run(c, ws, es) && Timely(ws, es)
    ensures Modest(c, ws, es)
  {
    forall t: nat
      ensures ModestAt(c, ws, es(t))
    {
      TimelyRunsKeepOrder(c, ws, es, t);
      assert StepAt(c, ws, es, t) && TimelyAt(ws, t, es(t)) && OrderlyAt(c, ws, t, t);
      if es(t).Stored? {
        AdoptedIsMade(c, ws(es(t).read), es(t).inputs, ws(t), ws(t + 1).cluster);
      }
    }
  }

  lemma AdoptedIsMade(c: Config, seen: World, inputs: Inputs, w: World, cl: Cluster)
    requires Pass(c, seen, inputs, w, cl)
    ensures var pod := Adopts(seen.cancelled, seen.status, inputs); pod.Some? ==> pod.value in w.cluster.made
  {
    if Adopts(seen.cancelled, seen.status, inputs).Some? {
      LastAdoptableFound(inputs.listing.value, Initialized(seen.status));
    }
  }

  /** In particular no two attempts report the same pod while statuses are stored only over the attempt they were
      read from. */
  lemma AttemptsHaveTheirOwnPods(c: Config, ws: nat -> World, es: nat -> Event, t: nat)
    requires Run(c, ws, es) && (Timely(ws, es) || Modest(c, ws, es))
    ensures Apart(ws(t).status)
  {
    if Timely(ws, es) {
      TimelyIsModest(c, ws, es);
    }
    ModestRunIsProper(c, ws, es, t);
    assert ProperAt(c, ws, t);
  }

  // ----- Continuations -----

  // A pass that reads the TaskRun as it stands, and is stored.
  ghost predicate PassStep(c: Config, w: World, inputs: Inputs, w': World) {
    && Pass(c, w, inputs, w, w'.cluster) && w'.cancelled == w.cancelled
    && w'.status == Decided(c, w.cancelled, w.status, inputs)
  }

  ghost predicate Path(c: Config, path: seq<World>, answers: seq<Inputs>) {
    && |path| == |answers| + 1
    && forall k :: 0 <= k < |answers| ==> PassStep(c, path[k], answers[k], path[k + 1])
  }

  ghost predicate LeadsToClash(c: Config, w: World, path: seq<World>, answers: seq<Inputs>) {
    Path(c, path, answers) && path[0] == w && !Apart(path[|path| - 1].status)
  }

  // However the cluster answers from here on, no two attempts come to share a pod.
  ghost predicate ClashFree(c: Config, w: World) {
    forall path, answers :: !LeadsToClash(c, w, path, answers)
  }

  // The first attempt from now on that could still take over a listed pod.
  function NextAdopter(s: Status): nat {
    |s.retriesStatus| + if s.podName == "" then 0 else 1
  }

  // Pods are in order, and no pod has been made for an attempt later than the next to take one over.
  ghost predicate InOrder(c: Config, w: World) {
    Proper(c, w.status) && forall x :: x in w.cluster.made ==> NamedBefore(c, x, NextAdopter(w.status) + 1)
  }

  lemma PassKeepsInOrder(c: Config, w: World, inputs: Inputs, w': World)
    requires InOrder(c, w) && PassStep(c, w, inputs, w')
    ensures InOrder(c, w')
  {
    AdoptedIsMade(c, w, inputs, w, w'.cluster);
    PassKeepsProperIff(c, w, inputs, w, w'.cluster);
    PassMovesOrArchives(c, w.cancelled, w.status, inputs, w.cluster);
    PassNames(c, w, inputs, w, w'.cluster, NextAdopter(w.status));
    AdopterMovesOn(c, w, inputs, w');
    forall x | x in w'.cluster.made
      ensures NamedBefore(c, x, NextAdopter(w'.status) + 1)
    {
      NamedLater(c, x, NextAdopter(w.status) + 1, NextAdopter(w'.status) + 1);
    }
  }

  lemma AdopterMovesOn(c: Config, w: World, inputs: Inputs, w': World)
    requires PassStep(c, w, inputs, w')
    ensures NextAdopter(w.status) <= NextAdopter(w'.status)
  {
    PassMovesOrArchives(c, w.cancelled, w.status, inputs, w.cluster);
    EndingPod(c, w.cancelled, w.status, inputs);
    PodNameNonEmpty(c.md5, c.name, |w.status.retriesStatus|);
    if Adopts(w.cancelled, w.status, inputs).Some? {
      AdoptedIsFree(w.cancelled, w.status, inputs);
    }
  }

  lemma {:induction false} PathStaysInOrder(c: Config, path: seq<World>, answers: seq<Inputs>, k: nat)
    requires Path(c, path, answers) && InOrder(c, path[0]) && k < |path|
    ensures InOrder(c, path[k])
  {
    if k > 0 {
      var n := k - 1;
      PathStaysInOrder(c, path, answers, n);
      assert PassStep(c, path[n], answers[n], path[n + 1]);
      PassKeepsInOrder(c, path[n], answers[n], path[k]);
    }
  }
}
