/** Whole runs of a TaskRun: passes that are stored, passes whose write is lost, cancellation, and pods going away. */
module Retries {
  import opened PodStatus
  import opened PodNames
  import opened Reconciler

  // The TaskRun as stored, and the pods made on its behalf.
  datatype World = World(status: Status, cluster: Cluster, cancelled: bool)

  // A pass reads the TaskRun as it stood at time read, from a cache that may be any amount behind.
  // Stored: its status replaces the stored one, whichever that is. Lost: only its effect on the cluster remains.
  // Deleted: a pod goes away, be it by the controller, a user or an eviction.
  datatype Event =
    | Stored(read: nat, inputs: Inputs)
    | Lost(read: nat, inputs: Inputs)
    | Cancel
    | Deleted(pod: string)
    | Idle

  ghost predicate Initial(w: World) {
    && w.cluster == Cluster(multiset{}, multiset{}, {})
    && w.status.podName == "" && w.status.retriesStatus == [] && !IsDone(w.status)
  }

  predicate InRange(w: World) {
    |w.status.retriesStatus| < MAX_ATTEMPTS
  }

  // A pass that read seen, in the cluster of w.
  ghost predicate Pass(c: Config, seen: World, inputs: Inputs, w: World, cl: Cluster) {
    && InRange(seen) && Truthful(c, seen.status, inputs, w.cluster)
    && cl == ClusterAfter(c, seen.cancelled, seen.status, inputs, w.cluster)
  }

  function Without(cl: Cluster, pod: string): Cluster {
    cl.(deleted := cl.deleted + multiset{pod}, live := cl.live - {pod})
  }

  ghost predicate Step(c: Config, ws: nat -> World, t: nat, e: Event) {
    var w, w' := ws(t), ws(t + 1);
    match e
    case Stored(read, inputs) =>
      && read <= t && Pass(c, ws(read), inputs, w, w'.cluster) && w'.cancelled == w.cancelled
      && w'.status == Decided(c, ws(read).cancelled, ws(read).status, inputs)
    case Lost(read, inputs) =>
      read <= t && Pass(c, ws(read), inputs, w, w'.cluster) && w' == w.(cluster := w'.cluster)
    case Cancel => w' == w.(cancelled := true)
    case Deleted(pod) =>
      && pod in w.cluster.live
      && w' == w.(cluster := Without(w.cluster, pod))
    case Idle => w' == w
  }

  ghost predicate StepAt(c: Config, ws: nat -> World, es: nat -> Event, t: nat) {
    Step(c, ws, t, es(t))
  }

  ghost predicate Run(c: Config, ws: nat -> World, es: nat -> Event) {
    c.retries < MAX_ATTEMPTS - 1 && Initial(ws(0)) && forall t: nat :: StepAt(c, ws, es, t)
  }

  // ----- What every run keeps, however stale the statuses it stores -----

  // x names the pod of an attempt before attempt n.
  ghost predicate NamedBefore(c: Config, x: string, n: nat) {
    exists j: nat :: j < n && j < MAX_ATTEMPTS && x == PodName(c.md5, c.name, j)
  }

  // Of every name: what was made is gone or there, and at most one is there.
  ghost predicate Balanced(cl: Cluster) {
    forall x :: cl.made[x] == cl.deleted[x] + if x in cl.live then 1 else 0
  }

  ghost predicate Sound(c: Config, w: World) {
    && |w.status.retriesStatus| <= c.retries < MAX_ATTEMPTS - 1
    && (forall r :: r in w.status.retriesStatus ==> r.retriesStatus == [] && HasFailed(r))
    && (forall r :: r in w.status.retriesStatus && r.podName != "" ==> r.podName in w.cluster.made)
    && (w.status.podName != "" ==> w.status.podName in w.cluster.made)
    && (forall x :: x in w.cluster.made ==> NamedBefore(c, x, c.retries + 1))
    && (HasFailed(w.status) ==> w.cancelled || |w.status.retriesStatus| == c.retries)
    && Balanced(w.cluster)
  }

  ghost predicate Grown(w: World, w': World) {
    (forall x :: x in w.cluster.made ==> x in w'.cluster.made) && (w.cancelled ==> w'.cancelled)
  }

  ghost predicate SoundAt(c: Config, ws: nat -> World, u: nat, t: nat) {
    Sound(c, ws(u)) && Grown(ws(u), ws(t))
  }

  ghost predicate SoundSoFar(c: Config, ws: nat -> World, t: nat) {
    forall u: nat :: u <= t ==> SoundAt(c, ws, u, t)
  }

  lemma PassKeepsCluster(c: Config, seen: World, inputs: Inputs, w: World, cl: Cluster)
    requires Sound(c, w) && |seen.status.retriesStatus| <= c.retries && Pass(c, seen, inputs, w, cl)
    ensures Balanced(cl) && (forall x :: x in w.cluster.made ==> x in cl.made)
    ensures forall x :: x in cl.made ==> NamedBefore(c, x, c.retries + 1)
  {
    PassProgresses(c, seen.cancelled, seen.status, inputs, w.cluster);
    assert NamedBefore(c, OwnName(c, seen.status), c.retries + 1);
  }

  lemma PassKeepsStatus(c: Config, seen: World, inputs: Inputs, w: World, cl: Cluster)
    requires Sound(c, seen) && Grown(seen, w) && Pass(c, seen, inputs, w, cl)
    ensures var s := Decided(c, seen.cancelled, seen.status, inputs);
      && |s.retriesStatus| <= c.retries
      && (forall r :: r in s.retriesStatus ==> r.retriesStatus == [] && HasFailed(r))
      && (forall r :: r in s.retriesStatus && r.podName != "" ==> r.podName in cl.made)
      && (s.podName != "" ==> s.podName in cl.made)
      && (HasFailed(s) ==> seen.cancelled || |s.retriesStatus| == c.retries)
  {
    PassMovesOrArchives(c, seen.cancelled, seen.status, inputs, w.cluster);
  }

  lemma StoredKeepsSound(c: Config, seen: World, inputs: Inputs, w: World, w': World)
    requires Sound(c, seen) && Sound(c, w) && Grown(seen, w) && Pass(c, seen, inputs, w, w'.cluster)
    requires w'.cancelled == w.cancelled && w'.status == Decided(c, seen.cancelled, seen.status, inputs)
    ensures Sound(c, w') && Grown(w, w')
  {
    PassKeepsCluster(c, seen, inputs, w, w'.cluster);
    PassKeepsStatus(c, seen, inputs, w, w'.cluster);
  }

  lemma LostKeepsSound(c: Config, seen: World, inputs: Inputs, w: World, w': World)
    requires Sound(c, seen) && Sound(c, w) && Pass(c, seen, inputs, w, w'.cluster) && w' == w.(cluster := w'.cluster)
    ensures Sound(c, w') && Grown(w, w')
  {
    PassKeepsCluster(c, seen, inputs, w, w'.cluster);
  }

  lemma DeletionKeepsSound(c: Config, w: World, pod: string)
    requires Sound(c, w) && pod in w.cluster.live
    ensures Sound(c, w.(cluster := Without(w.cluster, pod)))
  {
  }

  lemma StepKeepsSound(c: Config, ws: nat -> World, t: nat, e: Event)
    requires Step(c, ws, t, e) && SoundSoFar(c, ws, t)
    ensures Sound(c, ws(t + 1)) && Grown(ws(t), ws(t + 1))
  {
    assert SoundAt(c, ws, t, t);
    match e
    case Stored(read, inputs) =>
      assert SoundAt(c, ws, read, t);
      StoredKeepsSound(c, ws(read), inputs, ws(t), ws(t + 1));
    case Lost(read, inputs) =>
      assert SoundAt(c, ws, read, t);
      LostKeepsSound(c, ws(read), inputs, ws(t), ws(t + 1));
    case Cancel =>
    case Deleted(pod) => DeletionKeepsSound(c, ws(t), pod);
    case Idle =>
  }

  lemma SoundLonger(c: Config, ws: nat -> World, t: nat)
    requires SoundSoFar(c, ws, t) && Sound(c, ws(t + 1)) && Grown(ws(t), ws(t + 1))
    ensures SoundSoFar(c, ws, t + 1)
  {
    var next := t + 1;
    forall u: nat | u <= next
      ensures SoundAt(c, ws, u, next)
    {
      if u <= t {
        assert SoundAt(c, ws, u, t);
      }
    }
  }

  lemma InitialIsSound(c: Config, w: World)
    requires c.retries < MAX_ATTEMPTS - 1 && Initial(w)
    ensures Sound(c, w) && Orderly(c, w)
  {
  }

  lemma SoundNext(c: Config, ws: nat -> World, t: nat, e: Event)
    requires SoundSoFar(c, ws, t) && Step(c, ws, t, e)
    ensures SoundSoFar(c, ws, t + 1)
  {
    StepKeepsSound(c, ws, t, e);
    SoundLonger(c, ws, t);
  }

  lemma {:induction false} RunKeepsSound(c: Config, ws: nat -> World, es: nat -> Event, t: nat)
    requires Run(c, ws, es)
    ensures SoundSoFar(c, ws, t)
  {
    if t == 0 {
      StartsSound(c, ws);
    } else {
      RunKeepsSound(c, ws, es, t - 1);
      assert StepAt(c, ws, es, t - 1);
      SoundNext(c, ws, t - 1, es(t - 1));
    }
  }

  lemma StartsSound(c: Config, ws: nat -> World)
    requires c.retries < MAX_ATTEMPTS - 1 && Initial(ws(0))
    ensures SoundSoFar(c, ws, 0) && OrderlySoFar(c, ws, 0)
  {
    InitialIsSound(c, ws(0));
  }

  /** A stored failure means that no retry is owed: cancelled, or all retries used. */
  lemma FailureIsFinal(c: Config, ws: nat -> World, es: nat -> Event, t: nat)
    requires Run(c, ws, es) && HasFailed(ws(t).status)
    ensures ws(t).cancelled || |ws(t).status.retriesStatus| == c.retries
  {
    RunKeepsSound(c, ws, es, t);
    assert SoundAt(c, ws, t, t);
  }

  /** At most spec.retries attempts are archived, all of them failed and none with an archive of its own. */
  lemma AttemptsBounded(c: Config, ws: nat -> World, es: nat -> Event, t: nat)
    requires Run(c, ws, es)
    ensures |ws(t).status.retriesStatus| <= c.retries
    ensures forall r :: r in ws(t).status.retriesStatus ==> r.retriesStatus == [] && HasFailed(r)
  {
    RunKeepsSound(c, ws, es, t);
    assert SoundAt(c, ws, t, t);
  }

  // ----- How many pods -----

  function PodsBefore(c: Config, n: nat): set<string>
    requires n <= MAX_ATTEMPTS
  {
    if n == 0 then {} else PodsBefore(c, n - 1) + {PodName(c.md5, c.name, n - 1)}
  }

  lemma {:induction false} PodsBeforeHolds(c: Config, n: nat, j: nat)
    requires j < n <= MAX_ATTEMPTS
    ensures PodName(c.md5, c.name, j) in PodsBefore(c, n)
  {
    if j < n - 1 {
      PodsBeforeHolds(c, n - 1, j);
    }
  }

  lemma {:induction false} PodsBeforeCount(c: Config, n: nat)
    requires n <= MAX_ATTEMPTS
    ensures |PodsBefore(c, n)| <= n
  {
    if n > 0 {
      PodsBeforeCount(c, n - 1);
    }
  }

  lemma {:induction false} SubsetIsSmaller<T>(a: set<T>, b: set<T>)
    requires a <= b
    ensures |a| <= |b|
  {
    if a != {} {
      var x :| x in a;
      SubsetIsSmaller(a - {x}, b - {x});
    }
  }

  /** At any time at most one pod per attempt is there: every live pod bears the name of one attempt, no name is borne
      twice, and of every name as many pods were made as are gone or there. */
  lemma AtMostOneLivePodPerAttempt(c: Config, ws: nat -> World, es: nat -> Event, t: nat)
    requires Run(c, ws, es)
    ensures |ws(t).cluster.live| <= c.retries + 1
    ensures forall x :: x in ws(t).cluster.live ==> NamedBefore(c, x, c.retries + 1)
    ensures Balanced(ws(t).cluster)
  {
    RunKeepsSound(c, ws, es, t);
    assert SoundAt(c, ws, t, t);
    var cl, n := ws(t).cluster, c.retries + 1;
    forall x | x in cl.live
      ensures NamedBefore(c, x, n) && x in PodsBefore(c, n)
    {
      assert cl.made[x] > 0;
      var j: nat :| j < n && j < MAX_ATTEMPTS && x == PodName(c.md5, c.name, j);
      PodsBeforeHolds(c, n, j);
    }
    SubsetIsSmaller(cl.live, PodsBefore(c, n));
    PodsBeforeCount(c, n);
  }

  // Event e asks the API server for pod x.
  ghost predicate AsksFor(c: Config, ws: nat -> World, e: Event, x: string) {
    && (e.Stored? || e.Lost?) && InRange(ws(e.read))
    && var s := ws(e.read).status;
       Reaches(ws(e.read).cancelled, Initialized(s), e.inputs) && Asks(Initialized(s), e.inputs) && x == OwnName(c, s)
  }

  ghost predicate Makes(c: Config, ws: nat -> World, e: Event, x: string) {
    AsksFor(c, ws, e, x) && MakesPod(e.inputs.creation)
  }

  /** An attempt whose pod is asked for again gets another pod if and only if every earlier one of it is gone. */
  lemma MadeAgainIff(c: Config, ws: nat -> World, es: nat -> Event, t: nat, x: string)
    requires Run(c, ws, es) && AsksFor(c, ws, es(t), x)
    requires es(t).inputs.creation.Created? || es(t).inputs.creation.Exists?
    ensures Makes(c, ws, es(t), x) <==> ws(t).cluster.deleted[x] == ws(t).cluster.made[x]
  {
    RunKeepsSound(c, ws, es, t);
    assert SoundAt(c, ws, t, t) && StepAt(c, ws, es, t);
  }

  lemma MadeIsLive(c: Config, ws: nat -> World, es: nat -> Event, t: nat, x: string)
    requires Run(c, ws, es) && Makes(c, ws, es(t), x)
    ensures x !in ws(t).cluster.live && x in ws(t + 1).cluster.live
  {
    assert StepAt(c, ws, es, t);
  }

  lemma {:induction false} StaysLive(c: Config, ws: nat -> World, es: nat -> Event, t: nat, u: nat, x: string)
    requires Run(c, ws, es) && t <= u && x in ws(t).cluster.live
    requires forall v: nat :: t <= v < u ==> es(v) != Deleted(x)
    ensures x in ws(u).cluster.live
    decreases u
  {
    if t < u {
      StaysLive(c, ws, es, t, u - 1, x);
      assert StepAt(c, ws, es, u - 1) && es(u - 1) != Deleted(x);
    }
  }

  /** Between two pods of one attempt the first has gone away. */
  lemma SecondPodMeansDeletion(c: Config, ws: nat -> World, es: nat -> Event, t: nat, u: nat, x: string)
    requires Run(c, ws, es) && t < u && Makes(c, ws, es(t), x) && Makes(c, ws, es(u), x)
    ensures exists v: nat :: t < v < u && es(v) == Deleted(x)
  {
    MadeIsLive(c, ws, es, t, x);
    MadeIsLive(c, ws, es, u, x);
    if forall v: nat :: t + 1 <= v < u ==> es(v) != Deleted(x) {
      StaysLive(c, ws, es, t + 1, u, x);
    }
  }

  // ----- Runs that store only what was read within the current attempt -----

  predicate SameAttempt(seen: World, w: World) {
    |seen.status.retriesStatus| == |w.status.retriesStatus|
  }

  ghost predicate TimelyAt(ws: nat -> World, t: nat, e: Event) {
    e.Stored? ==> SameAttempt(ws(e.read), ws(t))
  }

  ghost predicate Timely(ws: nat -> World, es: nat -> Event) {
    forall t: nat :: TimelyAt(ws, t, es(t))
  }

  // No pod of a later attempt has been made.
  ghost predicate Orderly(c: Config, w: World) {
    forall x :: x in w.cluster.made ==> NamedBefore(c, x, |w.status.retriesStatus| + 1)
  }

  ghost predicate OrderlyAt(c: Config, ws: nat -> World, u: nat, t: nat) {
    Orderly(c, ws(u)) && ws(u).status.retriesStatus <= ws(t).status.retriesStatus
  }

  ghost predicate OrderlySoFar(c: Config, ws: nat -> World, t: nat) {
    forall u: nat :: u <= t ==> OrderlyAt(c, ws, u, t)
  }

  lemma NamedLater(c: Config, x: string, m: nat, n: nat)
    requires NamedBefore(c, x, m) && m <= n
    ensures NamedBefore(c, x, n)
  {
    var j: nat :| j < m && j < MAX_ATTEMPTS && x == PodName(c.md5, c.name, j);
    assert j < n;
  }

  lemma PassNames(c: Config, seen: World, inputs: Inputs, w: World, cl: Cluster, n: nat)
    requires Pass(c, seen, inputs, w, cl) && |seen.status.retriesStatus| <= n
    requires forall x :: x in w.cluster.made ==> NamedBefore(c, x, n + 1)
    ensures forall x :: x in cl.made ==> NamedBefore(c, x, n + 1)
  {
    PassProgresses(c, seen.cancelled, seen.status, inputs, w.cluster);
    assert NamedBefore(c, OwnName(c, seen.status), n + 1);
  }

  lemma StoredKeepsOrderly(c: Config, seen: World, inputs: Inputs, w: World, w': World)
    requires Orderly(c, w)
    requires seen.status.retriesStatus == w.status.retriesStatus && Pass(c, seen, inputs, w, w'.cluster)
    requires w'.status == Decided(c, seen.cancelled, seen.status, inputs)
    ensures Orderly(c, w') && w.status.retriesStatus <= w'.status.retriesStatus
  {
    var n, n' := |w.status.retriesStatus|, |w'.status.retriesStatus|;
    PassMovesOrArchives(c, seen.cancelled, seen.status, inputs, w.cluster);
    PassNames(c, seen, inputs, w, w'.cluster, n);
    forall x | x in w'.cluster.made
      ensures NamedBefore(c, x, n' + 1)
    {
      NamedLater(c, x, n + 1, n' + 1);
    }
  }

  lemma StepKeepsOrderly(c: Config, ws: nat -> World, t: nat, e: Event)
    requires Step(c, ws, t, e) && OrderlySoFar(c, ws, t)
    requires TimelyAt(ws, t, e)
    ensures Orderly(c, ws(t + 1)) && ws(t).status.retriesStatus <= ws(t + 1).status.retriesStatus
  {
    assert OrderlyAt(c, ws, t, t);
    match e
    case Stored(read, inputs) =>
      assert OrderlyAt(c, ws, read, t);
      StoredKeepsOrderly(c, ws(read), inputs, ws(t), ws(t + 1));
    case Lost(read, inputs) =>
      assert OrderlyAt(c, ws, read, t);
      PassNames(c, ws(read), inputs, ws(t), ws(t + 1).cluster, |ws(t).status.retriesStatus|);
    case Cancel =>
    case Deleted(pod) =>
    case Idle =>
  }

  lemma OrderlyLonger(c: Config, ws: nat -> World, t: nat)
    requires OrderlySoFar(c, ws, t) && Orderly(c, ws(t + 1))
    requires ws(t).status.retriesStatus <= ws(t + 1).status.retriesStatus
    ensures OrderlySoFar(c, ws, t + 1)
  {
    var next := t + 1;
    forall u: nat | u <= next
      ensures OrderlyAt(c, ws, u, next)
    {
      if u <= t {
        assert OrderlyAt(c, ws, u, t);
      }
    }
  }

  lemma OrderlyNext(c: Config, ws: nat -> World, t: nat, e: Event)
    requires Step(c, ws, t, e) && OrderlySoFar(c, ws, t) && TimelyAt(ws, t, e)
    ensures OrderlySoFar(c, ws, t + 1)
  {
    StepKeepsOrderly(c, ws, t, e);
    OrderlyLonger(c, ws, t);
  }

  /** While statuses are stored only over the attempt they were read from, the archive only grows and no pod of a later
      attempt is made, though lists are stale and writes are lost. */
  lemma {:induction false} TimelyRunsKeepOrder(c: Config, ws: nat -> World, es: nat -> Event, t: nat)
    requires Run(c, ws, es) && Timely(ws, es)
    ensures OrderlySoFar(c, ws, t)
  {
    if t == 0 {
      StartsSound(c, ws);
    } else {
      TimelyRunsKeepOrder(c, ws, es, t - 1);
      assert StepAt(c, ws, es, t - 1) && TimelyAt(ws, t - 1, es(t - 1));
      OrderlyNext(c, ws, t - 1, es(t - 1));
    }
  }

  /** In a timely run an archived attempt is never changed or dropped. */
  lemma ArchiveOnlyGrows(c: Config, ws: nat -> World, es: nat -> Event, u: nat, t: nat)
    requires Run(c, ws, es) && Timely(ws, es) && u <= t
    ensures ws(u).status.retriesStatus <= ws(t).status.retriesStatus
  {
    TimelyRunsKeepOrder(c, ws, es, t);
    assert OrderlyAt(c, ws, u, t);
  }

  // ----- Storing a status read in an earlier attempt -----

  // The pass archives the attempt it read, and just as it is archived already.
  ghost predicate ArchivesAgain(c: Config, seen: World, inputs: Inputs, w: World)
    requires InRange(seen)
  {
    var n, end := |seen.status.retriesStatus|, PassEnding(c, seen.cancelled, seen.status, inputs);
    && |w.status.retriesStatus| == n + 1 && end.Settled? && Retriable(c, seen.cancelled, end.status)
    && Archived(end.status) == w.status.retriesStatus[n]
  }

  /** Storing what a pass decided keeps the archive if and only if the pass read the current attempt, or the one before
      it and archives that one again just as it stands. Two attempts behind, it never does. */
  lemma StoringKeepsArchiveIff(c: Config, seen: World, inputs: Inputs, w: World, cl: Cluster)
    requires Pass(c, seen, inputs, w, cl) && seen.status.retriesStatus <= w.status.retriesStatus
    ensures w.status.retriesStatus <= Decided(c, seen.cancelled, seen.status, inputs).retriesStatus <==>
              SameAttempt(seen, w) || ArchivesAgain(c, seen, inputs, w)
  {
    PassProgresses(c, seen.cancelled, seen.status, inputs, w.cluster);
    var n, rs := |seen.status.retriesStatus|, w.status.retriesStatus;
    var end := PassEnding(c, seen.cancelled, seen.status, inputs);
    if |rs| == n + 1 {
      assert rs == seen.status.retriesStatus + [rs[n]];
    }
  }

  // ----- Retries without a pod -----

  /** A sidecar that cannot pull its image stays on the status through a retry, so that the next pass
      fails the next attempt at once: all remaining retries go without one pod being made. */
  method WaitingSidecarUsesUpRetries(tr: TaskRun, inputs: Inputs)
    requires tr.config.retries < MAX_ATTEMPTS && |tr.status.retriesStatus| <= tr.config.retries
    requires !tr.cancelled && !inputs.timedOut && Stuck(tr.status, inputs.recovering)
    modifies tr`status, tr`cluster
    ensures HasFailed(tr.status) && |tr.status.retriesStatus| == tr.config.retries
    ensures tr.cluster == old(tr.cluster)
    ensures PodlessAfter(|old(tr.status.retriesStatus)|, tr.status.retriesStatus)
  {
    ghost var n := |tr.status.retriesStatus|;
    while !HasFailed(tr.status)
      invariant n <= |tr.status.retriesStatus| <= tr.config.retries && tr.cluster == old(tr.cluster)
      invariant |tr.status.retriesStatus| > n && !HasFailed(tr.status) ==> tr.status.podName == ""
      invariant HasFailed(tr.status) ==> |tr.status.retriesStatus| == tr.config.retries
      invariant !HasFailed(tr.status) ==> Stuck(tr.status, inputs.recovering)
      invariant PodlessAfter(n, tr.status.retriesStatus)
      decreases tr.config.retries - |tr.status.retriesStatus|, !HasFailed(tr.status)
    {
      StuckFails(tr.config, tr.status, inputs);
      tr.ReconcileKind(inputs);
    }
  }

  // Every attempt after the first n + 1 had no pod.
  ghost predicate PodlessAfter(n: nat, retries: seq<Status>) {
    forall i :: n < i < |retries| ==> retries[i].podName == ""
  }

  // A sidecar, and no step, waits for an image that cannot be pulled.
  predicate Stuck(s: Status, recovering: bool) {
    !IsDone(s) && NoPullFails(s.steps) && PodCheckFails(s.sidecars, recovering)
  }

  // A pass over a stuck attempt fails it, without a pod; the next attempt is stuck again.
  lemma StuckFails(c: Config, s: Status, inputs: Inputs)
    requires |s.retriesStatus| < MAX_ATTEMPTS && !inputs.timedOut && Stuck(s, inputs.recovering)
    ensures var last, now := PassEnding(c, false, s, inputs).status, Decided(c, false, s, inputs);
      && HasFailed(last) && last.podName == s.podName && last.retriesStatus == s.retriesStatus
      && now == Finished(c, false, last) && (!HasFailed(now) ==> Stuck(now, inputs.recovering))
    ensures forall cl :: ClusterAfter(c, false, s, inputs, cl) == cl
  {
    var i := Initialized(s);
    InitializedShape(s);
    SkipSteps(i.steps, i.sidecars, inputs.recovering);
    TerminatedPull(i.steps, "TaskRunImagePullFailed");
  }

  lemma TerminatedPull(steps: seq<ContainerStatus>, reason: string)
    ensures NoPullFails(TerminateAll(steps, reason))
  {
  }

  predicate NoPullFails(cs: seq<ContainerStatus>) {
    forall c :: c in cs ==> !PullFails(c)
  }

  lemma {:induction false} SkipSteps(steps: seq<ContainerStatus>, sidecars: seq<ContainerStatus>, recovering: bool)
    requires NoPullFails(steps)
    ensures PodCheckFails(steps + sidecars, recovering) == PodCheckFails(sidecars, recovering)
  {
    if steps == [] {
      assert steps + sidecars == sidecars;
    } else {
      assert (steps + sidecars)[1..] == steps[1..] + sidecars;
      SkipSteps(steps[1..], sidecars, recovering);
    }
  }
}
