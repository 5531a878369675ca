/** What storing a stale status does: a run that loses an archived attempt and then uses a pod twice. */
module StaleStore {
  import opened Wrappers
  import opened PodStatus
  import opened StatusMerge
  import opened PodNames
  import opened Reconciler
  import opened Retries

  // ----- Statuses and answers with one pod that runs or has failed, and no containers to report -----

  function RunningAttempt(rs: seq<Status>, pod: string): Status {
    Status(Some(Unknown("Running")), true, false, pod, rs, [], [], [])
  }

  function FailedAttempt(pod: string): Status {
    Status(Some(False("Failed")), true, true, pod, [], [], [], [])
  }

  function NextAttempt(rs: seq<Status>): Status {
    Status(Some(Unknown("ToBeRetried")), false, false, "", rs, [], [], [])
  }

  const FIRST_ATTEMPT := Status(None, false, false, "", [], [], [], [])

  function PodIn(phase: PodPhase, name: string): Pod {
    Pod(name, phase, [], false)
  }

  function Answers(lookup: Lookup, listing: seq<ListedPod>, creation: Creation): Inputs {
    Inputs(TektonSidecars, Stopped([]), false, false, false, Ready, lookup, Some(listing), false, false, creation,
           false, false, false, [], Fine, false)
  }

  // No pod is listed, and one is asked for.
  function PodAsked(creation: Creation): Inputs {
    Answers(Missing, [], creation)
  }

  const RUNNING_POD := PodIn(PodRunning, "")

  // The attempt's pod has failed.
  const POD_FAILED := Answers(Found(PodIn(Failed, "")), [], QuotaConflict)

  // A running pod of that name is listed.
  function PodListed(pod: string): Inputs {
    Answers(Missing, [ListedPod(PodIn(PodRunning, pod), true)], QuotaConflict)
  }

  // ----- What passes make of them -----

  ghost predicate Unstarted(s: Status) {
    s == FIRST_ATTEMPT || s == NextAttempt(s.retriesStatus)
  }

  lemma RunningPodRuns(s: Status, pod: string, inputs: Inputs)
    requires !IsDone(s) && s.started && !s.completed && s.results == [] && s.steps == [] && s.sidecars == []
    requires !inputs.resultsFromSidecar && !inputs.ignoreFailure
    ensures FromPod(s, PodIn(PodRunning, pod), inputs) == RunningAttempt(s.retriesStatus, pod)
  {
    assert Merged([]) == [] && s.results + [] == [];
  }

  lemma AskingRuns(c: Config, s: Status, creation: Creation)
    requires Unstarted(s) && |s.retriesStatus| < MAX_ATTEMPTS
    requires creation == Created(RUNNING_POD) || creation == Exists(Some(RUNNING_POD))
    ensures Decided(c, false, s, PodAsked(creation)) == RunningAttempt(s.retriesStatus, OwnName(c, s))
    ensures Reaches(false, Initialized(s), PodAsked(creation)) && Asks(Initialized(s), PodAsked(creation))
  {
    var i, inputs := Initialized(s), PodAsked(creation);
    assert i.steps + i.sidecars == [];
    assert FoundPod(i, inputs) == NoPod;
    assert AskedPod(creation, OwnName(c, s)) == Some(PodIn(PodRunning, OwnName(c, s)));
    RunningPodRuns(i, OwnName(c, s), inputs);
  }

  lemma AskingCluster(c: Config, s: Status, creation: Creation, cl: Cluster)
    requires Unstarted(s) && |s.retriesStatus| < MAX_ATTEMPTS
    requires creation == Created(RUNNING_POD) || creation == Exists(Some(RUNNING_POD))
    ensures ClusterAfter(c, false, s, PodAsked(creation), cl) ==
              if creation.Created? then WithPod(cl, OwnName(c, s)) else cl
  {
    AskingRuns(c, s, creation);
  }

  lemma FailingIsArchived(c: Config, rs: seq<Status>, pod: string)
    requires |rs| < c.retries < MAX_ATTEMPTS && pod != ""
    ensures Decided(c, false, RunningAttempt(rs, pod), POD_FAILED) == NextAttempt(rs + [FailedAttempt(pod)])
    ensures !Asks(RunningAttempt(rs, pod), POD_FAILED)
  {
    var s, p := RunningAttempt(rs, pod), PodIn(Failed, pod);
    assert s.steps + s.sidecars == [];
    assert FoundPod(s, POD_FAILED) == Have(p);
    assert Merged([]) == [] && s.results + [] == [];
    assert FromPod(s, p, POD_FAILED) == FailedAttempt(pod).(retriesStatus := rs);
  }

  lemma ListedIsAdopted(c: Config, pod: string)
    requires pod != ""
    ensures Decided(c, false, FIRST_ATTEMPT, PodListed(pod)) == RunningAttempt([], pod)
    ensures !Asks(Initialized(FIRST_ATTEMPT), PodListed(pod))
  {
    var i, inputs := Initialized(FIRST_ATTEMPT), PodListed(pod);
    assert i.steps + i.sidecars == [];
    var listed := inputs.listing.value;
    assert Adoptable(listed[0], i);
    assert FoundPod(i, inputs) == Have(PodIn(PodRunning, pod));
    RunningPodRuns(i, pod, inputs);
  }

  // ----- The run -----

  function Pods(p: string, q: string, n: nat): Cluster {
    if n == 0 then Cluster(multiset{}, multiset{}, {})
    else if n == 1 then WithPod(Pods(p, q, 0), p)
    else WithPod(Pods(p, q, 1), q)
  }

  // p and q are the pods of the first two attempts.
  function WorldAt(p: string, q: string, t: nat): World {
    match t
    case 0 => World(FIRST_ATTEMPT, Pods(p, q, 0), false)
    case 1 => World(RunningAttempt([], p), Pods(p, q, 1), false)
    case 2 => World(NextAttempt([FailedAttempt(p)]), Pods(p, q, 1), false)
    case 3 => World(RunningAttempt([FailedAttempt(p)], q), Pods(p, q, 2), false)
    case 4 => World(RunningAttempt([], q), Pods(p, q, 2), false)
    case 5 => World(NextAttempt([FailedAttempt(q)]), Pods(p, q, 2), false)
    case _ => World(RunningAttempt([FailedAttempt(q)], q), Pods(p, q, 2), false)
  }

  // The pass at time 3 still has the TaskRun of time 0 from its cache.
  function EventAt(q: string, t: nat): Event {
    match t
    case 0 => Stored(0, PodAsked(Created(RUNNING_POD)))
    case 1 => Stored(1, POD_FAILED)
    case 2 => Stored(2, PodAsked(Created(RUNNING_POD)))
    case 3 => Stored(0, PodListed(q))
    case 4 => Stored(4, POD_FAILED)
    case 5 => Stored(5, PodAsked(Exists(Some(RUNNING_POD))))
    case _ => Idle
  }

  ghost predicate Named(c: Config, p: string, q: string) {
    p == PodName(c.md5, c.name, 0) && q == PodName(c.md5, c.name, 1) && p != q && p != "" && q != ""
  }

  lemma NamesOf(c: Config) returns (p: string, q: string)
    ensures Named(c, p, q)
  {
    p, q := PodName(c.md5, c.name, 0), PodName(c.md5, c.name, 1);
    PodNameNonEmpty(c.md5, c.name, 0);
    PodNameNonEmpty(c.md5, c.name, 1);
    if p == q {
      PodNameInjective(c.md5, c.name, 0, 1);
    }
  }

  // A pod that is not there is made by asking for it.
  lemma AskingFirst(c: Config, s: Status, cl: Cluster)
    requires Unstarted(s) && |s.retriesStatus| < MAX_ATTEMPTS && OwnName(c, s) !in cl.live
    ensures var w, inputs := World(s, cl, false), PodAsked(Created(RUNNING_POD));
      && Pass(c, w, inputs, w, WithPod(cl, OwnName(c, s)))
      && Decided(c, false, s, inputs) == RunningAttempt(s.retriesStatus, OwnName(c, s))
  {
    AskingRuns(c, s, Created(RUNNING_POD));
    AskingCluster(c, s, Created(RUNNING_POD), cl);
  }

  lemma MakingStep(c: Config, p: string, q: string, ws: nat -> World, t: nat)
    requires c.retries > 0 && Named(c, p, q) && (forall u: nat :: ws(u) == WorldAt(p, q, u)) && (t == 0 || t == 2)
    ensures Step(c, ws, t, EventAt(q, t))
  {
    var s, cl := if t == 0 then FIRST_ATTEMPT else NextAttempt([FailedAttempt(p)]), Pods(p, q, t / 2);
    assert Pods(p, q, 0).live == {} && Pods(p, q, 1).live == {p};
    assert ws(t) == World(s, cl, false);
    assert ws(t + 1) == WorldAt(p, q, t + 1);
    AskingFirst(c, s, cl);
  }

  lemma FailingStep(c: Config, p: string, q: string, ws: nat -> World, t: nat)
    requires 0 < c.retries < MAX_ATTEMPTS && Named(c, p, q) && (t == 1 || t == 4)
    requires forall u: nat :: ws(u) == WorldAt(p, q, u)
    ensures Step(c, ws, t, EventAt(q, t))
  {
    FailingIsArchived(c, [], if t == 1 then p else q);
    assert [] + [FailedAttempt(if t == 1 then p else q)] == [FailedAttempt(if t == 1 then p else q)];
  }

  lemma AdoptingStep(c: Config, p: string, q: string, ws: nat -> World)
    requires Named(c, p, q) && (forall u: nat :: ws(u) == WorldAt(p, q, u))
    ensures Step(c, ws, 3, EventAt(q, 3))
  {
    ListedIsAdopted(c, q);
    assert q in Pods(p, q, 2).made;
  }

  // A pod that is there already is found again by asking for it.
  lemma AskingAgain(c: Config, s: Status, cl: Cluster)
    requires Unstarted(s) && |s.retriesStatus| < MAX_ATTEMPTS && OwnName(c, s) in cl.made && OwnName(c, s) in cl.live
    ensures var w, inputs := World(s, cl, false), PodAsked(Exists(Some(RUNNING_POD)));
      Pass(c, w, inputs, w, cl) && Decided(c, false, s, inputs) == RunningAttempt(s.retriesStatus, OwnName(c, s))
  {
    AskingRuns(c, s, Exists(Some(RUNNING_POD)));
    AskingCluster(c, s, Exists(Some(RUNNING_POD)), cl);
  }

  lemma ReusingStep(c: Config, p: string, q: string, ws: nat -> World)
    requires Named(c, p, q) && (forall u: nat :: ws(u) == WorldAt(p, q, u))
    ensures Step(c, ws, 5, EventAt(q, 5))
  {
    var s, cl := NextAttempt([FailedAttempt(q)]), Pods(p, q, 2);
    assert ws(5) == World(s, cl, false) && ws(6) == World(RunningAttempt(s.retriesStatus, q), cl, false);
    assert OwnName(c, s) == q && q in cl.made && q in cl.live;
    AskingAgain(c, s, cl);
  }

  lemma StepHolds(c: Config, p: string, q: string, ws: nat -> World, t: nat)
    requires 0 < c.retries < MAX_ATTEMPTS && Named(c, p, q) && forall u: nat :: ws(u) == WorldAt(p, q, u)
    ensures Step(c, ws, t, EventAt(q, t))
  {
    if t == 0 || t == 2 {
      MakingStep(c, p, q, ws, t);
    } else if t == 1 || t == 4 {
      FailingStep(c, p, q, ws, t);
    } else if t == 3 {
      AdoptingStep(c, p, q, ws);
    } else if t == 5 {
      ReusingStep(c, p, q, ws);
    }
  }

  /** A run in which a status read in the first attempt is stored over the second: the archived first attempt is lost,
      and later the pod of the attempt that runs is the pod of an archived one. */
  lemma StaleStoreLosesOrder(c: Config) returns (ws: nat -> World, es: nat -> Event)
    requires 0 < c.retries < MAX_ATTEMPTS - 1
    ensures Run(c, ws, es) && !Timely(ws, es)
    ensures |ws(3).status.retriesStatus| == 1 && ws(4).status.retriesStatus == []
    ensures ws(6).status.podName != "" && IsPodArchived(ws(6).status.podName, ws(6).status)
  {
    var p, q := NamesOf(c);
    ws := (t: nat) => WorldAt(p, q, t);
    es := (t: nat) => EventAt(q, t);
    forall t: nat
      ensures StepAt(c, ws, es, t)
    {
      StepHolds(c, p, q, ws, t);
    }
    assert !TimelyAt(ws, 3, es(3));
    assert FailedAttempt(q) in ws(6).status.retriesStatus;
  }
}
