/** Cancelled TaskRuns in runs: the next pass that sees the cancellation ends them. */
module Cancellation {
  import opened Wrappers
  import opened PodStatus
  import opened PodNames
  import opened Reconciler
  import opened Retries
  import opened StaleStore
  import opened PassOutcomes

  // ----- One pass -----

  // A pass that sees the cancellation leaves the TaskRun done.
  lemma CancelledIsDone(c: Config, was: Status, inputs: Inputs)
    requires |was.retriesStatus| < MAX_ATTEMPTS
    ensures IsDone(Decided(c, true, was, inputs))
  {
    InitializedShape(was);
    if !IsDone(was) {
      CancelledIsKilled(c, was, inputs, Cluster(multiset{}, multiset{}, {}));
    }
  }

  // A status that a cancellation ended.
  predicate CancelEnded(s: Status) {
    s.condition == Some(False("TaskRunCancelled")) && s.started
  }

  lemma EndedIsLeftAlone(c: Config, s: Status, inputs: Inputs, cl: Cluster)
    requires |s.retriesStatus| < MAX_ATTEMPTS && CancelEnded(s)
    ensures Decided(c, true, s, inputs) == s && ClusterAfter(c, true, s, inputs, cl) == cl
  {
    DoneStays(c, true, s, inputs);
  }

  // ----- Runs -----

  lemma {:induction false} StaysCancelled(c: Config, ws: nat -> World, es: nat -> Event, t: nat, u: nat)
    requires Run(c, ws, es) && t <= u && ws(t).cancelled
    ensures ws(u).cancelled
    decreases u
  {
    if t < u {
      StaysCancelled(c, ws, es, t, u - 1);
      assert StepAt(c, ws, es, u - 1);
    }
  }

  /** The first stored pass that reads the TaskRun cancelled ends it: it is done from then on, and one that was not done
      when it was read has failed for that reason, with nothing archived and none of its pod's steps left running. */
  lemma CancelledPassEnds(c: Config, ws: nat -> World, es: nat -> Event, t: nat)
    requires Run(c, ws, es) && es(t).Stored? && ws(es(t).read).cancelled
    ensures ws(t + 1).cancelled && IsDone(ws(t + 1).status)
    ensures !IsDone(ws(es(t).read).status) ==>
              KilledAs(ws(es(t).read).status, false, ws(t + 1).status, "TaskRunCancelled")
  {
    var read, inputs := es(t).read, es(t).inputs;
    assert StepAt(c, ws, es, t);
    StaysCancelled(c, ws, es, read, t);
    CancelledIsDone(c, ws(read).status, inputs);
    if !IsDone(ws(read).status) {
      CancelledIsKilled(c, ws(read).status, inputs, ws(t).cluster);
    }
  }

  // Passes from time t on read the TaskRun as it was at t or later.
  ghost predicate ReadsFrom(es: nat -> Event, t: nat, v: nat) {
    t <= v && (es(v).Stored? || es(v).Lost?) ==> t <= es(v).read
  }

  ghost predicate EndedSince(ws: nat -> World, t: nat, u: nat) {
    forall v: nat :: t <= v <= u ==> ws(v).status == ws(t).status && ws(v).cancelled
  }

  lemma EndedStep(c: Config, ws: nat -> World, es: nat -> Event, t: nat, u: nat)
    requires Run(c, ws, es) && t <= u && CancelEnded(ws(t).status) && EndedSince(ws, t, u) && ReadsFrom(es, t, u)
    ensures ws(u + 1).status == ws(t).status && ws(u + 1).cancelled && ws(u + 1).cluster.made == ws(u).cluster.made
  {
    assert StepAt(c, ws, es, u);
    var e := es(u);
    if e.Stored? || e.Lost? {
      assert ws(e.read).status == ws(t).status && ws(e.read).cancelled;
      EndedIsLeftAlone(c, ws(t).status, e.inputs, ws(u).cluster);
    }
  }

  lemma {:induction false} EndedLasts(c: Config, ws: nat -> World, es: nat -> Event, t: nat, u: nat)
    requires Run(c, ws, es) && t <= u && CancelEnded(ws(t).status) && ws(t).cancelled
    requires forall v: nat :: ReadsFrom(es, t, v)
    ensures EndedSince(ws, t, u) && ws(u).cluster.made == ws(t).cluster.made
    decreases u
  {
    if t < u {
      EndedLasts(c, ws, es, t, u - 1);
      assert ReadsFrom(es, t, u - 1);
      EndedStep(c, ws, es, t, u - 1);
    }
  }

  /** For good: when no later pass works on an older reading, the status of a TaskRun that a cancelled pass ended never
      changes again, and no more pods are made for it. */
  lemma CancelledForGood(c: Config, ws: nat -> World, es: nat -> Event, t: nat, u: nat)
    requires Run(c, ws, es) && es(t).Stored? && ws(es(t).read).cancelled && !IsDone(ws(es(t).read).status)
    requires t < u && var since := t + 1; forall v: nat :: ReadsFrom(es, since, v)
    ensures ws(u).status == ws(t + 1).status && ws(u).status.condition == Some(False("TaskRunCancelled"))
    ensures ws(u).cluster.made == ws(t + 1).cluster.made
  {
    CancelledPassEnds(c, ws, es, t);
    EndedLasts(c, ws, es, t + 1, u);
  }

  // ----- Older readings -----

  // Whatever the cluster answers, storing what a pass makes of this reading leaves the TaskRun done.
  ghost predicate AlwaysDone(c: Config, seen: World, cl: Cluster)
    requires |seen.status.retriesStatus| < MAX_ATTEMPTS
  {
    forall inputs :: Truthful(c, seen.status, inputs, cl) ==> IsDone(Decided(c, seen.cancelled, seen.status, inputs))
  }

  // No retry is possible from a status that is done: none is left, or it is a success whose sidecars are not stopped.
  predicate BeyondRetry(c: Config, s: Status)
    requires IsDone(s)
  {
    || |s.retriesStatus| >= c.retries
    || (&& !HasFailed(s)
        && (s.podName == "" || s.condition.value.reason in {"TaskRunCancelled", "TaskRunTimeout"}))
  }

  // Its first container with an image that cannot be pulled will never be able to.
  ghost predicate Hopeless(containers: seq<ContainerStatus>) {
    exists i: nat :: FirstStuck(containers, i) && containers[i].state == Waiting("InvalidImageName")
  }

  lemma {:induction false} StuckWhere(containers: seq<ContainerStatus>) returns (i: nat)
    requires PodCheckFails(containers, true)
    ensures FirstStuck(containers, i) && containers[i].state == Waiting("InvalidImageName")
  {
    i := 0;
    if !StuckAt(containers, 0) {
      var k := StuckWhere(containers[1..]);
      i := k + 1;
      forall j: nat | j < i
        ensures !StuckAt(containers, j)
      {
        assert j > 0 ==> !StuckAt(containers[1..], j - 1);
      }
    }
  }

  lemma HopelessIff(containers: seq<ContainerStatus>)
    ensures PodCheckFails(containers, true) <==> Hopeless(containers)
  {
    if PodCheckFails(containers, true) {
      var i := StuckWhere(containers);
    }
    if i: nat :| FirstStuck(containers, i) && containers[i].state == Waiting("InvalidImageName") {
      FirstStuckDecides(containers, i, true);
    }
  }

  const NO_NEWS := Answers(Missing, [], QuotaConflict).(preparation := Transient, recovering := true)
  const STOP_FAILS := Answers(Missing, [], QuotaConflict).(stop := StopFailed)

  lemma HopelessIsDone(c: Config, s: Status, inputs: Inputs)
    requires |s.retriesStatus| < MAX_ATTEMPTS && |s.retriesStatus| >= c.retries
    requires !IsDone(s) && Hopeless(s.steps + s.sidecars)
    ensures IsDone(Decided(c, false, s, inputs))
  {
    var cl := Cluster(multiset{}, multiset{}, {});
    if inputs.timedOut {
      TimedOutIsKilled(c, s, inputs, cl);
    } else {
      var containers := s.steps + s.sidecars;
      var i: nat :| FirstStuck(containers, i) && containers[i].state == Waiting("InvalidImageName");
      StuckIsKilled(c, s, i, inputs, cl);
    }
  }

  // A reading that shows the TaskRun neither cancelled nor done keeps it ended only if it cannot go on anyway.
  lemma UndoneKeepsDoneIff(c: Config, seen: World, cl: Cluster)
    requires |seen.status.retriesStatus| < MAX_ATTEMPTS && !seen.cancelled && !IsDone(seen.status)
    ensures AlwaysDone(c, seen, cl) <==>
              Hopeless(seen.status.steps + seen.status.sidecars) && |seen.status.retriesStatus| >= c.retries
  {
    var s := seen.status;
    HopelessIff(s.steps + s.sidecars);
    InitializedShape(s);
    if Hopeless(s.steps + s.sidecars) && |s.retriesStatus| >= c.retries {
      forall inputs | Truthful(c, s, inputs, cl)
        ensures IsDone(Decided(c, false, s, inputs))
      {
        HopelessIsDone(c, s, inputs);
      }
    } else {
      assert Truthful(c, s, NO_NEWS, cl);
      assert !IsDone(Decided(c, false, s, NO_NEWS));
    }
  }

  lemma DoneKeepsDoneIff(c: Config, seen: World, cl: Cluster)
    requires |seen.status.retriesStatus| < MAX_ATTEMPTS && !seen.cancelled && IsDone(seen.status) && seen.status.started
    ensures AlwaysDone(c, seen, cl) <==> BeyondRetry(c, seen.status)
  {
    var s := seen.status;
    if !BeyondRetry(c, s) {
      assert Truthful(c, s, STOP_FAILS, cl);
      assert !IsDone(Decided(c, false, s, STOP_FAILS));
    }
  }

  /** A stored pass keeps a TaskRun ended, whatever the cluster answers, if and only if its reading shows the TaskRun
      cancelled, or done beyond any retry, or without a retry left and waiting for an image that has no valid name. */
  lemma KeepsDoneIff(c: Config, seen: World, cl: Cluster)
    requires |seen.status.retriesStatus| < MAX_ATTEMPTS && seen.status.started
    ensures AlwaysDone(c, seen, cl) <==>
              var s := seen.status;
              || seen.cancelled
              || (if IsDone(s) then BeyondRetry(c, s)
                  else Hopeless(s.steps + s.sidecars) && |s.retriesStatus| >= c.retries)
  {
    if seen.cancelled {
      forall inputs | Truthful(c, seen.status, inputs, cl)
        ensures IsDone(Decided(c, true, seen.status, inputs))
      {
        CancelledIsDone(c, seen.status, inputs);
      }
    } else if IsDone(seen.status) {
      DoneKeepsDoneIff(c, seen, cl);
    } else {
      UndoneKeepsDoneIff(c, seen, cl);
    }
  }

  /** So a status read before the cancellation, and stored after the TaskRun has ended, takes the end back. */
  lemma StaleStoreRevives(c: Config) returns (ws: nat -> World, es: nat -> Event)
    requires c.retries < MAX_ATTEMPTS - 1
    ensures Run(c, ws, es) && CancelEnded(ws(2).status) && ws(2).cancelled
    ensures es(2) == Stored(0, NO_NEWS) && !IsDone(ws(3).status)
  {
    var cl := Cluster(multiset{}, multiset{}, {});
    var s0 := RunningAttempt([], "");
    var s2 := Decided(c, true, s0, NO_NEWS);
    ws := (t: nat) =>
      if t == 0 then World(s0, cl, false) else if t == 1 then World(s0, cl, true)
      else if t == 2 then World(s2, cl, true) else World(s0, cl, true);
    es := (t: nat) => if t == 0 then Cancel else if t == 1 then Stored(1, NO_NEWS)
                      else if t == 2 then Stored(0, NO_NEWS) else Idle;
    CancelledIsKilled(c, s0, NO_NEWS, cl);
    assert s0.steps + s0.sidecars == [];
    assert Decided(c, false, s0, NO_NEWS) == s0;
    forall t: nat
      ensures StepAt(c, ws, es, t)
    {
    }
  }
}
