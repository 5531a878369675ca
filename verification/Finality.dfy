/**
 The results sidecar: when may it stop waiting and read the results? Its polling loop returns
 when every step has posted "out" or some step has posted "out.err".
 */
module Finality {
  import opened Entrypoint
  import opened StepProtocol

  // ----- When no command can run any more -----

  // The process can still come to run its command.
  predicate CanRun(p: Phase) {
    p == Starting || p == StatPlain || p == StatErr || p == Admitted || p == Executing
  }

  // Step j has let its successor pass, or may still do so.
  predicate CanPass(cfg: Config, s: State, j: nat)
    requires |s.phases| == cfg.Steps() && j < cfg.Steps()
  {
    || Out(j) in s.files
    || CanRun(s.phases[j])
    || (s.phases[j].Returned? && !WritesErr(s.phases[j].err, cfg.continues[j]))
  }

  // No step is left that can run and whose predecessors can all still pass.
  ghost predicate Dormant(cfg: Config, s: State)
    requires |s.phases| == cfg.Steps()
  {
    forall m :: 0 <= m < cfg.Steps() && CanRun(s.phases[m]) ==> exists j :: 0 <= j < m && !CanPass(cfg, s, j)
  }

  predicate Quiet(s: State) {
    forall i :: 0 <= i < |s.phases| ==> s.phases[i] != Executing
  }

  lemma DormantIsQuiet(cfg: Config, s: State)
    requires Inv(cfg, s) && Dormant(cfg, s)
    ensures Quiet(s)
  {
    forall i | 0 <= i < |s.phases|
      ensures s.phases[i] != Executing
    {
      if s.phases[i] == Executing {
        forall j | 0 <= j < i
          ensures CanPass(cfg, s, j)
        {
          PastWaitMeansAllEarlierOut(cfg, s, i, j);
        }
        assert CanRun(s.phases[i]);
        assert false;
      }
    }
  }

  lemma NextKeepsDormant(cfg: Config, s: State, a: Action, s': State)
    requires Inv(cfg, s) && Dormant(cfg, s) && Next(cfg, s, a, s')
    ensures Dormant(cfg, s') && s'.results == s.results
  {
    DormantIsQuiet(cfg, s);
    forall m | 0 <= m < cfg.Steps() && CanRun(s'.phases[m])
      ensures exists j :: 0 <= j < m && !CanPass(cfg, s', j)
    {
      assert CanRun(s.phases[m]);
      var j :| 0 <= j < m && !CanPass(cfg, s, j);
      assert StepInv(cfg, s, j);
      assert !CanPass(cfg, s', j);
    }
  }

  // From a dormant state on no command runs and the result files stay as they are.
  lemma {:induction false} DormantForever(cfg: Config, b: nat -> State, a: nat -> Action, t: nat, u: nat)
    requires Behaviour(cfg, b, a) && t <= u && Dormant(cfg, b(t))
    ensures Dormant(cfg, b(u)) && Quiet(b(u)) && b(u).results == b(t).results
    decreases u
  {
    Invariant(cfg, b, a, u);
    if t < u {
      DormantForever(cfg, b, a, t, u - 1);
      Invariant(cfg, b, a, u - 1);
      NextKeepsDormant(cfg, b(u - 1), a(u - 1), b(u));
    }
    DormantIsQuiet(cfg, b(u));
  }

  // ----- What the sidecar's return tells it -----

  predicate AllOut(cfg: Config, s: State) {
    forall i :: 0 <= i < cfg.Steps() ==> Out(i) in s.files
  }

  predicate SomeErr(cfg: Config, s: State) {
    exists k :: 0 <= k < cfg.Steps() && Err(k) in s.files
  }

  // Without stat faults posts happen in order, so an error file has only ended steps before it.
  lemma {:induction false} PostedChain(cfg: Config, s: State, k: nat, j: nat)
    requires Inv(cfg, s) && !cfg.statFaults && j <= k < cfg.Steps()
    requires Out(k) in s.files || Err(k) in s.files
    ensures HasPosted(s.phases[j])
    decreases k
  {
    assert StepInv(cfg, s, k);
    if j < k {
      PostedChain(cfg, s, k - 1, j);
    }
  }

  lemma ObservedMeansDormant(cfg: Config, s: State)
    requires Inv(cfg, s) && !cfg.statFaults && (AllOut(cfg, s) || SomeErr(cfg, s))
    ensures Dormant(cfg, s)
  {
    forall m | 0 <= m < cfg.Steps() && CanRun(s.phases[m])
      ensures exists j :: 0 <= j < m && !CanPass(cfg, s, j)
    {
      assert StepInv(cfg, s, m);
      var k :| 0 <= k < cfg.Steps() && Err(k) in s.files;
      assert StepInv(cfg, s, k);
      if m <= k {
        PostedChain(cfg, s, k, m);
        assert false;
      }
      assert !CanPass(cfg, s, k);
    }
  }

  // ----- The polling loop of the sidecar -----

  // The directories found under the run directory, one per step.
  function Indices(n: nat): (r: set<nat>)
    ensures forall i :: i in r <==> 0 <= i < n
  {
    if n == 0 then {} else Indices(n - 1) + {n - 1}
  }

  datatype Waited = Done | StatFailed | StillWaiting

  /**
   The sidecar against a running pod: stat number c happens at time clock(c), sidecarFault(c) says
   whether it fails, and the map of pending steps is visited in any order. After `passes` turns of
   the outer loop without a verdict the sidecar is still waiting.
   */
  method WaitForStepsToFinish(cfg: Config, b: nat -> State, ghost a: nat -> Action,
                              clock: nat -> nat, sidecarFault: nat -> bool, passes: nat)
    returns (r: Waited, now: nat)
    requires Behaviour(cfg, b, a)
    requires forall c: nat, d: nat :: c <= d ==> clock(c) <= clock(d)
    ensures r == Done ==> AllOut(cfg, b(now)) || SomeErr(cfg, b(now))
    ensures r == StatFailed ==> exists c: nat :: sidecarFault(c)
    // Nothing is overlooked: one full pass sees whatever was there when the sidecar started to look.
    ensures r == StillWaiting && passes > 0 ==> !AllOut(cfg, b(clock(0))) && !SomeErr(cfg, b(clock(0)))
    // The results read after the return are final.
    ensures r == Done && !cfg.statFaults ==>
              forall u: nat :: now <= u ==> Quiet(b(u)) && b(u).results == b(now).results
  {
    ghost var start := clock(0);
    var c, pass := 0, 0;
    now := clock(0);
    var pending := Indices(cfg.Steps());
    while pending != {} && pass < passes
      invariant pass <= passes && now <= clock(c) && start <= now
      invariant forall i :: i in pending ==> 0 <= i < cfg.Steps()
      invariant pass == 0 ==> pending == Indices(cfg.Steps())
      invariant forall i :: 0 <= i < cfg.Steps() && i !in pending ==> Out(i) in b(now).files
      invariant pass > 0 ==> forall i :: 0 <= i < cfg.Steps() ==> Err(i) !in b(start).files
      invariant pass > 0 ==> forall i :: i in pending ==> Out(i) !in b(start).files
      decreases passes - pass
    {
      var unvisited := pending;
      ghost var before := pending;
      while unvisited != {}
        invariant unvisited <= pending <= before && now <= clock(c) && start <= now
        invariant forall i :: i in before ==> 0 <= i < cfg.Steps()
        invariant forall i :: 0 <= i < cfg.Steps() && i !in pending ==> Out(i) in b(now).files
        invariant pass > 0 ==> forall i :: 0 <= i < cfg.Steps() ==> Err(i) !in b(start).files
        invariant forall i :: 0 <= i < cfg.Steps() && i !in unvisited ==> Err(i) !in b(start).files
        invariant forall i :: i in pending && (pass > 0 || i !in unvisited) ==> Out(i) !in b(start).files
        decreases unvisited
      {
        var i :| i in unvisited;
        unvisited := unvisited - {i};
        if sidecarFault(c) {
          return StatFailed, now;
        }
        now, c := Tick(cfg, b, a, clock, now, c);
        FilesGrow(cfg, b, a, start, now);
        if Out(i) in b(now).files {
          Excludes(cfg, b, a, now, start, i);
          pending := pending - {i};
          continue;
        }
        if sidecarFault(c) {
          return StatFailed, now;
        }
        now, c := Tick(cfg, b, a, clock, now, c);
        FilesGrow(cfg, b, a, start, now);
        if Err(i) in b(now).files {
          ResultsFinal(cfg, b, a, now);
          return Done, now;
        }
      }
      pass := pass + 1;
    }
    if pending == {} {
      ResultsFinal(cfg, b, a, now);
      return Done, now;
    }
    ghost var i :| i in pending;
    return StillWaiting, now;
  }

  // One stat later.
  method Tick(cfg: Config, b: nat -> State, ghost a: nat -> Action, clock: nat -> nat, now: nat, c: nat)
    returns (now': nat, c': nat)
    requires Behaviour(cfg, b, a) && now <= clock(c)
    requires forall c: nat, d: nat :: c <= d ==> clock(c) <= clock(d)
    ensures now' == clock(c) && c' == c + 1 && now <= now' <= clock(c')
    ensures b(now).files <= b(now').files
  {
    now', c' := clock(c), c + 1;
    FilesGrow(cfg, b, a, now, now');
  }

  lemma Excludes(cfg: Config, b: nat -> State, a: nat -> Action, t: nat, u: nat, i: nat)
    requires Behaviour(cfg, b, a) && i < cfg.Steps() && Out(i) in b(t).files
    ensures Err(i) !in b(u).files
  {
    OnePostFile(cfg, b, a, t, u, i);
  }

  lemma ResultsFinal(cfg: Config, b: nat -> State, a: nat -> Action, now: nat)
    requires Behaviour(cfg, b, a) && (AllOut(cfg, b(now)) || SomeErr(cfg, b(now)))
    ensures !cfg.statFaults ==> forall u: nat :: now <= u ==> Quiet(b(u)) && b(u).results == b(now).results
  {
    if !cfg.statFaults {
      Invariant(cfg, b, a, now);
      ObservedMeansDormant(cfg, b(now));
      forall u: nat | now <= u
        ensures Quiet(b(u)) && b(u).results == b(now).results
      {
        DormantForever(cfg, b, a, now, u);
      }
    }
  }
}
