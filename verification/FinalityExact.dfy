/**
 Exactly when the results are final. With stat faults an error file may appear while an earlier
 command still runs; the sidecar's return is final if and only if the state is dormant.
 */
module FinalityExact {
  import opened Wrappers
  import opened Entrypoint
  import opened StepProtocol
  import opened Finality

  // A finite run, from any state.
  ghost predicate Path(cfg: Config, states: seq<State>, actions: seq<Action>) {
    && |states| == |actions| + 1
    && (forall k :: 0 <= k < |states| ==> |states[k].phases| == cfg.Steps())
    && (forall k :: 0 <= k < |actions| ==> Next(cfg, states[k], actions[k], states[k + 1]))
  }

  ghost predicate LeadsToCommand(cfg: Config, s: State, states: seq<State>, actions: seq<Action>) {
    Path(cfg, states, actions) && states[0] == s && !Quiet(states[|states| - 1])
  }

  ghost predicate SomeCommandCanRun(cfg: Config, s: State) {
    exists states, actions :: LeadsToCommand(cfg, s, states, actions)
  }

  lemma {:induction false} PathFromDormant(cfg: Config, states: seq<State>, actions: seq<Action>, k: nat)
    requires Path(cfg, states, actions) && k < |states|
    requires Inv(cfg, states[0]) && Dormant(cfg, states[0])
    ensures Inv(cfg, states[k]) && Dormant(cfg, states[k])
  {
    if k > 0 {
      PathFromDormant(cfg, states, actions, k - 1);
      NextKeepsInv(cfg, states[k - 1], actions[k - 1], states[k]);
      NextKeepsDormant(cfg, states[k - 1], actions[k - 1], states[k]);
    }
  }

  // ----- Driving a step that can still run to its command -----

  function MissingOuts(files: set<File>, m: nat): nat {
    if m == 0 then 0 else MissingOuts(files, m - 1) + if Out(m - 1) in files then 0 else 1
  }

  lemma {:induction false} PostingReducesMissing(files: set<File>, m: nat, j: nat)
    ensures MissingOuts(files + {Out(j)}, m) <= MissingOuts(files, m)
    ensures j < m && Out(j) !in files ==> MissingOuts(files + {Out(j)}, m) < MissingOuts(files, m)
  {
    if m > 0 {
      PostingReducesMissing(files, m - 1, j);
    }
  }

  function Distance(s: State, m: nat): nat
    requires m < |s.phases|
  {
    (if s.ready then 0 else 1) +
    match s.phases[m]
    case Executing => 0
    case Admitted => 1
    case StatPlain => 2
    case StatErr => 3
    case _ => 4
  }

  // The action that brings step m closer to running, when everything before it can still pass.
  function Closer(cfg: Config, s: State, m: nat, j: nat): (Action, State)
    requires |s.phases| == cfg.Steps() && j <= m < cfg.Steps() && CanRun(s.phases[m])
    requires j < m ==> s.phases[j].Returned?
  {
    if j < m then
      (Advance(j), s.(phases := s.phases[j := Posted(s.phases[j].err)],
                      files := s.files + {PostFile(cfg, j, s.phases[j].err)}))
    else match s.phases[m]
      case Starting => (Advance(m), s.(phases := s.phases[m := StatPlain]))
      case StatErr => (Advance(m), s.(phases := s.phases[m := StatPlain]))
      case Admitted => (Advance(m), s.(phases := s.phases[m := Executing]))
      case _ =>
        if m == 0 && cfg.waitForReady && !s.ready then (SidecarsReady, s.(ready := true))
        else (Advance(m), s.(phases := s.phases[m := Admitted]))
  }

  // The step to move: the lowest one that has decided on "out" but not posted it, or m itself.
  ghost predicate Mover(s: State, m: nat, j: nat)
    requires m < |s.phases|
  {
    && j <= m
    && (forall i :: 0 <= i < j ==> Out(i) in s.files)
    && (j < m ==> Out(j) !in s.files && s.phases[j].Returned?)
  }

  lemma CloserIsCloser(cfg: Config, s: State, m: nat, j: nat)
    requires Inv(cfg, s) && m < cfg.Steps() && CanRun(s.phases[m]) && s.phases[m] != Executing
    requires forall i :: 0 <= i < m ==> CanPass(cfg, s, i) && !CanRun(s.phases[i])
    requires Mover(s, m, j)
    ensures var (a, s') := Closer(cfg, s, m, j);
            && Next(cfg, s, a, s') && CanRun(s'.phases[m])
            && (forall i :: 0 <= i < m ==> CanPass(cfg, s', i) && !CanRun(s'.phases[i]))
            && (MissingOuts(s'.files, m) < MissingOuts(s.files, m)
                || (s'.files == s.files && Distance(s', m) < Distance(s, m)))
  {
    if j < m {
      assert StepInv(cfg, s, j) && CanPass(cfg, s, j);
      PostingReducesMissing(s.files, m, j);
    } else if m > 0 {
      assert StepInv(cfg, s, m - 1);
    }
  }

  lemma FindMover(cfg: Config, s: State, m: nat) returns (j: nat)
    requires Inv(cfg, s) && m < cfg.Steps()
    requires forall i :: 0 <= i < m ==> CanPass(cfg, s, i) && !CanRun(s.phases[i])
    ensures Mover(s, m, j)
  {
    j := 0;
    while j < m && Out(j) in s.files
      invariant j <= m && forall i :: 0 <= i < j ==> Out(i) in s.files
    {
      j := j + 1;
    }
    assert j < m ==> CanPass(cfg, s, j);
  }

  lemma OneStepEarlier(cfg: Config, s: State, a: Action, s': State, states: seq<State>, actions: seq<Action>)
    requires |s.phases| == cfg.Steps() && Next(cfg, s, a, s') && LeadsToCommand(cfg, s', states, actions)
    ensures LeadsToCommand(cfg, s, [s] + states, [a] + actions)
  {
  }

  lemma Drive(cfg: Config, s: State, m: nat) returns (states: seq<State>, actions: seq<Action>)
    requires Inv(cfg, s) && m < cfg.Steps() && CanRun(s.phases[m])
    requires forall i :: 0 <= i < m ==> CanPass(cfg, s, i) && !CanRun(s.phases[i])
    ensures LeadsToCommand(cfg, s, states, actions)
    decreases MissingOuts(s.files, m), Distance(s, m)
  {
    if s.phases[m] == Executing {
      return [s], [];
    }
    var j := FindMover(cfg, s, m);
    CloserIsCloser(cfg, s, m, j);
    var (a, s') := Closer(cfg, s, m, j);
    NextKeepsInv(cfg, s, a, s');
    states, actions := Drive(cfg, s', m);
    OneStepEarlier(cfg, s, a, s', states, actions);
    states, actions := [s] + states, [a] + actions;
  }

  lemma {:induction false} LowestRunner(cfg: Config, s: State, m: nat) returns (l: nat)
    requires |s.phases| == cfg.Steps() && m < cfg.Steps() && CanRun(s.phases[m])
    requires forall i :: 0 <= i < m ==> CanPass(cfg, s, i)
    ensures l <= m && CanRun(s.phases[l])
    ensures forall i :: 0 <= i < l ==> CanPass(cfg, s, i) && !CanRun(s.phases[i])
  {
    l := m;
    if i :| 0 <= i < m && CanRun(s.phases[i]) {
      l := LowestRunner(cfg, s, i);
    }
  }

  /** In every reachable state: no command runs now or in any continuation if and only if the state is dormant. */
  lemma FinalIffDormant(cfg: Config, s: State)
    requires Inv(cfg, s)
    ensures Dormant(cfg, s) <==> !SomeCommandCanRun(cfg, s)
  {
    if Dormant(cfg, s) {
      forall states, actions
        ensures !LeadsToCommand(cfg, s, states, actions)
      {
        if LeadsToCommand(cfg, s, states, actions) {
          PathFromDormant(cfg, states, actions, |states| - 1);
          DormantIsQuiet(cfg, states[|states| - 1]);
        }
      }
    } else {
      var m :| 0 <= m < cfg.Steps() && CanRun(s.phases[m]) && forall j :: 0 <= j < m ==> CanPass(cfg, s, j);
      var l := LowestRunner(cfg, s, m);
      var states, actions := Drive(cfg, s, l);
    }
  }

  /** With stat faults the sidecar may stop waiting while a command runs: two steps, the second one's stat fails. */
  lemma StatFaultBreaksFinality() returns (cfg: Config, states: seq<State>, actions: seq<Action>)
    ensures Path(cfg, states, actions) && Init(cfg, states[0])
    ensures SomeErr(cfg, states[|states| - 1]) && !Quiet(states[|states| - 1])
  {
    cfg := Config([false, false], false, true, false, false, false);
    actions := [Advance(0), Advance(0), Advance(0), Advance(1), Advance(1), Advance(1)];
    var bail := Some(StatError);
    states := [
      State([Starting, Starting], {}, false, map[]),
      State([StatPlain, Starting], {}, false, map[]),
      State([Admitted, Starting], {}, false, map[]),
      State([Executing, Starting], {}, false, map[]),
      State([Executing, StatPlain], {}, false, map[]),
      State([Executing, Returned(bail)], {}, false, map[]),
      State([Executing, Posted(bail)], {Err(1)}, false, map[])];
    assert Err(1) in states[6].files;
    assert states[6].phases[0] == Executing;
    assert OnPlain(Failed, 1) == Returned(bail);
    forall k | 0 <= k < |actions|
      ensures Next(cfg, states[k], actions[k], states[k + 1])
    {
      if k < 3 {
        assert states[k + 1].phases == states[k].phases[0 := states[k + 1].phases[0]];
      } else {
        assert states[k + 1].phases == states[k].phases[1 := states[k + 1].phases[1]];
      }
    }
  }
}
