/**
 The step processes of one pod as a transition system. All of them start together and
 coordinate only through their post files: any interleaving, any crash, any stat fault.
 */
module StepProtocol {
  import opened Wrappers
  import opened Entrypoint

  // ----- States -----

  // The post files of step i: /tekton/run/<i>/out and /tekton/run/<i>/out.err.
  datatype File = Out(step: nat) | Err(step: nat)

  datatype Phase =
    | Starting                        // before its metadata directories exist
    | StatPlain                       // about to stat the awaited file
    | StatErr                         // about to stat the awaited file's ".err"
    | Admitted                        // the wait is over, the command has not started
    | Executing                       // the command runs
    | Returned(err: Option<GoError>)  // the post file is decided, not yet written
    | Posted(err: Option<GoError>)    // the post file is written
    | Exited(code: int)
    | Dead                            // killed

  datatype State = State(phases: seq<Phase>, files: set<File>, ready: bool, results: map<string, string>)

  // n steps; whether step 0 waits for the sidecars; which steps continue on error; which faults can happen.
  datatype Config = Config(continues: seq<bool>, waitForReady: bool, statFaults: bool, mkdirFaults: bool, crashes: bool,
                           messageFaults: bool)
  {
    function Steps(): nat { |continues| }
  }

  ghost predicate Init(cfg: Config, s: State) {
    && |s.phases| == cfg.Steps()
    && (forall i :: 0 <= i < cfg.Steps() ==> s.phases[i] == Starting)
    && s.files == {} && !s.ready
  }

  // ----- Steps of the system -----

  datatype Action =
    | Advance(step: nat)
    | CommandWrites(step: nat, name: string, value: string)
    | Crash(step: nat)
    | SidecarsReady
    | Stutter

  predicate HasWaitFile(cfg: Config, i: nat) {
    i > 0 || cfg.waitForReady
  }

  // What a faultless stat of step i's wait file sees. The file step 0 waits for exists from the start, empty.
  function PlainStat(s: State, i: nat): Stat {
    if i == 0 then Present(if s.ready then |"READY"| else 0)
    else if Out(i - 1) in s.files then Present(0)
    else Absent
  }

  function ErrStat(s: State, i: nat): Stat {
    if i > 0 && Err(i - 1) in s.files then Present(0) else Absent
  }

  function AfterWait(r: Option<WaitResult>, poll: Phase): Phase {
    match r
    case None => poll
    case Some(Passed) => Admitted
    case Some(Bailed(e)) => Returned(Some(e))
  }

  // Only step 0 waits for content.
  function OnPlain(st: Stat, i: nat): Phase {
    AfterWait(AfterPlain(st, i == 0), StatErr)
  }

  function OnErr(st: Stat): Phase {
    AfterWait(AfterErr(st), StatPlain)
  }

  predicate NextPhase(cfg: Config, s: State, i: nat, p: Phase)
    requires i < |s.phases| && i < cfg.Steps()
  {
    match s.phases[i]
    case Starting => p == StatPlain || (cfg.mkdirFaults && p == Exited(1))
    case StatPlain =>
      if !HasWaitFile(cfg, i) then p == Admitted
      else p == OnPlain(PlainStat(s, i), i) || (cfg.statFaults && p == OnPlain(Failed, i))
    case StatErr => p == OnErr(ErrStat(s, i)) || (cfg.statFaults && p == OnErr(Failed))
    // The command starts, or a bad timeout or when expression fails the step, or its when expressions skip it.
    case Admitted => p == Executing || p == Returned(Some(OtherError)) || p == Returned(None)
    case Executing => p.Returned? && RunOutcome(p.err)
    case Returned(e) => p == Posted(e)
    // Reading the results or writing the termination message can still fail the process.
    case Posted(e) => p == Exited(ExitCode(e, cfg.continues[i])) || (cfg.messageFaults && p == Exited(1))
    case Exited(_) => false
    case Dead => false
  }

  function PostFile(cfg: Config, i: nat, e: Option<GoError>): File
    requires i < cfg.Steps()
  {
    if WritesErr(e, cfg.continues[i]) then Err(i) else Out(i)
  }

  // ----- The step body goes through these phases -----

  function At(s: State, i: nat, p: Phase): State
    requires i < |s.phases|
  {
    s.(phases := s.phases[i := p])
  }

  /** Whatever Go returns, it comes by way of the phases: a failed wait ends in what a stat can give, a passed one leads
      over the command, or past it, to the returned error, and that decides the post file. */
  lemma GoFollowsPhases(cfg: Config, s: State, i: nat, calls: Calls, err: Option<GoError>, ran: bool)
    requires i < cfg.Steps() == |s.phases| && GoOutcome(calls, err, ran) && RunOutcome(calls.run)
    requires forall k :: 0 <= k < |calls.waits| ==> calls.waits[k] in {None, Some(SkipError), Some(StatError)}
    ensures FirstWaitError(calls.waits).Some? ==>
              !ran && (Returned(err) == OnErr(Present(0)) || Returned(err) == OnPlain(Failed, i))
    ensures FirstWaitError(calls.waits).None? && ran ==>
              NextPhase(cfg, At(s, i, Admitted), i, Executing) && NextPhase(cfg, At(s, i, Executing), i, Returned(err))
    ensures FirstWaitError(calls.waits).None? && !ran ==> NextPhase(cfg, At(s, i, Admitted), i, Returned(err))
    ensures NextPhase(cfg, At(s, i, Returned(err)), i, Posted(err))
  {
    var waited := FirstWaitError(calls.waits);
    assert waited.Some? ==> waited in calls.waits;
  }

  predicate Next(cfg: Config, s: State, a: Action, s': State)
    requires |s.phases| == cfg.Steps()
  {
    match a
    case Advance(i) =>
      && i < cfg.Steps() && |s'.phases| == |s.phases|
      && NextPhase(cfg, s, i, s'.phases[i])
      && s'.phases == s.phases[i := s'.phases[i]]
      && s'.files == (if s.phases[i].Returned? then s.files + {PostFile(cfg, i, s.phases[i].err)} else s.files)
      && s'.ready == s.ready && s'.results == s.results
    // A command is taken to leave the post files in its own, writable run directory alone.
    case CommandWrites(i, name, value) =>
      i < cfg.Steps() && s.phases[i] == Executing && s' == s.(results := s.results[name := value])
    case Crash(i) =>
      cfg.crashes && i < cfg.Steps() && !s.phases[i].Exited? && s' == s.(phases := s.phases[i := Dead])
    case SidecarsReady => s' == s.(ready := true)
    case Stutter => s' == s
  }

  // An infinite behaviour; a run that stops is one that stutters from then on.
  ghost predicate Behaviour(cfg: Config, b: nat -> State, a: nat -> Action) {
    && Init(cfg, b(0))
    && (forall t: nat :: |b(t).phases| == cfg.Steps())
    && (forall t: nat :: Next(cfg, b(t), a(t), b(t + 1)))
  }

  // ----- The invariant -----

  // The process got past its wait.
  predicate PastWait(p: Phase) {
    match p
    case Admitted => true
    case Executing => true
    case Returned(e) => e != Some(SkipError) && e != Some(StatError)
    case Posted(e) => e != Some(SkipError) && e != Some(StatError)
    case _ => false
  }

  predicate EndedWell(e: Option<GoError>) {
    RunOutcome(e) || e == Some(SkipError) || e == Some(StatError)
  }

  predicate HasPosted(p: Phase) {
    p.Posted? || p.Exited? || p.Dead?
  }

  ghost predicate StepInv(cfg: Config, s: State, i: nat)
    requires |s.phases| == cfg.Steps() && i < cfg.Steps()
  {
    var p := s.phases[i];
    && !(Out(i) in s.files && Err(i) in s.files)
    && (Out(i) in s.files || Err(i) in s.files ==> HasPosted(p))
    && (p.Returned? || p.Posted? ==> EndedWell(p.err))
    && (p.Posted? ==> PostFile(cfg, i, p.err) in s.files)
    && (p.Exited? ==> (p.code == 0 ==> Out(i) in s.files))
    && (p.Exited? && !cfg.mkdirFaults ==> Out(i) in s.files || Err(i) in s.files)
    && (i > 0 && (PastWait(p) || Out(i) in s.files) ==> Out(i - 1) in s.files)
    // Without stat faults nobody ends its wait before its predecessor has posted.
    && (!cfg.statFaults && i > 0 && (p.Returned? || Out(i) in s.files || Err(i) in s.files) ==>
          Out(i - 1) in s.files || Err(i - 1) in s.files)
    && (p == Returned(Some(StatError)) ==> cfg.statFaults)
  }

  ghost predicate Inv(cfg: Config, s: State) {
    && |s.phases| == cfg.Steps()
    && (forall f :: f in s.files ==> f.step < cfg.Steps())
    && (forall i :: 0 <= i < cfg.Steps() ==> StepInv(cfg, s, i))
  }

  lemma AdvanceKeepsInv(cfg: Config, s: State, i: nat, s': State)
    requires Inv(cfg, s) && i < cfg.Steps() && Next(cfg, s, Advance(i), s')
    ensures Inv(cfg, s')
  {
    forall j | 0 <= j < cfg.Steps()
      ensures StepInv(cfg, s', j)
    {
      assert StepInv(cfg, s, j) && StepInv(cfg, s, i);
      if s.phases[i].Posted? {
        ExitCodeAgreesWithPostFile(s.phases[i].err, cfg.continues[i]);
      }
    }
  }

  lemma NextKeepsInv(cfg: Config, s: State, a: Action, s': State)
    requires Inv(cfg, s) && Next(cfg, s, a, s')
    ensures Inv(cfg, s')
  {
    match a
    case Advance(i) => AdvanceKeepsInv(cfg, s, i, s');
    case _ =>
      forall j | 0 <= j < cfg.Steps()
        ensures StepInv(cfg, s', j)
      {
        assert StepInv(cfg, s, j);
      }
  }

  lemma {:induction false} Invariant(cfg: Config, b: nat -> State, a: nat -> Action, t: nat)
    requires Behaviour(cfg, b, a)
    ensures Inv(cfg, b(t))
  {
    if t > 0 {
      Invariant(cfg, b, a, t - 1);
      NextKeepsInv(cfg, b(t - 1), a(t - 1), b(t));
    }
  }

  // Post files never disappear.
  lemma {:induction false} FilesGrow(cfg: Config, b: nat -> State, a: nat -> Action, t: nat, u: nat)
    requires Behaviour(cfg, b, a) && t <= u
    ensures b(t).files <= b(u).files
    decreases u
  {
    if t < u {
      FilesGrow(cfg, b, a, t, u - 1);
      assert Next(cfg, b(u - 1), a(u - 1), b(u));
    }
  }

  // ----- Sequencing -----

  lemma {:induction false} OutChain(cfg: Config, s: State, i: nat, j: nat)
    requires Inv(cfg, s) && j <= i < cfg.Steps() && Out(i) in s.files
    ensures Out(j) in s.files
    decreases i
  {
    if j < i {
      assert StepInv(cfg, s, i);
      OutChain(cfg, s, i - 1, j);
    }
  }

  // Everything before a step that got past its wait has ended its command and posted plain "out".
  lemma PastWaitMeansAllEarlierOut(cfg: Config, s: State, i: nat, j: nat)
    requires Inv(cfg, s) && j < i < cfg.Steps() && PastWait(s.phases[i])
    ensures Out(j) in s.files && Err(j) !in s.files && HasPosted(s.phases[j])
  {
    assert StepInv(cfg, s, i) && StepInv(cfg, s, j);
    OutChain(cfg, s, i - 1, j);
  }

  /** A command runs only after every earlier step ended and posted plain "out". */
  lemma Sequencing(cfg: Config, b: nat -> State, a: nat -> Action, t: nat, i: nat)
    requires Behaviour(cfg, b, a) && i < cfg.Steps() && b(t).phases[i] == Executing
    ensures forall j :: 0 <= j < i ==>
              Out(j) in b(t).files && Err(j) !in b(t).files && HasPosted(b(t).phases[j])
  {
    Invariant(cfg, b, a, t);
    forall j | 0 <= j < i
      ensures Out(j) in b(t).files && Err(j) !in b(t).files && HasPosted(b(t).phases[j])
    {
      PastWaitMeansAllEarlierOut(cfg, b(t), i, j);
    }
  }

  /** At most one command runs at any time. */
  lemma AtMostOneCommand(cfg: Config, b: nat -> State, a: nat -> Action, t: nat, i: nat, j: nat)
    requires Behaviour(cfg, b, a) && i < cfg.Steps() && j < cfg.Steps()
    requires b(t).phases[i] == Executing && b(t).phases[j] == Executing
    ensures i == j
  {
    Sequencing(cfg, b, a, t, i);
    Sequencing(cfg, b, a, t, j);
  }

  /** Once step k has posted ".err", no later step ever runs its command or posts plain "out". */
  lemma FailStop(cfg: Config, b: nat -> State, a: nat -> Action, t: nat, u: nat, k: nat, j: nat)
    requires Behaviour(cfg, b, a) && t <= u && k < j < cfg.Steps() && Err(k) in b(t).files
    ensures !PastWait(b(u).phases[j]) && b(u).phases[j] != Executing && Out(j) !in b(u).files
  {
    FilesGrow(cfg, b, a, t, u);
    Invariant(cfg, b, a, u);
    assert StepInv(cfg, b(u), k) && StepInv(cfg, b(u), j);
    if PastWait(b(u).phases[j]) {
      PastWaitMeansAllEarlierOut(cfg, b(u), j, k);
    }
    if Out(j) in b(u).files {
      OutChain(cfg, b(u), j, k);
    }
  }

  /** A step never has both post files. */
  lemma OnePostFile(cfg: Config, b: nat -> State, a: nat -> Action, t: nat, u: nat, i: nat)
    requires Behaviour(cfg, b, a) && i < cfg.Steps()
    ensures !(Out(i) in b(t).files && Err(i) in b(u).files)
  {
    var later := if t <= u then u else t;
    FilesGrow(cfg, b, a, t, later);
    FilesGrow(cfg, b, a, u, later);
    Invariant(cfg, b, a, later);
    assert StepInv(cfg, b(later), i);
  }

  // ----- Sidecars -----

  // Where step 0 waits for the sidecars, nothing gets past it before they are ready.
  predicate ReadyInv(cfg: Config, s: State) {
    cfg.waitForReady && s.phases != [] && (PastWait(s.phases[0]) || Out(0) in s.files) ==> s.ready
  }

  lemma {:induction false} ReadyAlways(cfg: Config, b: nat -> State, a: nat -> Action, t: nat)
    requires Behaviour(cfg, b, a)
    ensures ReadyInv(cfg, b(t))
  {
    if t > 0 && cfg.Steps() > 0 {
      ReadyAlways(cfg, b, a, t - 1);
      Invariant(cfg, b, a, t - 1);
      assert StepInv(cfg, b(t - 1), 0) && Next(cfg, b(t - 1), a(t - 1), b(t));
    }
  }

  /** Where the pod waits for its sidecars, no command runs before they are ready. */
  lemma CommandsWaitForSidecars(cfg: Config, b: nat -> State, a: nat -> Action, t: nat, i: nat)
    requires Behaviour(cfg, b, a) && cfg.waitForReady && i < cfg.Steps() && b(t).phases[i] == Executing
    ensures b(t).ready
  {
    ReadyAlways(cfg, b, a, t);
    if i > 0 {
      Sequencing(cfg, b, a, t, i);
    }
  }

  // ----- Enabledness -----

  /** A process that has neither exited nor been killed can always move, in any state. */
  lemma NeverStuck(cfg: Config, s: State, i: nat) returns (s': State)
    requires |s.phases| == cfg.Steps() && i < cfg.Steps() && !s.phases[i].Exited? && s.phases[i] != Dead
    ensures Next(cfg, s, Advance(i), s')
  {
    var was := s.phases[i];
    var p :=
      if was.Starting? then StatPlain
      else if was.StatPlain? then if HasWaitFile(cfg, i) then OnPlain(PlainStat(s, i), i) else Admitted
      else if was.StatErr? then OnErr(ErrStat(s, i))
      else if was.Admitted? then Executing
      else if was.Executing? then Returned(None)
      else if was.Returned? then Posted(was.err)
      else Exited(ExitCode(was.err, cfg.continues[i]));
    s' := s.(phases := s.phases[i := p],
             files := if s.phases[i].Returned? then s.files + {PostFile(cfg, i, s.phases[i].err)} else s.files);
  }

  // ----- Exit codes -----

  // What becomes of a process that has posted: it exits with the code its error stands for, or, if those faults can
  // happen, fails over its termination message or is killed.
  predicate ExitingFrom(cfg: Config, i: nat, e: Option<GoError>, p: Phase)
    requires i < cfg.Steps()
  {
    || p == Posted(e)
    || (p.Exited? && ExitsWith(e, cfg.continues[i], p.code))
    || (cfg.messageFaults && p == Exited(1))
    || (cfg.crashes && p == Dead)
  }

  lemma {:induction false} PostedThenExits(cfg: Config, b: nat -> State, a: nat -> Action, t: nat, u: nat, i: nat)
    requires Behaviour(cfg, b, a) && t <= u && i < cfg.Steps() && b(t).phases[i].Posted?
    ensures ExitingFrom(cfg, i, b(t).phases[i].err, b(u).phases[i])
    decreases u
  {
    if t < u {
      PostedThenExits(cfg, b, a, t, u - 1, i);
      Invariant(cfg, b, a, t);
      assert StepInv(cfg, b(t), i) && Next(cfg, b(u - 1), a(u - 1), b(u));
      ExitCodeAgreesWithPostFile(b(t).phases[i].err, cfg.continues[i]);
    }
  }

  /** A command that ended with a status of its own, in a step that does not tolerate it: unless the process is killed
      or fails over its termination message, it exits with exactly that status, or with 255 after a signal. */
  lemma ExitTellsStatus(cfg: Config, b: nat -> State, a: nat -> Action, t: nat, u: nat, i: nat, status: int)
    requires Behaviour(cfg, b, a) && t <= u && i < cfg.Steps() && !cfg.messageFaults
    requires b(t).phases[i] == Posted(Some(ExitError(status))) && b(u).phases[i].Exited?
    ensures !cfg.continues[i] ==> b(u).phases[i] == Exited(if status == -1 then 255 else status)
    ensures cfg.continues[i] ==> b(u).phases[i] == Exited(0)
  {
    PostedThenExits(cfg, b, a, t, u, i);
  }
}
