/** Exactly when the mounts of a pod let its commands run in order and one at a time. */
module PodOrder {
  import opened Wrappers
  import opened Text
  import opened Entrypoint
  import opened StepProtocol
  import opened Flags
  import opened CommandLine
  import opened CommandLineRoundTrip
  import opened PostPaths
  import opened RunVolumes
  import opened PodProcesses
  import WS = Workspaces
  import WM = WorkspaceMounts

  // ----- The condition and the promise -----

  // In the container of every step but the first, the post file waited for is seen in its run volume.
  ghost predicate WaitsClear(pod: Pod)
    requires pod.Sized()
  {
    forall i :: 0 <= i < pod.Size() ==> WaitClear(pod, i)
  }

  ghost predicate WaitClear(pod: Pod, i: nat)
    requires pod.Sized() && i < pod.Size()
  {
    i > 0 ==> ClearAt(pod, i, Out(i - 1))
  }

  // A command runs only when the processes of all earlier steps have posted or are gone; so it runs alone.
  predicate CommandsInOrder(s: PodState) {
    forall i, j :: 0 <= j < i < |s.phases| && s.phases[i] == Executing ==> HasPosted(s.phases[j])
  }

  ghost predicate AlwaysInOrder(pod: Pod) {
    forall cfg: Config, pb: nat -> PodState, a: nat -> Action ::
      Fits(cfg, pod) && PodRun(cfg, pod, pb, a) ==> RunInOrder(pb)
  }

  ghost predicate RunInOrder(pb: nat -> PodState) {
    forall t: nat :: CommandsInOrder(pb(t))
  }

  // ----- Where posts land -----

  // The post of step i reaches no other step's post files, whatever is mounted.
  lemma PostLands(pod: Pod, s: PodState, f: File, e: Option<GoError>, p: Phase, files: set<Place>, g: File)
    requires pod.Sized() && Reserved(pod) && f.step < pod.Size() && g.step < pod.Size()
    requires Posts(pod, s, f.step, PathOf(f), e, p, files)
    ensures p == Posted(e) || p == Exited(1)
    ensures FilePlace(g) in s.files ==> FilePlace(g) in files
    ensures FilePlace(g) in files && FilePlace(g) !in s.files ==> g == f
  {
    var mounts, path := MountsOf(pod, f.step), PathOf(f);
    if Covered(mounts, path) {
      var m :| Governs(mounts, m, path) && PostedThrough(pod.Size(), s, m, path, e, p, files);
      if FilePlace(g) == PlaceOf(m, path) {
        OwnPlace(pod, f, g, m);
      }
    }
  }

  lemma OwnPlace(pod: Pod, f: File, g: File, m: Mount)
    requires pod.Sized() && Reserved(pod) && f.step < pod.Size() && g.step < pod.Size()
    requires m in MountsOf(pod, f.step) && Covers(m, PathOf(f)) && FilePlace(g) == PlaceOf(m, PathOf(f))
    ensures g == f
  {
    FilePlaceIsRun(g, pod.Size());
    OnlyRunMounts(pod, f.step, m, f);
    RunMountPlace(f.step, f);
    FilePlaceInjective(f, g);
  }

  // ----- The invariant -----

  ghost predicate StepInOrder(s: PodState, i: nat)
    requires i < |s.phases|
  {
    var out, bad := FilePlace(Out(i)) in s.files, FilePlace(Err(i)) in s.files;
    && !(out && bad) && (out || bad ==> HasPosted(s.phases[i]))
    && (i > 0 && (PastWait(s.phases[i]) || out) ==> FilePlace(Out(i - 1)) in s.files)
  }

  ghost predicate OrderInv(s: PodState) {
    forall i :: 0 <= i < |s.phases| ==> StepInOrder(s, i)
  }

  lemma PostKeepsOrder(cfg: Config, pod: Pod, s: PodState, i: nat, s': PodState)
    requires Built(pod) && Reserved(pod) && OneWait(pod) && i < pod.Size() == |s.phases|
    requires OrderInv(s) && s.phases[i].Returned? && NextPod(cfg, pod, s, Advance(i), s')
    ensures OrderInv(s')
  {
    BuiltProcess(pod, i);
    var e, p := s.phases[i].err, s'.phases[i];
    var f := if WritesErr(e, pod.procs[i].onError == "continue") then Err(i) else Out(i);
    assert PathOf(f) == PostPath(pod.procs[i], e);
    forall j | 0 <= j < |s'.phases|
      ensures StepInOrder(s', j)
    {
      assert StepInOrder(s, j) && StepInOrder(s, i);
      PostLands(pod, s, f, e, p, s'.files, Out(j));
      PostLands(pod, s, f, e, p, s'.files, Err(j));
      if j > 0 {
        PostLands(pod, s, f, e, p, s'.files, Out(j - 1));
      }
    }
  }

  // Getting past the wait takes the post file of the step before.
  lemma AdmittedMeansPosted(cfg: Config, pod: Pod, s: PodState, i: nat, p: Phase)
    requires Built(pod) && WaitsClear(pod) && OneWait(pod) && 0 < i < pod.Size() == |s.phases|
    requires NextPodPhase(cfg, pod, s, i, p) && PastWait(p) && !PastWait(s.phases[i])
    ensures FilePlace(Out(i - 1)) in s.files
  {
    BuiltProcess(pod, i);
    var wait, f := pod.procs[i].waitFiles[0], Out(i - 1);
    assert wait == PathOf(f);
    ReadyIsNoPostFile(f);
    PassedMeansSeen(cfg, pod, s, i, p);
    var st :| Sees(pod, s, i, wait, st) && st.Present?;
    assert WaitClear(pod, i);
    ClearSees(pod, s, i, f, st);
  }

  lemma PassedMeansSeen(cfg: Config, pod: Pod, s: PodState, i: nat, p: Phase)
    requires pod.Sized() && OneWait(pod) && i < pod.Size() == |s.phases| && pod.procs[i].waitFiles[0] != ""
    requires NextPodPhase(cfg, pod, s, i, p) && PastWait(p) && !PastWait(s.phases[i])
    ensures exists st :: Sees(pod, s, i, pod.procs[i].waitFiles[0], st) && st.Present?
  {
    assert s.phases[i] == StatPlain && p == Admitted;
  }

  lemma PostedStaysPosted(cfg: Config, pod: Pod, s: PodState, i: nat, p: Phase)
    requires pod.Sized() && OneWait(pod) && i < pod.Size() == |s.phases| && NextPodPhase(cfg, pod, s, i, p)
    ensures HasPosted(s.phases[i]) ==> HasPosted(p)
  {
  }

  lemma PhaseKeepsOrder(cfg: Config, pod: Pod, s: PodState, i: nat, s': PodState)
    requires Built(pod) && WaitsClear(pod) && OneWait(pod) && i < pod.Size() == |s.phases|
    requires OrderInv(s) && !s.phases[i].Returned? && NextPod(cfg, pod, s, Advance(i), s')
    ensures OrderInv(s')
  {
    var p := s'.phases[i];
    assert NextPodPhase(cfg, pod, s, i, p) && s'.files == s.files;
    if i > 0 && PastWait(p) && !PastWait(s.phases[i]) {
      AdmittedMeansPosted(cfg, pod, s, i, p);
    }
    PostedStaysPosted(cfg, pod, s, i, p);
    SamePosts(s, i, s');
  }

  // A process moves without posting; if it is past its wait now, it was, or the step before has posted.
  lemma SamePosts(s: PodState, i: nat, s': PodState)
    requires OrderInv(s) && i < |s.phases| == |s'.phases| && s'.files == s.files
    requires s'.phases == s.phases[i := s'.phases[i]] && (HasPosted(s.phases[i]) ==> HasPosted(s'.phases[i]))
    requires i > 0 && PastWait(s'.phases[i]) ==> PastWait(s.phases[i]) || FilePlace(Out(i - 1)) in s.files
    ensures OrderInv(s')
  {
    forall j | 0 <= j < |s'.phases|
      ensures StepInOrder(s', j)
    {
      assert StepInOrder(s, j) && StepInOrder(s, i);
    }
  }

  lemma NextKeepsOrder(cfg: Config, pod: Pod, s: PodState, a: Action, s': PodState)
    requires Built(pod) && Reserved(pod) && WaitsClear(pod) && OneWait(pod) && pod.Size() == |s.phases|
    requires OrderInv(s) && NextPod(cfg, pod, s, a, s')
    ensures OrderInv(s')
  {
    if a.Advance? && s.phases[a.step].Returned? {
      PostKeepsOrder(cfg, pod, s, a.step, s');
    } else if a.Advance? {
      PhaseKeepsOrder(cfg, pod, s, a.step, s');
    } else {
      forall j | 0 <= j < |s'.phases|
        ensures StepInOrder(s', j)
      {
        assert StepInOrder(s, j);
      }
    }
  }

  lemma {:induction false} OrderAlways(cfg: Config, pod: Pod, pb: nat -> PodState, a: nat -> Action, t: nat)
    requires Built(pod) && Reserved(pod) && WaitsClear(pod) && PodRun(cfg, pod, pb, a)
    ensures |pb(t).phases| == pod.Size() && OrderInv(pb(t))
  {
    if t > 0 {
      OrderAlways(cfg, pod, pb, a, t - 1);
      assert PodStepAt(cfg, pod, pb, a, t - 1) && PodStepAt(cfg, pod, pb, a, t);
      NextKeepsOrder(cfg, pod, pb(t - 1), a(t - 1), pb(t));
    }
  }

  lemma {:induction false} EarlierPosted(s: PodState, i: nat, j: nat)
    requires OrderInv(s) && j <= i < |s.phases| && FilePlace(Out(i)) in s.files
    ensures FilePlace(Out(j)) in s.files && FilePlace(Err(j)) !in s.files && HasPosted(s.phases[j])
    decreases i
  {
    assert StepInOrder(s, i);
    if j < i {
      EarlierPosted(s, i - 1, j);
    }
  }

  /**
   End to end: in every run of the processes that orderContainers' argument lists decode to, a user command runs only
   when every earlier step has posted a plain "out" and no ".err" into its run volume, and it runs alone.
   */
  lemma PodCommandsRunInOrder(cfg: Config, pod: Pod, pb: nat -> PodState, a: nat -> Action, t: nat, i: nat)
    requires Built(pod) && Reserved(pod) && WaitsClear(pod) && PodRun(cfg, pod, pb, a)
    requires i < |pb(t).phases| && pb(t).phases[i] == Executing
    ensures |pb(t).phases| == pod.Size()
    ensures forall j :: 0 <= j < i ==>
              FilePlace(Out(j)) in pb(t).files && FilePlace(Err(j)) !in pb(t).files && HasPosted(pb(t).phases[j])
    ensures forall j :: 0 <= j < pod.Size() && pb(t).phases[j] == Executing ==> j == i
    ensures Program(pod.containers[i], pod.platform[i]) == Some(pod.procs[i].command)
  {
    var s := pb(t);
    OrderAlways(cfg, pod, pb, a, t);
    BuiltProcess(pod, i);
    AllEarlierPosted(s, i);
    forall j | 0 <= j < pod.Size() && s.phases[j] == Executing
      ensures j == i
    {
      AllEarlierPosted(s, j);
    }
  }

  lemma AllEarlierPosted(s: PodState, i: nat)
    requires OrderInv(s) && i < |s.phases| && s.phases[i] == Executing
    ensures forall j :: 0 <= j < i ==>
              FilePlace(Out(j)) in s.files && FilePlace(Err(j)) !in s.files && HasPosted(s.phases[j])
  {
    assert StepInOrder(s, i);
    forall j | 0 <= j < i
      ensures FilePlace(Out(j)) in s.files && FilePlace(Err(j)) !in s.files && HasPosted(s.phases[j])
    {
      EarlierPosted(s, i - 1, j);
    }
  }

  // ----- A mount in the way -----

  lemma {:induction false} Deepest(mounts: seq<Mount>, path: string) returns (g: Mount)
    requires Covered(mounts, path)
    ensures Governs(mounts, g, path)
  {
    var first, rest := mounts[0], mounts[1..];
    assert mounts == [first] + rest;
    g := first;
    if Covered(rest, path) {
      g := Deepest(rest, path);
      if Covers(first, path) && |first.path| > |g.path| {
        g := first;
      }
    }
  }

  // A stat always sees something.
  lemma SomethingSeen(pod: Pod, s: PodState, i: nat, path: string) returns (st: Stat)
    requires pod.Sized() && i < pod.Size()
    ensures Sees(pod, s, i, path, st)
  {
    st := Present(0);
    if Covered(MountsOf(pod, i), path) {
      var m := Deepest(MountsOf(pod, i), path);
      var place := PlaceOf(m, path);
      if path != m.path {
        if IsRunVolume(m.name, pod.Size()) {
          st := if place in s.files then Present(0) else Absent;
        } else if m.name == DOWNWARD_VOLUME {
          st := if place.name == "/ready" then Present(if s.ready then |"READY"| else 0) else Absent;
        }
      }
      assert SeenThrough(pod.Size(), s, m, path, st);
    }
  }

  // Posting always ends, in a file or in the end of the process.
  lemma SomethingPosted(pod: Pod, s: PodState, i: nat, path: string, e: Option<GoError>)
    returns (p: Phase, files: set<Place>)
    requires pod.Sized() && i < pod.Size()
    ensures Posts(pod, s, i, path, e, p, files)
  {
    p, files := Posted(e), s.files;
    if Covered(MountsOf(pod, i), path) {
      var m := Deepest(MountsOf(pod, i), path);
      if m.readOnly {
        p := Exited(1);
      } else {
        files := s.files + {PlaceOf(m, path)};
      }
      assert PostedThrough(pod.Size(), s, m, path, e, p, files);
    }
  }

  /** A process of the pod that has neither exited nor been killed can always move, whatever is mounted. */
  lemma PodNeverStuck(cfg: Config, pod: Pod, s: PodState, i: nat) returns (s': PodState)
    requires Built(pod) && OneWait(pod) && i < pod.Size() == |s.phases|
    requires !s.phases[i].Exited? && s.phases[i] != Dead && (s.phases[i] == StatErr ==> pod.procs[i].waitFiles[0] != "")
    ensures NextPod(cfg, pod, s, Advance(i), s')
  {
    var was, wait := s.phases[i], pod.procs[i].waitFiles[0];
    if was.Returned? {
      var p, files := SomethingPosted(pod, s, i, PostPath(pod.procs[i], was.err), was.err);
      s' := s.(phases := s.phases[i := p], files := files);
    } else {
      var p := NextMove(cfg, pod, s, i);
      s' := s.(phases := s.phases[i := p]);
    }
  }

  lemma NextMove(cfg: Config, pod: Pod, s: PodState, i: nat) returns (p: Phase)
    requires pod.Sized() && OneWait(pod) && i < pod.Size() == |s.phases| && !s.phases[i].Returned?
    requires !s.phases[i].Exited? && s.phases[i] != Dead && (s.phases[i] == StatErr ==> pod.procs[i].waitFiles[0] != "")
    ensures NextPodPhase(cfg, pod, s, i, p)
  {
    var was, wait := s.phases[i], pod.procs[i].waitFiles[0];
    if was.StatPlain? && wait != "" {
      var st := SomethingSeen(pod, s, i, wait);
      p := AfterWait(AfterPlain(st, pod.procs[i].waitFileContent), StatErr);
    } else if was.StatErr? {
      var st := SomethingSeen(pod, s, i, wait + ".err");
      p := AfterWait(AfterErr(st), StatPlain);
    } else {
      p := if was.Starting? then StatPlain
           else if was.StatPlain? then Admitted
           else if was.Admitted? then Executing
           else if was.Executing? then Returned(None)
           else Exited(ExitCode(was.err, pod.procs[i].onError == "continue"));
    }
  }

  // Where the wait is not clear, a mount of another volume can decide about the file waited for.
  lemma OtherGoverns(pod: Pod, i: nat, f: File) returns (m: Mount)
    requires pod.Sized() && Reserved(pod) && i < pod.Size() && f.step < pod.Size() && !ClearAt(pod, i, f)
    ensures Governs(MountsOf(pod, i), m, PathOf(f)) && !IsRunVolume(m.name, pod.Size()) && m.name != DOWNWARD_VOLUME
  {
    var mounts, path, mine := MountsOf(pod, i), PathOf(f), MountFor(i, f.step);
    SingleWriterIff(pod.own[i], pod.creds[i], pod.implicit, i, pod.Size(), f);
    RunMountThere(pod, i, f.step);
    RunMountPlace(i, f);
    assert Covered(mounts, path);
    if o :| Governs(mounts, o, path) && o != mine {
      m := o;
    } else {
      m := Deepest(mounts, path);
    }
    if IsRunVolume(m.name, pod.Size()) {
      OnlyRunMounts(pod, i, m, f);
    }
    NotDownward(pod, i, m, f);
  }

  lemma NotDownward(pod: Pod, i: nat, m: Mount, f: File)
    requires pod.Sized() && Reserved(pod) && i < pod.Size() && m in MountsOf(pod, i) && Covers(m, PathOf(f))
    ensures m.name != DOWNWARD_VOLUME
  {
    MountsIff(pod.own[i], pod.creds[i], pod.implicit, i, pod.Size(), m);
    DownwardIsNoRunVolume(pod.Size());
    assert PathOf(f)[8] == 'r' && DOWNWARD.path[8] == 'd';
    assert !Covers(DOWNWARD, PathOf(f)) by {
      assert (DOWNWARD.path + "/")[8] == 'd';
    }
  }

  // ----- A race -----

  function RacePhase(t: int): Phase {
    if t <= 0 then Starting else if t == 1 then StatPlain else if t == 2 then Admitted else Executing
  }

  // Step i runs ahead until its command executes; with both, step 0 then does the same.
  function RacePhaseOf(i: nat, both: bool, t: nat, k: nat): Phase {
    if k == i then RacePhase(t) else if both && k == 0 then RacePhase(t - 3) else Starting
  }

  function RacePhases(n: nat, i: nat, both: bool, t: nat): (r: seq<Phase>)
    ensures |r| == n && forall k :: 0 <= k < n ==> r[k] == RacePhaseOf(i, both, t, k)
  {
    seq(n, (k: nat) => RacePhaseOf(i, both, t, k))
  }

  function RaceState(n: nat, i: nat, both: bool, t: nat): PodState {
    PodState(RacePhases(n, i, both, t), {}, false, map[])
  }

  function RaceMove(i: nat, both: bool, t: nat): Action {
    if t < 3 then Advance(i) else if both && t < 6 then Advance(0) else Stutter
  }

  function Race(n: nat, i: nat, both: bool): nat -> PodState {
    (t: nat) => RaceState(n, i, both, t)
  }

  function RaceMoves(i: nat, both: bool): nat -> Action {
    (t: nat) => RaceMove(i, both, t)
  }

  lemma AheadPhase(cfg: Config, pod: Pod, s: PodState, i: nat, t: nat)
    requires Built(pod) && OneWait(pod) && 0 < i < pod.Size() == |s.phases| && t < 3 && s.phases[i] == RacePhase(t)
    requires t == 1 ==> Sees(pod, s, i, OutPath(i - 1), Present(0))
    ensures NextPodPhase(cfg, pod, s, i, RacePhase(t + 1))
  {
    BuiltProcess(pod, i);
    assert !pod.procs[i].waitFileContent && pod.procs[i].waitFiles[0] == OutPath(i - 1);
    assert AfterWait(AfterPlain(Present(0), false), StatErr) == Admitted;
  }

  lemma AheadStep(cfg: Config, pod: Pod, i: nat, both: bool, t: nat)
    requires Built(pod) && OneWait(pod) && 0 < i < pod.Size() && t < 3
    requires Sees(pod, RaceState(pod.Size(), i, both, 1), i, OutPath(i - 1), Present(0))
    ensures NextPod(cfg, pod, RaceState(pod.Size(), i, both, t), Advance(i), RaceState(pod.Size(), i, both, t + 1))
  {
    var s, s' := RaceState(pod.Size(), i, both, t), RaceState(pod.Size(), i, both, t + 1);
    AheadPhase(cfg, pod, s, i, t);
    assert s'.phases == s.phases[i := RacePhase(t + 1)];
  }

  lemma FirstStep(cfg: Config, pod: Pod, i: nat, t: nat)
    requires Built(pod) && OneWait(pod) && 0 < i < pod.Size() && 3 <= t < 6 && !pod.options.waitForReady
    ensures NextPod(cfg, pod, RaceState(pod.Size(), i, true, t), Advance(0), RaceState(pod.Size(), i, true, t + 1))
  {
    var s, s' := RaceState(pod.Size(), i, true, t), RaceState(pod.Size(), i, true, t + 1);
    BuiltProcess(pod, 0);
    assert pod.procs[0].waitFiles[0] == "";
    assert s'.phases == s.phases[0 := RacePhase(t - 2)];
    assert NextPodPhase(cfg, pod, s, 0, s'.phases[0]);
  }

  lemma OneWaitEach(pod: Pod)
    requires Built(pod)
    ensures OneWait(pod)
  {
    forall i | 0 <= i < pod.Size()
      ensures |pod.procs[i].waitFiles| == 1
    {
      BuiltProcess(pod, i);
    }
  }

  lemma RaceIsRun(cfg: Config, pod: Pod, i: nat, both: bool)
    requires Built(pod) && 0 < i < pod.Size() && (both ==> !pod.options.waitForReady)
    requires Sees(pod, RaceState(pod.Size(), i, both, 1), i, OutPath(i - 1), Present(0))
    ensures PodRun(cfg, pod, Race(pod.Size(), i, both), RaceMoves(i, both))
  {
    var pb, a := Race(pod.Size(), i, both), RaceMoves(i, both);
    OneWaitEach(pod);
    forall t: nat
      ensures PodStepAt(cfg, pod, pb, a, t)
    {
      if t < 3 {
        AheadStep(cfg, pod, i, both, t);
      } else if both && t < 6 {
        FirstStep(cfg, pod, i, t);
      } else {
        assert RacePhases(pod.Size(), i, both, t + 1) == RacePhases(pod.Size(), i, both, t);
      }
    }
    assert pb(0).phases == Begin(pod.Size(), map[]).phases;
  }

  // ----- The exact condition -----

  lemma ObstructedRaces(pod: Pod, i: nat, both: bool)
    requires Built(pod) && Reserved(pod) && 0 < i < pod.Size() && !ClearAt(pod, i, Out(i - 1))
    ensures Sees(pod, RaceState(pod.Size(), i, both, 1), i, OutPath(i - 1), Present(0))
  {
    var f := Out(i - 1);
    var m := OtherGoverns(pod, i, f);
    assert SeenThrough(pod.Size(), RaceState(pod.Size(), i, both, 1), m, PathOf(f), Present(0));
  }

  lemma RaceOutOfOrder(n: nat, i: nat, both: bool)
    requires 0 < i < n
    ensures RaceState(n, i, both, 3).phases[i] == Executing && RaceState(n, i, both, 3).phases[0] == Starting
    ensures !RunInOrder(Race(n, i, both))
  {
    var pb := Race(n, i, both);
    var s := RaceState(n, i, both, 3);
    assert s.phases[i] == RacePhaseOf(i, both, 3, i) && s.phases[0] == RacePhaseOf(i, both, 3, 0);
    assert pb(3) == s && !HasPosted(s.phases[0]);
    assert !CommandsInOrder(pb(3));
  }

  lemma ClearMeansInOrder(cfg: Config, pod: Pod, pb: nat -> PodState, a: nat -> Action)
    requires Built(pod) && Reserved(pod) && WaitsClear(pod) && PodRun(cfg, pod, pb, a)
    ensures RunInOrder(pb)
  {
    forall t: nat
      ensures CommandsInOrder(pb(t))
    {
      OrderAlways(cfg, pod, pb, a, t);
      forall i, j | 0 <= j < i < |pb(t).phases| && pb(t).phases[i] == Executing
        ensures HasPosted(pb(t).phases[j])
      {
        AllEarlierPosted(pb(t), i);
      }
    }
  }

  /** The commands of a pod run in order in every run, whatever its other volumes hold, if and only if in every step's
      container no other mount covers the post file waited for at the depth of its run mount or deeper. */
  lemma OrderIff(pod: Pod)
    requires Built(pod) && Reserved(pod)
    ensures AlwaysInOrder(pod) <==> WaitsClear(pod)
  {
    if WaitsClear(pod) {
      forall cfg: Config, pb: nat -> PodState, a: nat -> Action | Fits(cfg, pod) && PodRun(cfg, pod, pb, a)
        ensures RunInOrder(pb)
      {
        ClearMeansInOrder(cfg, pod, pb, a);
      }
    } else {
      var i :| 0 <= i < pod.Size() && !WaitClear(pod, i);
      var cfg := ConfigOf(pod, false, false, false, false);
      ObstructedRaces(pod, i, false);
      RaceIsRun(cfg, pod, i, false);
      RaceOutOfOrder(pod.Size(), i, false);
      assert Fits(cfg, pod);
    }
  }

  // Step validation keeps the steps' own mounts out of the run directory; where every other mount keeps out of it too,
  // all the waits are clear.
  lemma KeptOutIsClear(pod: Pod)
    requires pod.Sized()
    requires forall i, m :: 0 <= i < pod.Size() && m in pod.own[i] + Creds(pod.creds[i]) + pod.implicit ==>
                              OutsideRun(m)
    ensures WaitsClear(pod)
  {
    forall i | 0 < i < pod.Size()
      ensures WaitClear(pod, i)
    {
      SingleWriter(pod.own[i], pod.creds[i], pod.implicit, i, pod.Size(), Out(i - 1));
      SingleWriterIff(pod.own[i], pod.creds[i], pod.implicit, i, pod.Size(), Out(i - 1));
    }
  }

  // ----- A workspace in the way -----

  ghost predicate TrespassedOn(pod: Pod, b: WS.Binding, v: map<string, WS.Volume>)
    requires pod.Sized()
  {
    && b.name == "ws"
    && forall i :: 0 <= i < pod.Size() ==> pod.own[i] == FromWorkspaces(WM.TemplateAdded(Trespasser(), [b], v))
  }

  // A mount point is all that a stat of its path can see.
  lemma MountPointSeen(pod: Pod, s: PodState, i: nat, m: Mount, st: Stat)
    requires pod.Sized() && i < pod.Size() && m in MountsOf(pod, i)
    ensures Sees(pod, s, i, m.path, st) <==> st.Present?
  {
    CoversNoDeeper(MountsOf(pod, i), m);
    assert Covered(MountsOf(pod, i), m.path);
    assert SeenThrough(pod.Size(), s, m, m.path, st) <==> st.Present?;
    forall o | Governs(MountsOf(pod, i), o, m.path)
      ensures o.path == m.path
    {
      SameDepth(m, o, m.path);
    }
  }

  // With a workspace at the path of step 0's post file, step 1 finds the file there whatever has been posted.
  lemma TrespasserSeen(pod: Pod, b: WS.Binding, v: map<string, WS.Volume>, s: PodState, st: Stat)
    requires pod.Sized() && pod.Size() >= 2 && TrespassedOn(pod, b, v)
    ensures Sees(pod, s, 1, OutPath(0), st) <==> st.Present?
  {
    WorkspaceTakesPostFile(b, v, pod.creds[1], pod.implicit, 1, pod.Size());
    var m :| m in pod.own[1] && m.path == PathOf(Out(0)) && Governs(MountsOf(pod, 1), m, PathOf(Out(0)));
    MountPointSeen(pod, s, 1, m, st);
  }

  /** In a pod whose task declares a workspace at the path of step 0's post file, the commands of steps 0 and 1 run at
      the same time in some run, without any fault and whatever the volume holds. */
  lemma TrespasserRaces(pod: Pod, b: WS.Binding, v: map<string, WS.Volume>)
    requires Built(pod) && pod.Size() >= 2 && !pod.options.waitForReady && TrespassedOn(pod, b, v)
    ensures var pb := Race(pod.Size(), 1, true);
      && PodRun(ConfigOf(pod, false, false, false, false), pod, pb, RaceMoves(1, true))
      && pb(6).phases[0] == Executing && pb(6).phases[1] == Executing
  {
    TrespasserSeen(pod, b, v, RaceState(pod.Size(), 1, true, 1), Present(0));
    RaceIsRun(ConfigOf(pod, false, false, false, false), pod, 1, true);
    assert Race(pod.Size(), 1, true)(6) == RaceState(pod.Size(), 1, true, 6);
  }

  // Containers with a plain command and no task spec become processes.
  lemma PlainIsBuilt(pod: Pod, c: Container)
    requires pod.Sized() && c.command != [] && c.command[0] != "" && c.command[0] != TERMINATOR
    requires pod.options == Options([], None, Breakpoints(false, {}), pod.options.waitForReady)
    requires forall i :: 0 <= i < pod.Size() ==>
               pod.containers[i] == c && pod.procs[i] == Intended(pod.options, i, c, c.command + c.args)
    ensures Built(pod)
  {
    forall i | 0 <= i < pod.Size()
      ensures Decode(OrderedArgs(pod.options, i, pod.containers[i]), pod.platform[i]) == Some(pod.procs[i])
      ensures AllFree(SpecOf(pod.options, i).results, ',')
    {
      DecodedIff(pod.options, i, c, pod.platform[i]);
    }
  }

  // Two steps that each have a command, and a workspace at the path of step 0's post file.
  function TrespasserPod(o: Options, c: Container, b: WS.Binding, v: map<string, WS.Volume>): Pod {
    var mounts := FromWorkspaces(WM.TemplateAdded(Trespasser(), [b], v));
    var command := c.command + c.args;
    Pod(o, [c, c], [None, None], [Intended(o, 0, c, command), Intended(o, 1, c, command)], [mounts, mounts],
        [None, None], [])
  }

  lemma TrespasserPodIs(c: Container, b: WS.Binding, v: map<string, WS.Volume>)
    requires c.command != [] && c.command[0] != "" && c.command[0] != TERMINATOR && b.name == "ws"
    ensures var pod := TrespasserPod(Options([], None, Breakpoints(false, {}), false), c, b, v);
      Built(pod) && pod.Size() == 2 && !pod.options.waitForReady && TrespassedOn(pod, b, v)
  {
    PlainIsBuilt(TrespasserPod(Options([], None, Breakpoints(false, {}), false), c, b, v), c);
  }

  /** Two steps with any one command and such a workspace, and no more: the commands run at the same time. */
  lemma TwoCommandsAtOnce(c: Container, b: WS.Binding, v: map<string, WS.Volume>)
    returns (pod: Pod, cfg: Config, pb: nat -> PodState, a: nat -> Action)
    requires c.command != [] && c.command[0] != "" && c.command[0] != TERMINATOR && b.name == "ws"
    ensures pod == TrespasserPod(Options([], None, Breakpoints(false, {}), false), c, b, v)
    ensures Built(pod) && Fits(cfg, pod) && PodRun(cfg, pod, pb, a) && pb(6).phases == [Executing, Executing]
  {
    TrespasserPodIs(c, b, v);
    pod := TrespasserPod(Options([], None, Breakpoints(false, {}), false), c, b, v);
    cfg, pb, a := ConfigOf(pod, false, false, false, false), Race(2, 1, true), RaceMoves(1, true);
    TrespasserRaces(pod, b, v);
    BothRace();
  }

  lemma BothRace()
    ensures Race(2, 1, true)(6).phases == [Executing, Executing]
  {
    var s := RaceState(2, 1, true, 6);
    assert s.phases[0] == RacePhaseOf(1, true, 6, 0) && s.phases[1] == RacePhaseOf(1, true, 6, 1);
  }
}
