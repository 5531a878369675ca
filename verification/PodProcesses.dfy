/**
 The processes that the controller's containers become, on real file paths. Every process stats and writes its files
 through the volume mounts of its own container. Where no mount is in the way of the post files, the processes implement
 the step protocol, and what the protocol promises holds of them.
 */
module PodProcesses {
  import opened Wrappers
  import opened Text
  import opened Entrypoint
  import opened StepProtocol
  import opened CommandLine
  import opened CommandLineRoundTrip
  import opened PostPaths
  import opened RunVolumes

  // ----- Pods -----

  // The containers of the steps, the commands the platform gives them, the processes they become, and the mounts that
  // each has before the run mounts are added.
  datatype Pod = Pod(options: Options, containers: seq<Container>, platform: seq<Option<seq<string>>>,
                     procs: seq<Process>, own: seq<seq<Mount>>, creds: seq<Option<Mount>>, implicit: seq<Mount>)
  {
    function Size(): nat { |procs| }

    predicate Sized() {
      |containers| == |platform| == |procs| == |own| == |creds|
    }
  }

  function MountsOf(pod: Pod, i: nat): seq<Mount>
    requires pod.Sized() && i < pod.Size()
  {
    StepMounts(pod.own[i], pod.creds[i], pod.implicit, i, pod.Size())
  }

  // Process i is what the entrypoint makes of the arguments orderContainers gave container i. The result names survive
  // being joined with commas, and there are no breakpoints.
  ghost predicate Built(pod: Pod) {
    && pod.Sized() && pod.options.breakpoints == Breakpoints(false, {})
    && ProperExtra(pod.options.extra) && AllFree(ResultNames(TaskResults(pod.options)), ',')
    && (forall i :: 0 <= i < pod.Size() ==> AllFree(SpecOf(pod.options, i).results, ','))
    && (forall i :: 0 <= i < pod.Size() ==>
          Decode(OrderedArgs(pod.options, i, pod.containers[i]), pod.platform[i]) == Some(pod.procs[i]))
  }

  lemma BuiltProcess(pod: Pod, i: nat)
    requires Built(pod) && i < pod.Size()
    ensures var program := Program(pod.containers[i], pod.platform[i]);
      program.Some? && pod.procs[i] == Intended(pod.options, i, pod.containers[i], program.value)
  {
    DecodedIff(pod.options, i, pod.containers[i], pod.platform[i]);
  }

  ghost predicate IsRunVolume(name: string, n: nat) {
    exists w: nat :: w < n && name == RunVolumeName(w)
  }

  // ----- Files, through mounts -----

  // A file of a volume, by what follows the mount path in its own path.
  datatype Place = Place(volume: string, name: string)

  // The files are those that the steps of the pod have posted.
  datatype PodState = PodState(phases: seq<Phase>, files: set<Place>, ready: bool, results: map<string, string>)

  const DOWNWARD_VOLUME := "tekton-internal-downward"
  const DOWNWARD := Mount(DOWNWARD_VOLUME, "/tekton/downward", true)

  // The run volumes and the downward volume are mounted by the controller only: step validation refuses mounts of
  // volumes with such reserved names.
  ghost predicate Reserved(pod: Pod)
    requires pod.Sized()
  {
    forall i, m :: 0 <= i < pod.Size() && m in pod.own[i] + Creds(pod.creds[i]) + pod.implicit ==>
                     !IsRunVolume(m.name, pod.Size()) && (m.name == DOWNWARD_VOLUME ==> m == DOWNWARD)
  }

  function PlaceOf(m: Mount, path: string): Place
    requires Covers(m, path)
  {
    Place(m.name, path[|m.path|..])
  }

  // What a stat through mount m sees in a pod of n steps. A mount point is there. The run volumes hold what was posted.
  // The downward volume holds the ready annotation. Any other volume may hold anything.
  ghost predicate SeenThrough(n: nat, s: PodState, m: Mount, path: string, st: Stat)
    requires Covers(m, path)
  {
    var place := PlaceOf(m, path);
    if path == m.path then st.Present?
    else if IsRunVolume(m.name, n) then st == if place in s.files then Present(0) else Absent
    else if m.name == DOWNWARD_VOLUME then
      st == if place.name == "/ready" then Present(if s.ready then |"READY"| else 0) else Absent
    else !st.Failed?
  }

  ghost predicate Covered(mounts: seq<Mount>, path: string) {
    exists m :: m in mounts && Covers(m, path)
  }

  // Where no mount covers the path, the image decides.
  ghost predicate Sees(pod: Pod, s: PodState, i: nat, path: string, st: Stat)
    requires pod.Sized() && i < pod.Size()
  {
    if Covered(MountsOf(pod, i), path)
    then exists m :: Governs(MountsOf(pod, i), m, path) && SeenThrough(pod.Size(), s, m, path, st)
    else !st.Failed?
  }

  // Writing the post file of a step that returned e through mount m. A write that fails ends the process. It fails on a
  // read-only mount; on a volume that is not a run volume it may.
  ghost predicate PostedThrough(n: nat, s: PodState, m: Mount, path: string, e: Option<GoError>, p: Phase,
                                files: set<Place>)
    requires Covers(m, path)
  {
    || (p == Posted(e) && !m.readOnly && files == s.files + {PlaceOf(m, path)})
    || (p == Exited(1) && (m.readOnly || !IsRunVolume(m.name, n)) && files == s.files)
  }

  ghost predicate Posts(pod: Pod, s: PodState, i: nat, path: string, e: Option<GoError>, p: Phase, files: set<Place>)
    requires pod.Sized() && i < pod.Size()
  {
    if Covered(MountsOf(pod, i), path)
    then exists m :: Governs(MountsOf(pod, i), m, path) && PostedThrough(pod.Size(), s, m, path, e, p, files)
    else (p == Posted(e) || p == Exited(1)) && files == s.files
  }

  // ----- The steps of the processes -----

  predicate Faults(cfg: Config, p: Phase, onFault: Phase) {
    cfg.statFaults && p == onFault
  }

  // A phase but the writing of the post file.
  ghost predicate NextPodPhase(cfg: Config, pod: Pod, s: PodState, i: nat, p: Phase)
    requires pod.Sized() && i < pod.Size() == |s.phases| && |pod.procs[i].waitFiles| == 1
  {
    var wait := pod.procs[i].waitFiles[0];
    var content := pod.procs[i].waitFileContent;
    match s.phases[i]
    case Starting => p == StatPlain || (cfg.mkdirFaults && p == Exited(1))
    case StatPlain =>
      if wait == "" then p == Admitted
      else || (exists st :: Sees(pod, s, i, wait, st) && p == AfterWait(AfterPlain(st, content), StatErr))
           || Faults(cfg, p, AfterWait(AfterPlain(Failed, content), StatErr))
    case StatErr =>
      && wait != ""
      && (|| (exists st :: Sees(pod, s, i, wait + ".err", st) && p == AfterWait(AfterErr(st), StatPlain))
          || Faults(cfg, p, AfterWait(AfterErr(Failed), StatPlain)))
    case Admitted => p == Executing || p == Returned(Some(OtherError)) || p == Returned(None)
    case Executing => p.Returned? && RunOutcome(p.err)
    case Returned(_) => false
    case Posted(e) =>
      p == Exited(ExitCode(e, pod.procs[i].onError == "continue")) || (cfg.messageFaults && p == Exited(1))
    case Exited(_) => false
    case Dead => false
  }

  function PostPath(proc: Process, e: Option<GoError>): string {
    if WritesErr(e, proc.onError == "continue") then proc.postFile + ".err" else proc.postFile
  }

  predicate OneWait(pod: Pod) {
    forall i :: 0 <= i < |pod.procs| ==> |pod.procs[i].waitFiles| == 1
  }

  ghost predicate AdvancePod(cfg: Config, pod: Pod, s: PodState, i: nat, p: Phase, files: set<Place>)
    requires pod.Sized() && OneWait(pod) && i < pod.Size() == |s.phases|
  {
    match s.phases[i]
    case Returned(e) => Posts(pod, s, i, PostPath(pod.procs[i], e), e, p, files)
    case _ => NextPodPhase(cfg, pod, s, i, p) && files == s.files
  }

  ghost predicate NextPod(cfg: Config, pod: Pod, s: PodState, a: Action, s': PodState)
    requires pod.Sized() && OneWait(pod) && pod.Size() == |s.phases|
  {
    match a
    case Advance(i) =>
      && i < pod.Size() && |s'.phases| == |s.phases|
      && AdvancePod(cfg, pod, s, i, s'.phases[i], s'.files)
      && s'.phases == s.phases[i := s'.phases[i]]
      && s'.ready == s.ready && s'.results == s.results
    case CommandWrites(i, name, value) =>
      i < pod.Size() && s.phases[i] == Executing && s' == s.(results := s.results[name := value])
    case Crash(i) =>
      cfg.crashes && i < pod.Size() && !s.phases[i].Exited? && s' == s.(phases := s.phases[i := Dead])
    case SidecarsReady => s' == s.(ready := true)
    case Stutter => s' == s
  }

  function Begin(n: nat, results: map<string, string>): PodState {
    PodState(seq(n, (i: nat) => Starting), {}, false, results)
  }

  ghost predicate PodStepAt(cfg: Config, pod: Pod, pb: nat -> PodState, a: nat -> Action, t: nat)
    requires pod.Sized() && OneWait(pod)
  {
    |pb(t).phases| == pod.Size() && NextPod(cfg, pod, pb(t), a(t), pb(t + 1))
  }

  ghost predicate PodRun(cfg: Config, pod: Pod, pb: nat -> PodState, a: nat -> Action) {
    && pod.Sized() && OneWait(pod)
    && pb(0) == Begin(pod.Size(), pb(0).results)
    && (forall t: nat :: PodStepAt(cfg, pod, pb, a, t))
  }

  // ----- Post files in their run volumes -----

  function Leaf(f: File): string {
    if f.Out? then "out" else "out.err"
  }

  function FilePlace(f: File): Place {
    Place(RunVolumeName(f.step), "/" + Leaf(f))
  }

  lemma PathOfLeaf(f: File)
    ensures PathOf(f) == RunPath(f.step, Leaf(f))
  {
  }

  lemma FilePlaceInjective(f: File, g: File)
    requires FilePlace(f) == FilePlace(g)
    ensures f == g
  {
    var a, b := RunVolumeName(f.step), RunVolumeName(g.step);
    assert a[20..] == Numeral(f.step) && b[20..] == Numeral(g.step);
    NumeralInjective(f.step, g.step);
    assert |"/" + Leaf(f)| == if f.Out? then 4 else 8;
    assert |"/" + Leaf(g)| == if g.Out? then 4 else 8;
  }

  lemma RunMountPlace(i: nat, f: File)
    ensures Covers(MountFor(i, f.step), PathOf(f)) && PathOf(f) != MountFor(i, f.step).path
    ensures PlaceOf(MountFor(i, f.step), PathOf(f)) == FilePlace(f)
  {
    PathOfLeaf(f);
    RunDirCovers(f.step, Leaf(f), f.step);
    var dir := RunDir(f.step);
    assert PathOf(f) == dir + ("/" + Leaf(f));
    assert PathOf(f)[|dir|..] == "/" + Leaf(f);
  }

  lemma FilePlaceIsRun(f: File, n: nat)
    requires f.step < n
    ensures IsRunVolume(FilePlace(f).volume, n)
  {
  }

  // A mount of a run volume that covers a post file is that step's run mount.
  lemma OnlyRunMounts(pod: Pod, i: nat, m: Mount, f: File)
    requires pod.Sized() && Reserved(pod) && i < pod.Size() && f.step < pod.Size()
    requires m in MountsOf(pod, i) && IsRunVolume(m.name, pod.Size()) && Covers(m, PathOf(f))
    ensures m == MountFor(i, f.step)
  {
    MountsIff(pod.own[i], pod.creds[i], pod.implicit, i, pod.Size(), m);
    assert m !in pod.own[i] + Creds(pod.creds[i]) + pod.implicit;
    var j :| 0 <= j < pod.Size() && m == MountFor(i, j);
    PathOfLeaf(f);
    RunDirCovers(f.step, Leaf(f), j);
  }

  lemma RunMountThere(pod: Pod, i: nat, w: nat)
    requires pod.Sized() && i < pod.Size() && w < pod.Size()
    ensures MountFor(i, w) in MountsOf(pod, i)
  {
    MountsIff(pod.own[i], pod.creds[i], pod.implicit, i, pod.Size(), MountFor(i, w));
  }

  // ----- Clear mounts -----

  ghost predicate ClearAt(pod: Pod, i: nat, f: File)
    requires pod.Sized() && i < pod.Size()
  {
    Unobstructed(pod.own[i], pod.creds[i], pod.implicit, i, f.step, PathOf(f))
  }

  // Through clear mounts a post file is seen where its step posts it.
  lemma ClearSees(pod: Pod, s: PodState, i: nat, f: File, st: Stat)
    requires pod.Sized() && i < pod.Size() && f.step < pod.Size() && ClearAt(pod, i, f)
    requires Sees(pod, s, i, PathOf(f), st)
    ensures st == if FilePlace(f) in s.files then Present(0) else Absent
  {
    SingleWriterIff(pod.own[i], pod.creds[i], pod.implicit, i, pod.Size(), f);
    var mine := MountFor(i, f.step);
    assert Governs(MountsOf(pod, i), mine, PathOf(f));
    RunMountPlace(i, f);
    FilePlaceIsRun(f, pod.Size());
  }

  lemma ClearPosts(pod: Pod, s: PodState, f: File, e: Option<GoError>, p: Phase, files: set<Place>)
    requires pod.Sized() && f.step < pod.Size() && ClearAt(pod, f.step, f)
    requires Posts(pod, s, f.step, PathOf(f), e, p, files)
    ensures p == Posted(e) && files == s.files + {FilePlace(f)}
  {
    SingleWriterIff(pod.own[f.step], pod.creds[f.step], pod.implicit, f.step, pod.Size(), f);
    var mine := MountFor(f.step, f.step);
    assert Governs(MountsOf(pod, f.step), mine, PathOf(f));
    RunMountPlace(f.step, f);
    FilePlaceIsRun(f, pod.Size());
  }

  ghost predicate OnlyDownward(mounts: seq<Mount>, path: string) {
    forall m :: Governs(mounts, m, path) <==> m == DOWNWARD
  }

  // Every step sees the post files that it waits for, and writes its own, in the run volumes; and step 0 sees the ready
  // file, if it waits for it, in the downward volume.
  ghost predicate Clear(pod: Pod)
    requires pod.Sized()
  {
    && (forall i, f: File :: 0 <= i < pod.Size() && (f.step == i || f.step + 1 == i) ==> ClearAt(pod, i, f))
    && (pod.options.waitForReady && pod.Size() > 0 ==>
          OnlyDownward(MountsOf(pod, 0), READY_FILE) && OnlyDownward(MountsOf(pod, 0), READY_FILE + ".err"))
  }

  lemma ReadySees(pod: Pod, s: PodState, st: Stat, err: Stat)
    requires pod.Sized() && Clear(pod) && pod.options.waitForReady && pod.Size() > 0
    ensures Sees(pod, s, 0, READY_FILE, st) ==> st == Present(if s.ready then |"READY"| else 0)
    ensures Sees(pod, s, 0, READY_FILE + ".err", err) ==> err == Absent
  {
    var mounts := MountsOf(pod, 0);
    assert Governs(mounts, DOWNWARD, READY_FILE) && Governs(mounts, DOWNWARD, READY_FILE + ".err");
    DownwardIsNoRunVolume(pod.Size());
    assert READY_FILE[|DOWNWARD.path|..] == "/ready";
    assert (READY_FILE + ".err")[|DOWNWARD.path|..] == "/ready.err";
  }

  lemma DownwardIsNoRunVolume(n: nat)
    ensures !IsRunVolume(DOWNWARD_VOLUME, n)
  {
    forall w: nat
      ensures RunVolumeName(w) != DOWNWARD_VOLUME
    {
      assert RunVolumeName(w)[16] == 'r' && DOWNWARD_VOLUME[16] == 'd';
    }
  }

  // ----- Refinement -----

  function ConfigOf(pod: Pod, statFaults: bool, mkdirFaults: bool, crashes: bool, messageFaults: bool): Config {
    Config(seq(pod.Size(), (i: nat) => SpecOf(pod.options, i).onError == "continue"), pod.options.waitForReady,
           statFaults, mkdirFaults, crashes, messageFaults)
  }

  predicate Fits(cfg: Config, pod: Pod) {
    cfg == ConfigOf(pod, cfg.statFaults, cfg.mkdirFaults, cfg.crashes, cfg.messageFaults)
  }

  function PostFiles(n: nat): (r: set<File>)
    ensures forall f :: f in r <==> f.step < n
  {
    if n == 0 then {} else PostFiles(n - 1) + {Out(n - 1), Err(n - 1)}
  }

  function Abstract(s: PodState): State {
    State(s.phases, (set f | f in PostFiles(|s.phases|) && FilePlace(f) in s.files), s.ready, s.results)
  }

  lemma PostAgrees(s: PodState, f: File)
    requires f.step < |s.phases|
    ensures Abstract(s.(files := s.files + {FilePlace(f)})).files == Abstract(s).files + {f}
  {
    var s' := s.(files := s.files + {FilePlace(f)});
    forall g | g in PostFiles(|s.phases|)
      ensures g in Abstract(s').files <==> g in Abstract(s).files + {f}
    {
      if FilePlace(g) == FilePlace(f) {
        FilePlaceInjective(f, g);
      }
    }
  }

  lemma StatAgrees(pod: Pod, s: PodState, i: nat, st: Stat, err: Stat)
    requires pod.Sized() && Clear(pod) && i < pod.Size() == |s.phases| && WaitPath(i, pod.options.waitForReady) != ""
    ensures Sees(pod, s, i, WaitPath(i, pod.options.waitForReady), st) ==> st == PlainStat(Abstract(s), i)
    ensures Sees(pod, s, i, WaitPath(i, pod.options.waitForReady) + ".err", err) ==> err == ErrStat(Abstract(s), i)
  {
    var wait := WaitPath(i, pod.options.waitForReady);
    if i > 0 {
      var out, bad := Out(i - 1), Err(i - 1);
      assert wait == PathOf(out) && wait + ".err" == PathOf(bad);
      assert out in PostFiles(|s.phases|) && bad in PostFiles(|s.phases|);
      assert ClearAt(pod, i, out) && ClearAt(pod, i, bad);
      if Sees(pod, s, i, wait, st) {
        ClearSees(pod, s, i, out, st);
      }
      if Sees(pod, s, i, wait + ".err", err) {
        ClearSees(pod, s, i, bad, err);
      }
    } else {
      ReadySees(pod, s, st, err);
    }
  }

  lemma PlainStatRefines(cfg: Config, pod: Pod, s: PodState, i: nat, p: Phase)
    requires Built(pod) && Clear(pod) && Fits(cfg, pod) && OneWait(pod) && i < pod.Size() == |s.phases|
    requires s.phases[i] == StatPlain && NextPodPhase(cfg, pod, s, i, p)
    ensures NextPhase(cfg, Abstract(s), i, p)
  {
    BuiltProcess(pod, i);
    var wait, content := WaitPath(i, pod.options.waitForReady), pod.procs[i].waitFileContent;
    PathsNonEmpty(i, pod.options.waitForReady);
    if wait != "" && !Faults(cfg, p, AfterWait(AfterPlain(Failed, content), StatErr)) {
      var st :| Sees(pod, s, i, wait, st) && p == AfterWait(AfterPlain(st, content), StatErr);
      StatAgrees(pod, s, i, st, st);
    }
  }

  lemma ErrStatRefines(cfg: Config, pod: Pod, s: PodState, i: nat, p: Phase)
    requires Built(pod) && Clear(pod) && Fits(cfg, pod) && OneWait(pod) && i < pod.Size() == |s.phases|
    requires s.phases[i] == StatErr && NextPodPhase(cfg, pod, s, i, p)
    ensures NextPhase(cfg, Abstract(s), i, p)
  {
    BuiltProcess(pod, i);
    var wait := WaitPath(i, pod.options.waitForReady);
    if !Faults(cfg, p, AfterWait(AfterErr(Failed), StatPlain)) {
      var st :| Sees(pod, s, i, wait + ".err", st) && p == AfterWait(AfterErr(st), StatPlain);
      StatAgrees(pod, s, i, st, st);
    }
  }

  lemma PhaseRefines(cfg: Config, pod: Pod, s: PodState, i: nat, p: Phase)
    requires Built(pod) && Clear(pod) && Fits(cfg, pod) && OneWait(pod) && i < pod.Size() == |s.phases|
    requires NextPodPhase(cfg, pod, s, i, p)
    ensures NextPhase(cfg, Abstract(s), i, p)
  {
    if s.phases[i] == StatPlain {
      PlainStatRefines(cfg, pod, s, i, p);
    } else if s.phases[i] == StatErr {
      ErrStatRefines(cfg, pod, s, i, p);
    } else {
      BuiltProcess(pod, i);
      assert cfg.continues[i] == (pod.procs[i].onError == "continue");
    }
  }

  /** Every step of the pod's processes is a step of the protocol. */
  lemma PodStepRefines(cfg: Config, pod: Pod, s: PodState, a: Action, s': PodState)
    requires Built(pod) && Clear(pod) && Fits(cfg, pod) && OneWait(pod) && pod.Size() == |s.phases|
    requires NextPod(cfg, pod, s, a, s')
    ensures Next(cfg, Abstract(s), a, Abstract(s')) && |s'.phases| == |s.phases|
  {
    if a.Advance? {
      var i := a.step;
      if s.phases[i].Returned? {
        BuiltProcess(pod, i);
        var e := s.phases[i].err;
        var f := StepProtocol.PostFile(cfg, i, e);
        assert cfg.continues[i] == (pod.procs[i].onError == "continue");
        assert PathOf(f) == PostPath(pod.procs[i], e) && ClearAt(pod, i, f);
        ClearPosts(pod, s, f, e, s'.phases[i], s'.files);
        PostAgrees(s, f);
      } else {
        PhaseRefines(cfg, pod, s, i, s'.phases[i]);
      }
    }
  }

  function AbstractRun(pb: nat -> PodState): nat -> State {
    (t: nat) => Abstract(pb(t))
  }

  lemma PodRunRefines(cfg: Config, pod: Pod, pb: nat -> PodState, a: nat -> Action)
    requires Built(pod) && Clear(pod) && Fits(cfg, pod) && PodRun(cfg, pod, pb, a)
    ensures Behaviour(cfg, AbstractRun(pb), a)
  {
    var b := AbstractRun(pb);
    forall t: nat
      ensures |b(t).phases| == cfg.Steps() && Next(cfg, b(t), a(t), b(t + 1))
    {
      assert PodStepAt(cfg, pod, pb, a, t);
      PodStepRefines(cfg, pod, pb(t), a(t), pb(t + 1));
    }
  }

  /**
   End to end: in every run of the processes that orderContainers' argument lists decode to, in a pod with clear mounts,
   once step k has posted ".err" into its run volume, no later step ever runs its command or posts a plain "out".
   */
  lemma PodFailStop(cfg: Config, pod: Pod, pb: nat -> PodState, a: nat -> Action, t: nat, u: nat, k: nat, j: nat)
    requires Built(pod) && Clear(pod) && Fits(cfg, pod) && PodRun(cfg, pod, pb, a)
    requires t <= u && k < j < pod.Size() && FilePlace(Err(k)) in pb(t).files
    ensures |pb(u).phases| == pod.Size() && pb(u).phases[j] != Executing && FilePlace(Out(j)) !in pb(u).files
  {
    PodRunRefines(cfg, pod, pb, a);
    var b := AbstractRun(pb);
    assert Err(k) in PostFiles(pod.Size()) && Out(j) in PostFiles(pod.Size());
    assert Err(k) in b(t).files;
    FailStop(cfg, b, a, t, u, k, j);
  }

  /** End to end: the container of a step whose command ended with a status of its own exits with 0 if the task says of
      this step that it continues on errors, and otherwise with exactly that status, or with 255 after a signal; unless
      it is killed or fails over its termination message. */
  lemma PodExitTellsStatus(cfg: Config, pod: Pod, pb: nat -> PodState, a: nat -> Action, t: nat, u: nat, i: nat,
                           status: int)
    requires Built(pod) && Clear(pod) && Fits(cfg, pod) && PodRun(cfg, pod, pb, a) && !cfg.messageFaults
    requires t <= u && i < pod.Size() && i < |pb(t).phases| && i < |pb(u).phases|
    requires pb(t).phases[i] == Posted(Some(ExitError(status))) && pb(u).phases[i].Exited?
    ensures var task := pod.options.task;
      pb(u).phases[i].code ==
        if task.Some? && i < |task.value.steps| && task.value.steps[i].onError == "continue" then 0
        else if status == -1 then 255 else status
  {
    PodRunRefines(cfg, pod, pb, a);
    ExitTellsStatus(cfg, AbstractRun(pb), a, t, u, i, status);
  }

  /** There no command runs before the sidecars are ready, where the pod waits for them. */
  lemma PodWaitsForSidecars(cfg: Config, pod: Pod, pb: nat -> PodState, a: nat -> Action, t: nat, i: nat)
    requires Built(pod) && Clear(pod) && Fits(cfg, pod) && PodRun(cfg, pod, pb, a) && pod.options.waitForReady
    requires i < |pb(t).phases| && pb(t).phases[i] == Executing
    ensures pb(t).ready
  {
    PodRunRefines(cfg, pod, pb, a);
    assert PodStepAt(cfg, pod, pb, a, t);
    CommandsWaitForSidecars(cfg, AbstractRun(pb), a, t, i);
  }
}
