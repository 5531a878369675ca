/** The /tekton/run volumes of a pod: every step may write into its own one only. */
module RunVolumes {
  import opened Wrappers
  import opened Text
  import opened CommandLine
  import opened StepProtocol
  import opened PostPaths
  import WS = Workspaces
  import WM = WorkspaceMounts

  datatype Mount = Mount(name: string, path: string, readOnly: bool)

  function RunVolumeName(j: nat): string {
    "tekton-internal-run-" + Numeral(j)
  }

  function RunDir(j: nat): string {
    "/tekton/run/" + Numeral(j)
  }

  function RunMount(j: nat, readOnly: bool): Mount {
    Mount(RunVolumeName(j), RunDir(j), readOnly)
  }

  // ----- Building the mounts -----

  // Step i's mount of run volume j: its own one is writable.
  function MountFor(i: nat, j: nat): Mount {
    RunMount(j, i != j)
  }

  // The run mounts of step i, for the first n steps of the pod.
  function RunMounts(i: nat, n: nat): seq<Mount> {
    seq(n, (j: nat) => MountFor(i, j))
  }

  predicate Requested(mounts: seq<Mount>, path: string) {
    exists k :: 0 <= k < |mounts| && mounts[k].path == path
  }

  // The implicit mounts whose path the step does not use itself.
  function Unrequested(implicit: seq<Mount>, mounts: seq<Mount>): (r: seq<Mount>)
    ensures forall m :: m in r ==> m in implicit
  {
    if implicit == [] then []
    else (if Requested(mounts, implicit[0].path) then [] else [implicit[0]]) + Unrequested(implicit[1..], mounts)
  }

  function Creds(creds: Option<Mount>): seq<Mount> {
    if creds.Some? then [creds.value] else []
  }

  function StepMounts(own: seq<Mount>, creds: Option<Mount>, implicit: seq<Mount>, i: nat, n: nat): seq<Mount> {
    var mounts := own + Creds(creds) + RunMounts(i, n);
    mounts + Unrequested(implicit, mounts)
  }

  /** The mount loop of Build, over the containers' mount lists in place; returns the run volumes. */
  method AddMounts(mounts: array<seq<Mount>>, creds: seq<Option<Mount>>, implicit: seq<Mount>)
    returns (volumes: seq<string>)
    requires |creds| == mounts.Length
    modifies mounts
    ensures forall i :: 0 <= i < mounts.Length ==>
              mounts[i] == StepMounts(old(mounts[i]), creds[i], implicit, i, mounts.Length)
    ensures |volumes| == mounts.Length && forall j :: 0 <= j < |volumes| ==> volumes[j] == RunVolumeName(j)
  {
    volumes := [];
    for i := 0 to mounts.Length
      invariant forall k :: 0 <= k < i ==> mounts[k] == StepMounts(old(mounts[k]), creds[k], implicit, k, mounts.Length)
      invariant forall k :: i <= k < mounts.Length ==> mounts[k] == old(mounts[k])
      invariant |volumes| == i && forall j :: 0 <= j < i ==> volumes[j] == RunVolumeName(j)
    {
      var vms := mounts[i] + Creds(creds[i]);
      volumes := volumes + [RunVolumeName(i)];
      ghost var before := vms;
      for j := 0 to mounts.Length
        invariant vms == before + RunMounts(i, j)
        invariant forall k :: 0 <= k < i ==>
                    mounts[k] == StepMounts(old(mounts[k]), creds[k], implicit, k, mounts.Length)
        invariant forall k :: i <= k < mounts.Length ==> mounts[k] == old(mounts[k])
      {
        assert RunMounts(i, j + 1) == RunMounts(i, j) + [RunMount(j, i != j)];
        vms := vms + [RunMount(j, i != j)];
      }
      mounts[i] := vms + Unrequested(implicit, vms);
    }
  }

  // ----- Who can write where -----

  // A mount covers its own path and everything below it.
  predicate Covers(m: Mount, path: string) {
    path == m.path || HasPrefix(path, m.path + "/")
  }

  // The innermost mount on a path decides about access to it.
  predicate Governs(mounts: seq<Mount>, m: Mount, path: string) {
    && m in mounts && Covers(m, path)
    && forall o :: o in mounts && Covers(o, path) ==> |o.path| <= |m.path|
  }

  // Access to the path is decided by run mount w and by nothing else.
  ghost predicate OnlyRunMount(mounts: seq<Mount>, i: nat, w: nat, path: string) {
    forall m :: Governs(mounts, m, path) <==> m == MountFor(i, w)
  }

  lemma RunDirCovers(i: nat, leaf: string, j: nat)
    ensures Covers(RunMount(j, true), RunPath(i, leaf)) <==> i == j
  {
    var path, prefix := RunPath(i, leaf), RunDir(j) + "/";
    assert path == RunDir(i) + "/" + leaf;
    assert path[12..] == Numeral(i) + "/" + leaf && prefix[12..] == Numeral(j) + "/";
    assert RunDir(j)[12..] == Numeral(j);
    SlashInside(Numeral(i), leaf, Numeral(j));
    if HasPrefix(path, prefix) {
      assert path[12..|prefix|] == prefix[12..];
      SlashEndsNumeral(Numeral(i), leaf, Numeral(j));
      NumeralInjective(i, j);
    }
    if i == j {
      assert path[..|prefix|] == prefix;
    }
  }

  lemma SlashInside(a: string, leaf: string, d: string)
    requires AllDigits(d)
    ensures a + "/" + leaf != d
  {
    var s := a + "/" + leaf;
    assert s[|a|] == '/';
  }

  lemma SlashEndsNumeral(a: string, leaf: string, b: string)
    requires AllDigits(a) && AllDigits(b) && HasPrefix(a + "/" + leaf, b + "/")
    ensures a == b
  {
    var s, p := a + "/" + leaf, b + "/";
    PrefixAt(s, p, |a|);
    PrefixAt(s, p, |b|);
    assert s[|a|] == '/' && p[|b|] == '/';
    assert |a| == |b|;
    assert s[..|p|] == p;
    assert forall k :: 0 <= k < |a| ==> a[k] == s[k] && b[k] == p[k];
  }

  // ----- The exact condition -----

  // No mount of the step's own and no credentials mount reaches as deep as the run mount, unless it is that mount;
  // an implicit mount at the run mount's path gives way to it, so only a deeper one stands in the way.
  ghost predicate Unobstructed(own: seq<Mount>, creds: Option<Mount>, implicit: seq<Mount>, i: nat, w: nat,
                               path: string) {
    && (forall m :: m in own + Creds(creds) && Covers(m, path) ==> m == MountFor(i, w) || |m.path| < |RunDir(w)|)
    && (forall m :: m in implicit && Covers(m, path) ==> |m.path| <= |RunDir(w)|)
  }

  lemma UnrequestedIff(implicit: seq<Mount>, mounts: seq<Mount>, m: Mount)
    ensures m in Unrequested(implicit, mounts) <==> m in implicit && !Requested(mounts, m.path)
  {
    if implicit != [] {
      UnrequestedIff(implicit[1..], mounts, m);
      assert implicit == [implicit[0]] + implicit[1..];
    }
  }

  lemma MountsIff(own: seq<Mount>, creds: Option<Mount>, implicit: seq<Mount>, i: nat, n: nat, m: Mount)
    ensures var first := own + Creds(creds) + RunMounts(i, n);
      m in StepMounts(own, creds, implicit, i, n) <==>
        || m in own || creds == Some(m)
        || (exists j :: 0 <= j < n && m == MountFor(i, j))
        || (m in implicit && !Requested(first, m.path))
  {
    var first := own + Creds(creds) + RunMounts(i, n);
    UnrequestedIff(implicit, first, m);
    assert forall j :: 0 <= j < n ==> RunMounts(i, n)[j] == MountFor(i, j);
    if j :| 0 <= j < n && m == MountFor(i, j) {
      assert m == RunMounts(i, n)[j];
    }
  }

  // Two mounts of the same depth on one path are at the same path.
  lemma SameDepth(m: Mount, o: Mount, path: string)
    requires Covers(m, path) && Covers(o, path) && |m.path| == |o.path|
    ensures m.path == o.path
  {
    TakeOfConcat(m.path, "/", |m.path|);
    TakeOfConcat(o.path, "/", |o.path|);
    assert path[..|m.path|] == m.path && path[..|o.path|] == o.path;
  }

  lemma TakeOfConcat(a: string, b: string, n: nat)
    ensures n <= |a| ==> (a + b)[..n] == a[..n]
  {
  }

  lemma UnobstructedGoverns(own: seq<Mount>, creds: Option<Mount>, implicit: seq<Mount>, i: nat, n: nat, w: nat,
                            leaf: string)
    requires w < n && Unobstructed(own, creds, implicit, i, w, RunPath(w, leaf))
    ensures OnlyRunMount(StepMounts(own, creds, implicit, i, n), i, w, RunPath(w, leaf))
  {
    var mounts, path, mine := StepMounts(own, creds, implicit, i, n), RunPath(w, leaf), MountFor(i, w);
    MountsIff(own, creds, implicit, i, n, mine);
    RunDirCovers(w, leaf, w);
    forall m | m in mounts && Covers(m, path)
      ensures m == mine || |m.path| < |mine.path|
    {
      MountsIff(own, creds, implicit, i, n, m);
      if j :| 0 <= j < n && m == MountFor(i, j) {
        RunDirCovers(w, leaf, j);
      } else if m !in own + Creds(creds) && |m.path| == |mine.path| {
        SameDepth(m, mine, path);
        RunDirRequested(own, creds, i, n, w);
      }
    }
  }

  lemma RunDirRequested(own: seq<Mount>, creds: Option<Mount>, i: nat, n: nat, w: nat)
    requires w < n
    ensures Requested(own + Creds(creds) + RunMounts(i, n), RunDir(w))
  {
    var head := own + Creds(creds);
    assert (head + RunMounts(i, n))[|head| + w] == RunMounts(i, n)[w] == MountFor(i, w);
  }

  // A mount in the pod that reaches as deep as the run mount takes the post file, or shares in deciding about it.
  lemma ObstructionTakes(mounts: seq<Mount>, i: nat, w: nat, path: string, m: Mount)
    requires m in mounts && Covers(m, path) && |m.path| >= |RunDir(w)| && m != MountFor(i, w)
    ensures !OnlyRunMount(mounts, i, w, path)
  {
    if Governs(mounts, MountFor(i, w), path) {
      assert Governs(mounts, m, path);
    }
  }

  lemma ObstructedFails(own: seq<Mount>, creds: Option<Mount>, implicit: seq<Mount>, i: nat, n: nat, w: nat,
                        leaf: string)
    requires w < n && !Unobstructed(own, creds, implicit, i, w, RunPath(w, leaf))
    ensures !OnlyRunMount(StepMounts(own, creds, implicit, i, n), i, w, RunPath(w, leaf))
  {
    var mounts, path := StepMounts(own, creds, implicit, i, n), RunPath(w, leaf);
    if m :| m in own + Creds(creds) && Covers(m, path) && m != MountFor(i, w) && |m.path| >= |RunDir(w)| {
      MountsIff(own, creds, implicit, i, n, m);
      ObstructionTakes(mounts, i, w, path, m);
    } else {
      var m :| m in implicit && Covers(m, path) && |m.path| > |RunDir(w)|;
      var o := Standing(own, creds, implicit, i, n, m);
      assert Covers(o, path) && o != MountFor(i, w);
      ObstructionTakes(mounts, i, w, path, o);
    }
  }

  // An implicit mount is in the pod, or another at its path is.
  lemma Standing(own: seq<Mount>, creds: Option<Mount>, implicit: seq<Mount>, i: nat, n: nat, m: Mount)
    returns (o: Mount)
    requires m in implicit
    ensures o in StepMounts(own, creds, implicit, i, n) && o.path == m.path
  {
    var first := own + Creds(creds) + RunMounts(i, n);
    o := m;
    MountsIff(own, creds, implicit, i, n, m);
    if Requested(first, m.path) {
      var k :| 0 <= k < |first| && first[k].path == m.path;
      o := first[k];
    }
  }

  /** In every pod built, run mount w alone decides about a post file of step w if and only if no other mount covers
      the file at the depth of that run mount or deeper. Then step w may write it and every other step may only
      read it. */
  lemma SingleWriterIff(own: seq<Mount>, creds: Option<Mount>, implicit: seq<Mount>, i: nat, n: nat, f: File)
    requires i < n && f.step < n
    ensures OnlyRunMount(StepMounts(own, creds, implicit, i, n), i, f.step, PathOf(f)) <==>
              Unobstructed(own, creds, implicit, i, f.step, PathOf(f))
    ensures Unobstructed(own, creds, implicit, i, f.step, PathOf(f)) ==>
              forall m :: Governs(StepMounts(own, creds, implicit, i, n), m, PathOf(f)) <==>
                m == Mount("tekton-internal-run-" + Numeral(f.step), "/tekton/run/" + Numeral(f.step), i != f.step)
  {
    var leaf := if f.Out? then "out" else "out.err";
    assert PathOf(f) == RunPath(f.step, leaf);
    if Unobstructed(own, creds, implicit, i, f.step, PathOf(f)) {
      UnobstructedGoverns(own, creds, implicit, i, n, f.step, leaf);
    } else {
      ObstructedFails(own, creds, implicit, i, n, f.step, leaf);
    }
  }

  // ----- Pods without mounts under the run directory -----

  predicate OutsideRun(m: Mount) {
    !HasPrefix(m.path, "/tekton/run/")
  }

  // A mount from outside the run directory that covers a run path is shorter than the run mount.
  lemma OutsideIsShorter(m: Mount, i: nat, leaf: string)
    requires OutsideRun(m) && Covers(m, RunPath(i, leaf))
    ensures |m.path| < |RunDir(i)|
  {
    var path := RunPath(i, leaf);
    assert path[..12] == "/tekton/run/";
    TakeOfConcat(m.path, "/", 12);
    PrefixesNest(path, path[..12], m.path + "/");
  }

  /** Step validation keeps a step's own volume mounts out of the run directory; where workspaces keep out of it too,
      the post files of step w are writable for step w's container and read-only for every other. */
  lemma SingleWriter(own: seq<Mount>, creds: Option<Mount>, implicit: seq<Mount>, i: nat, n: nat, f: File)
    requires i < n && f.step < n
    requires forall m :: m in own + Creds(creds) + implicit ==> OutsideRun(m)
    ensures OnlyRunMount(StepMounts(own, creds, implicit, i, n), i, f.step, PathOf(f))
  {
    var leaf := if f.Out? then "out" else "out.err";
    assert PathOf(f) == RunPath(f.step, leaf);
    forall m | m in own + Creds(creds) + implicit && Covers(m, PathOf(f))
      ensures |m.path| < |RunDir(f.step)|
    {
      OutsideIsShorter(m, f.step, leaf);
    }
    SingleWriterIff(own, creds, implicit, i, n, f);
  }

  // ----- A workspace in the way -----

  // The mounts a step gets from its workspaces.
  function FromWorkspaces(ms: seq<WM.Mount>): seq<Mount> {
    seq(|ms|, k requires 0 <= k < |ms| => Mount(ms[k].volume, ms[k].path, ms[k].readOnly))
  }

  // A task that declares one workspace at the path of step 0's post file, which no validation refuses.
  function Trespasser(): WM.TaskSpec {
    WM.TaskSpec([WM.Declaration("ws", OutPath(0), false)], [], [], [], [])
  }

  /** With a workspace declared at the path of step 0's post file, every step of the pod writes to the workspace there
      in place of the run volume, whatever the volume bound. */
  lemma WorkspaceTakesPostFile(b: WS.Binding, v: map<string, WS.Volume>, creds: Option<Mount>, implicit: seq<Mount>,
                               i: nat, n: nat)
    requires i < n && b.name == "ws"
    ensures var own := FromWorkspaces(WM.TemplateAdded(Trespasser(), [b], v));
      && !OnlyRunMount(StepMounts(own, creds, implicit, i, n), i, 0, PathOf(Out(0)))
      && exists m :: m in own && !m.readOnly && m.path == PathOf(Out(0))
                     && Governs(StepMounts(own, creds, implicit, i, n), m, PathOf(Out(0)))
  {
    var ts := Trespasser();
    assert !WM.Isolated(ts, b.name) by { assert ts.steps + ts.sidecars == []; }
    assert [b][..0] == [];
    var wm := WM.MountFor(ts.workspaces, b, v);
    assert WM.TemplateAdded(ts, [b], v) == [] + [wm];
    var own := FromWorkspaces(WM.TemplateAdded(ts, [b], v));
    var m := own[0];
    assert m.path == OutPath(0) && !m.readOnly;
    MountsIff(own, creds, implicit, i, n, m);
    CoversNoDeeper(StepMounts(own, creds, implicit, i, n), m);
    assert |OutPath(0)| > |RunDir(0)|;
    ObstructionTakes(StepMounts(own, creds, implicit, i, n), i, 0, OutPath(0), m);
  }

  // Nothing covers a path more deeply than a mount at that path.
  lemma CoversNoDeeper(mounts: seq<Mount>, m: Mount)
    requires m in mounts
    ensures Governs(mounts, m, m.path)
  {
  }
}
