/** Mounting workspaces into a task: which containers see which volume. */
module WorkspaceMounts {
  import opened Wrappers
  import opened Workspaces

  datatype Declaration = Declaration(name: string, mountPath: string, readOnly: bool)

  datatype Usage = Usage(name: string, mountPath: string)

  datatype Mount = Mount(volume: string, path: string, subPath: string, readOnly: bool)

  // A step or sidecar.
  datatype Part = Part(mounts: seq<Mount>, usages: seq<Usage>)

  // template: the mounts that every step gets.
  datatype TaskSpec = TaskSpec(
    workspaces: seq<Declaration>, template: seq<Mount>, steps: seq<Part>, sidecars: seq<Part>, volumes: seq<Volume>)

  const NO_VOLUME := Volume("", NoSource)

  function VolumeOf(v: map<string, Volume>, name: string): Volume {
    if name in v then v[name] else NO_VOLUME
  }

  // A workspace that is bound but not declared counts as declared with the defaults.
  function Declared(ws: seq<Declaration>, name: string): Declaration {
    if ws == [] then Declaration(name, "", false)
    else if ws[0].name == name then ws[0]
    else Declared(ws[1..], name)
  }

  predicate HasDeclaration(ws: seq<Declaration>, name: string) {
    exists d :: d in ws && d.name == name
  }

  function MountPath(d: Declaration): string {
    if d.mountPath != "" then d.mountPath else "/workspace/" + d.name
  }

  function MountFor(ws: seq<Declaration>, b: Binding, v: map<string, Volume>): Mount {
    var d := Declared(ws, b.name);
    Mount(VolumeOf(v, b.name).name, MountPath(d), b.subPath, d.readOnly)
  }

  predicate Uses(p: Part, name: string) {
    exists u :: u in p.usages && u.name == name
  }

  // A workspace that any step or sidecar asks for goes only to those that ask.
  predicate Isolated(ts: TaskSpec, name: string) {
    exists p :: p in ts.steps + ts.sidecars && Uses(p, name)
  }

  // The path a container asks for takes precedence.
  function AskedPath(usages: seq<Usage>, name: string, path: string): string {
    if usages == [] then path
    else if usages[0].name == name then (if usages[0].mountPath != "" then usages[0].mountPath else path)
    else AskedPath(usages[1..], name, path)
  }

  function Asked(p: Part, name: string, m: Mount): Mount {
    m.(path := AskedPath(p.usages, name, m.path))
  }

  // ----- What is added -----

  function TemplateAdded(ts: TaskSpec, wb: seq<Binding>, v: map<string, Volume>): seq<Mount> {
    if wb == [] then []
    else
      var b := wb[|wb| - 1];
      TemplateAdded(ts, wb[..|wb| - 1], v) + if Isolated(ts, b.name) then [] else [MountFor(ts.workspaces, b, v)]
  }

  function StepAdded(ts: TaskSpec, p: Part, wb: seq<Binding>, v: map<string, Volume>): seq<Mount> {
    if wb == [] then []
    else
      var b := wb[|wb| - 1];
      StepAdded(ts, p, wb[..|wb| - 1], v) +
      if Uses(p, b.name) then [Asked(p, b.name, MountFor(ts.workspaces, b, v))] else []
  }

  // A shared workspace gives way to a mount that a sidecar already has at its path.
  function SidecarMounts(ts: TaskSpec, p: Part, wb: seq<Binding>, v: map<string, Volume>): seq<Mount> {
    if wb == [] then p.mounts
    else
      var before, b := SidecarMounts(ts, p, wb[..|wb| - 1], v), wb[|wb| - 1];
      var m := MountFor(ts.workspaces, b, v);
      if Isolated(ts, b.name) then before + if Uses(p, b.name) then [Asked(p, b.name, m)] else []
      else if exists o :: o in before && o.path == m.path then before
      else before + [m]
  }

  function VolumesAdded(wb: seq<Binding>, v: map<string, Volume>): seq<Volume> {
    if wb == [] then []
    else
      var before, vol := VolumesAdded(wb[..|wb| - 1], v), VolumeOf(v, wb[|wb| - 1].name);
      if exists o :: o in before && o.name == vol.name then before else before + [vol]
  }

  ghost predicate Names(vols: seq<Volume>, name: string) {
    exists o :: o in vols && o.name == name
  }

  ghost predicate Applied(ts: TaskSpec, wb: seq<Binding>, v: map<string, Volume>, now: TaskSpec) {
    && now.template == ts.template + TemplateAdded(ts, wb, v)
    && now.volumes == ts.volumes + VolumesAdded(wb, v)
    && |now.steps| == |ts.steps| && |now.sidecars| == |ts.sidecars|
    && (forall i :: 0 <= i < |ts.steps| ==>
          now.steps[i] == ts.steps[i].(mounts := ts.steps[i].mounts + StepAdded(ts, ts.steps[i], wb, v)))
    && (forall i :: 0 <= i < |ts.sidecars| ==>
          now.sidecars[i] == ts.sidecars[i].(mounts := SidecarMounts(ts, ts.sidecars[i], wb, v)))
  }

  // ----- The code -----

  method IsolatedWorkspaces(ts: TaskSpec) returns (isolated: set<string>)
    ensures forall name :: name in isolated <==> Isolated(ts, name)
  {
    isolated := {};
    var parts := ts.steps + ts.sidecars;
    for i := 0 to |parts|
      invariant forall name :: name in isolated <==> exists p :: p in parts[..i] && Uses(p, name)
    {
      ghost var before := isolated;
      var p := parts[i];
      for j := 0 to |p.usages|
        invariant forall name :: name in isolated <==>
                    name in before || exists u :: u in p.usages[..j] && u.name == name
      {
        isolated := isolated + {p.usages[j].name};
        assert p.usages[..j + 1] == p.usages[..j] + [p.usages[j]];
      }
      assert p.usages[..|p.usages|] == p.usages;
      assert parts[..i + 1] == parts[..i] + [p];
      assert forall name :: name in isolated <==> name in before || Uses(p, name);
    }
    assert parts[..|parts|] == parts;
  }

  method MountIfAsked(p: Part, name: string, m: Mount) returns (now: Part)
    ensures now == StepAfter(p, name, m)
  {
    var j := 0;
    while j < |p.usages|
      invariant 0 <= j <= |p.usages| && (forall u :: u in p.usages[..j] ==> u.name != name)
      invariant AskedPath(p.usages, name, m.path) == AskedPath(p.usages[j..], name, m.path)
    {
      var u := p.usages[j];
      if u.name == name {
        assert p.usages[j..][0] == u;
        var vm := if u.mountPath != "" then m.(path := u.mountPath) else m;
        return p.(mounts := p.mounts + [vm]);
      }
      assert p.usages[..j + 1] == p.usages[..j] + [u] && p.usages[j..][1..] == p.usages[j + 1..];
      j := j + 1;
    }
    assert p.usages[..j] == p.usages;
    return p;
  }

  // Adds a mount to a sidecar unless its path is taken.
  method AddSidecarVolumeMount(p: Part, m: Mount) returns (now: Part)
    ensures now == if exists o :: o in p.mounts && o.path == m.path then p else p.(mounts := p.mounts + [m])
  {
    for j := 0 to |p.mounts|
      invariant forall o :: o in p.mounts[..j] ==> o.path != m.path
    {
      if p.mounts[j].path == m.path {
        return p;
      }
    }
    assert p.mounts[..|p.mounts|] == p.mounts;
    return p.(mounts := p.mounts + [m]);
  }

  method MountIsolated(parts: seq<Part>, name: string, m: Mount) returns (now: seq<Part>)
    ensures |now| == |parts|
    ensures forall i :: 0 <= i < |parts| ==>
              now[i] == StepAfter(parts[i], name, m)
  {
    now := parts;
    for i := 0 to |parts|
      invariant |now| == |parts| && forall k :: i <= k < |parts| ==> now[k] == parts[k]
      invariant forall k :: 0 <= k < i ==>
                  now[k] == StepAfter(parts[k], name, m)
    {
      var p := MountIfAsked(parts[i], name, m);
      now := now[i := p];
    }
  }

  method MountShared(sidecars: seq<Part>, m: Mount) returns (now: seq<Part>)
    ensures |now| == |sidecars|
    ensures forall i :: 0 <= i < |sidecars| ==>
              now[i] == SidecarAfter(false, sidecars[i], "", m)
  {
    now := sidecars;
    for i := 0 to |sidecars|
      invariant |now| == |sidecars| && forall k :: i <= k < |sidecars| ==> now[k] == sidecars[k]
      invariant forall k :: 0 <= k < i ==>
                  now[k] == SidecarAfter(false, sidecars[k], "", m)
    {
      var p := AddSidecarVolumeMount(sidecars[i], m);
      now := now[i := p];
    }
  }

  // The declarations so far say of every workspace what the task's own do.
  ghost predicate SameDeclared(was: seq<Declaration>, now: seq<Declaration>) {
    forall name :: Declared(was, name) == Declared(now, name)
  }

  lemma {:induction false} DeclaredDefault(ws: seq<Declaration>, name: string, other: string)
    requires !HasDeclaration(ws, other)
    ensures Declared(ws + [Declaration(other, "", false)], name) == Declared(ws, name)
  {
    var more := ws + [Declaration(other, "", false)];
    if ws != [] {
      assert more[1..] == ws[1..] + [Declaration(other, "", false)];
      assert ws[0].name != other;
      assert !HasDeclaration(ws[1..], other);
      DeclaredDefault(ws[1..], name, other);
    } else {
      assert more[1..] == [];
    }
  }

  method Declare(ws: seq<Declaration>, name: string) returns (now: seq<Declaration>)
    ensures SameDeclared(ws, now) && HasDeclaration(now, name)
  {
    if HasDeclaration(ws, name) {
      return ws;
    }
    now := ws + [Declaration(name, "", false)];
    assert Declaration(name, "", false) in now;
    forall other
      ensures Declared(ws, other) == Declared(now, other)
    {
      DeclaredDefault(ws, other, name);
    }
  }

  function StepAfter(p: Part, name: string, m: Mount): Part {
    if Uses(p, name) then p.(mounts := p.mounts + [Asked(p, name, m)]) else p
  }

  function SidecarAfter(isolated: bool, p: Part, name: string, m: Mount): Part {
    if isolated then StepAfter(p, name, m)
    else if exists o :: o in p.mounts && o.path == m.path then p
    else p.(mounts := p.mounts + [m])
  }

  // now is was with one more workspace mounted.
  ghost predicate Mounted(isolated: bool, name: string, m: Mount, was: TaskSpec, now: TaskSpec) {
    && now.template == was.template + (if isolated then [] else [m])
    && |now.steps| == |was.steps| && |now.sidecars| == |was.sidecars|
    && (forall i :: 0 <= i < |was.steps| ==>
          now.steps[i] == if isolated then StepAfter(was.steps[i], name, m) else was.steps[i])
    && (forall i :: 0 <= i < |was.sidecars| ==> now.sidecars[i] == SidecarAfter(isolated, was.sidecars[i], name, m))
    && now.volumes == was.volumes && now.workspaces == was.workspaces
  }

  method MountWorkspace(isolated: bool, name: string, m: Mount, was: TaskSpec) returns (now: TaskSpec)
    ensures Mounted(isolated, name, m, was, now)
  {
    if isolated {
      var steps := MountIsolated(was.steps, name, m);
      var sidecars := MountIsolated(was.sidecars, name, m);
      now := was.(steps := steps, sidecars := sidecars);
    } else {
      var sidecars := MountShared(was.sidecars, m);
      now := was.(template := was.template + [m], sidecars := sidecars);
    }
  }

  lemma StepsApplied(ts: TaskSpec, wb: seq<Binding>, v: map<string, Volume>, was: TaskSpec, now: TaskSpec, i: nat)
    requires wb != [] && i < |ts.steps| && Applied(ts, wb[..|wb| - 1], v, was)
    requires var b := wb[|wb| - 1]; Mounted(Isolated(ts, b.name), b.name, MountFor(ts.workspaces, b, v), was, now)
    ensures now.steps[i] == ts.steps[i].(mounts := ts.steps[i].mounts + StepAdded(ts, ts.steps[i], wb, v))
  {
    var b := wb[|wb| - 1];
    if !Isolated(ts, b.name) {
      NotIsolatedNotUsed(ts, b.name);
    }
  }

  lemma SidecarsApplied(ts: TaskSpec, wb: seq<Binding>, v: map<string, Volume>, was: TaskSpec, now: TaskSpec, i: nat)
    requires wb != [] && i < |ts.sidecars| && Applied(ts, wb[..|wb| - 1], v, was)
    requires var b := wb[|wb| - 1]; Mounted(Isolated(ts, b.name), b.name, MountFor(ts.workspaces, b, v), was, now)
    ensures now.sidecars[i] == ts.sidecars[i].(mounts := SidecarMounts(ts, ts.sidecars[i], wb, v))
  {
  }

  lemma OneMoreApplied(ts: TaskSpec, wb: seq<Binding>, v: map<string, Volume>, was: TaskSpec, now: TaskSpec)
    requires wb != [] && Applied(ts, wb[..|wb| - 1], v, was)
    requires var b := wb[|wb| - 1]; Mounted(Isolated(ts, b.name), b.name, MountFor(ts.workspaces, b, v), was, now)
    ensures Applied(ts, wb, v, now.(volumes := ts.volumes + VolumesAdded(wb, v)))
  {
    forall i | 0 <= i < |ts.steps|
      ensures now.steps[i] == ts.steps[i].(mounts := ts.steps[i].mounts + StepAdded(ts, ts.steps[i], wb, v))
    {
      StepsApplied(ts, wb, v, was, now, i);
    }
    forall i | 0 <= i < |ts.sidecars|
      ensures now.sidecars[i] == ts.sidecars[i].(mounts := SidecarMounts(ts, ts.sidecars[i], wb, v))
    {
      SidecarsApplied(ts, wb, v, was, now, i);
    }
  }

  // Declares the workspace of the next binding and mounts it.
  method ApplyBinding(ghost ts: TaskSpec, ghost wb: seq<Binding>, b: Binding, v: map<string, Volume>, isolated: bool,
                      was: TaskSpec)
    returns (now: TaskSpec)
    requires wb != [] && wb[|wb| - 1] == b && Applied(ts, wb[..|wb| - 1], v, was)
    requires SameDeclared(ts.workspaces, was.workspaces) && (isolated <==> Isolated(ts, b.name))
    ensures Applied(ts, wb, v, now.(volumes := ts.volumes + VolumesAdded(wb, v)))
    ensures now.volumes == was.volumes && SameDeclared(ts.workspaces, now.workspaces)
  {
    var ws := Declare(was.workspaces, b.name);
    var declared := was.(workspaces := ws);
    var w := Declared(ws, b.name);
    var m := Mount(VolumeOf(v, b.name).name, MountPath(w), b.subPath, w.readOnly);
    now := MountWorkspace(isolated, b.name, m, declared);
    OneMoreApplied(ts, wb, v, declared, now);
  }

  method Apply(ts: TaskSpec, wb: seq<Binding>, v: map<string, Volume>) returns (now: TaskSpec)
    ensures Applied(ts, wb, v, now)
    ensures SameDeclared(ts.workspaces, now.workspaces)
  {
    var isolated := IsolatedWorkspaces(ts);
    var addedVolumes: set<string> := {};
    now := ts;
    for k := 0 to |wb|
      invariant Applied(ts, wb[..k], v, now) && SameDeclared(ts.workspaces, now.workspaces)
      invariant forall name :: name in addedVolumes <==> Names(VolumesAdded(wb[..k], v), name)
    {
      assert wb[..k + 1][..k] == wb[..k];
      var vv := VolumeOf(v, wb[k].name);
      now := ApplyBinding(ts, wb[..k + 1], wb[k], v, wb[k].name in isolated, now);
      NamesStep(wb[..k + 1], v);
      if vv.name !in addedVolumes {
        now := now.(volumes := now.volumes + [vv]);
        addedVolumes := addedVolumes + {vv.name};
      }
    }
    assert wb[..|wb|] == wb;
  }

  lemma NamesStep(wb: seq<Binding>, v: map<string, Volume>)
    requires wb != []
    ensures var before, vol := VolumesAdded(wb[..|wb| - 1], v), VolumeOf(v, wb[|wb| - 1].name);
      && VolumesAdded(wb, v) == (if Names(before, vol.name) then before else before + [vol])
      && forall name :: Names(VolumesAdded(wb, v), name) <==> Names(before, name) || name == vol.name
  {
    var before, vol := VolumesAdded(wb[..|wb| - 1], v), VolumeOf(v, wb[|wb| - 1].name);
    assert vol in before + [vol];
    assert forall o :: o in before ==> o in before + [vol];
  }

  lemma NotIsolatedNotUsed(ts: TaskSpec, name: string)
    requires !Isolated(ts, name)
    ensures forall p :: p in ts.steps || p in ts.sidecars ==> !Uses(p, name)
  {
    forall p | p in ts.steps || p in ts.sidecars
      ensures !Uses(p, name)
    {
      assert p in ts.steps + ts.sidecars;
    }
  }

  // ----- Laws -----

  lemma {:induction false} VolumeListed(wb: seq<Binding>, v: map<string, Volume>, k: nat)
    requires k < |wb|
    ensures Names(VolumesAdded(wb, v), VolumeOf(v, wb[k].name).name)
  {
    if k < |wb| - 1 {
      VolumeListed(wb[..|wb| - 1], v, k);
    }
  }

  /** Each volume is added once, and only volumes of bindings are. */
  lemma {:induction false} VolumesOnce(wb: seq<Binding>, v: map<string, Volume>)
    ensures forall i, j :: 0 <= i < j < |VolumesAdded(wb, v)| ==>
              VolumesAdded(wb, v)[i].name != VolumesAdded(wb, v)[j].name
    ensures forall o :: o in VolumesAdded(wb, v) ==> exists k :: 0 <= k < |wb| && VolumeOf(v, wb[k].name) == o
  {
    if wb != [] {
      var init := wb[..|wb| - 1];
      VolumesOnce(init, v);
      forall o | o in VolumesAdded(wb, v)
        ensures exists k :: 0 <= k < |wb| && VolumeOf(v, wb[k].name) == o
      {
        if o in VolumesAdded(init, v) {
          var k :| 0 <= k < |init| && VolumeOf(v, init[k].name) == o;
          assert wb[k] == init[k];
        } else {
          assert VolumeOf(v, wb[|wb| - 1].name) == o;
        }
      }
    }
  }

  // Binding k reaches a step: it is shared, or the step asked for it.
  predicate Reaches(ts: TaskSpec, p: Part, b: Binding) {
    !Isolated(ts, b.name) || Uses(p, b.name)
  }

  ghost predicate Sees(ms: seq<Mount>, volume: string) {
    exists m :: m in ms && m.volume == volume
  }

  ghost predicate SomeReaches(ts: TaskSpec, p: Part, wb: seq<Binding>, v: map<string, Volume>, volume: string) {
    exists k :: 0 <= k < |wb| && VolumeOf(v, wb[k].name).name == volume && Reaches(ts, p, wb[k])
  }

  lemma SomeReachesStep(ts: TaskSpec, p: Part, wb: seq<Binding>, v: map<string, Volume>, volume: string)
    requires wb != []
    ensures SomeReaches(ts, p, wb, v, volume) <==>
              || SomeReaches(ts, p, wb[..|wb| - 1], v, volume)
              || (VolumeOf(v, wb[|wb| - 1].name).name == volume && Reaches(ts, p, wb[|wb| - 1]))
  {
    var init := wb[..|wb| - 1];
    if SomeReaches(ts, p, init, v, volume) {
      var k :| 0 <= k < |init| && VolumeOf(v, init[k].name).name == volume && Reaches(ts, p, init[k]);
      assert wb[k] == init[k];
    }
    if SomeReaches(ts, p, wb, v, volume) {
      var k :| 0 <= k < |wb| && VolumeOf(v, wb[k].name).name == volume && Reaches(ts, p, wb[k]);
      assert k < |init| ==> init[k] == wb[k];
    }
  }

  /** A step is given a volume, by the template or of its own, if and only if some binding to that volume
      is shared or was asked for by the step. */
  lemma {:induction false} StepSeesIff(ts: TaskSpec, p: Part, wb: seq<Binding>, v: map<string, Volume>, volume: string)
    requires p in ts.steps
    ensures Sees(TemplateAdded(ts, wb, v) + StepAdded(ts, p, wb, v), volume) <==> SomeReaches(ts, p, wb, v, volume)
  {
    if wb != [] {
      var init, b := wb[..|wb| - 1], wb[|wb| - 1];
      StepSeesIff(ts, p, init, v, volume);
      SomeReachesStep(ts, p, wb, v, volume);
      SeesBoth(TemplateAdded(ts, init, v), StepAdded(ts, p, init, v), volume);
      SeesBoth(TemplateAdded(ts, wb, v), StepAdded(ts, p, wb, v), volume);
      var m := MountFor(ts.workspaces, b, v);
      SeesBoth(TemplateAdded(ts, init, v), if Isolated(ts, b.name) then [] else [m], volume);
      SeesBoth(StepAdded(ts, p, init, v), if Uses(p, b.name) then [Asked(p, b.name, m)] else [], volume);
      SeesOne(m, volume);
      SeesOne(Asked(p, b.name, m), volume);
    }
  }

  lemma SeesBoth(a: seq<Mount>, b: seq<Mount>, volume: string)
    ensures Sees(a + b, volume) <==> Sees(a, volume) || Sees(b, volume)
  {
  }

  lemma SeesOne(m: Mount, volume: string)
    ensures Sees([m], volume) <==> m.volume == volume
  {
    assert m in [m];
  }

  /** Every mount given to a step is of a volume in the task's list. */
  lemma MountsHaveVolumes(ts: TaskSpec, p: Part, wb: seq<Binding>, v: map<string, Volume>, m: Mount)
    requires p in ts.steps && m in TemplateAdded(ts, wb, v) + StepAdded(ts, p, wb, v)
    ensures Names(VolumesAdded(wb, v), m.volume)
  {
    StepSeesIff(ts, p, wb, v, m.volume);
    var k :| 0 <= k < |wb| && VolumeOf(v, wb[k].name).name == m.volume && Reaches(ts, p, wb[k]);
    VolumeListed(wb, v, k);
  }

  // Binding k puts its mount into a sidecar: asked for, or shared and at a path that is still free.
  ghost predicate GivenTo(ts: TaskSpec, p: Part, wb: seq<Binding>, v: map<string, Volume>, k: nat)
    requires k < |wb|
  {
    || Uses(p, wb[k].name)
    || (!Isolated(ts, wb[k].name) && PathFree(SidecarMounts(ts, p, wb[..k], v), MountFor(ts.workspaces, wb[k], v).path))
  }

  ghost predicate PathFree(ms: seq<Mount>, path: string) {
    forall o :: o in ms ==> o.path != path
  }

  ghost predicate SomeGiven(ts: TaskSpec, p: Part, wb: seq<Binding>, v: map<string, Volume>, volume: string) {
    exists k :: 0 <= k < |wb| && VolumeOf(v, wb[k].name).name == volume && GivenTo(ts, p, wb, v, k)
  }

  lemma GivenEarlier(ts: TaskSpec, p: Part, wb: seq<Binding>, v: map<string, Volume>, k: nat)
    requires k < |wb| - 1
    ensures GivenTo(ts, p, wb[..|wb| - 1], v, k) <==> GivenTo(ts, p, wb, v, k)
  {
    assert wb[..|wb| - 1][..k] == wb[..k];
  }

  lemma SomeGivenStep(ts: TaskSpec, p: Part, wb: seq<Binding>, v: map<string, Volume>, volume: string)
    requires wb != []
    ensures SomeGiven(ts, p, wb, v, volume) <==>
              || SomeGiven(ts, p, wb[..|wb| - 1], v, volume)
              || (VolumeOf(v, wb[|wb| - 1].name).name == volume && GivenTo(ts, p, wb, v, |wb| - 1))
  {
    var init := wb[..|wb| - 1];
    if SomeGiven(ts, p, init, v, volume) {
      var k :| 0 <= k < |init| && VolumeOf(v, init[k].name).name == volume && GivenTo(ts, p, init, v, k);
      GivenEarlier(ts, p, wb, v, k);
      assert wb[k] == init[k];
    }
    if SomeGiven(ts, p, wb, v, volume) {
      var k :| 0 <= k < |wb| && VolumeOf(v, wb[k].name).name == volume && GivenTo(ts, p, wb, v, k);
      if k < |init| {
        GivenEarlier(ts, p, wb, v, k);
        assert init[k] == wb[k];
      }
    }
  }

  // The mounts of a sidecar after the last binding.
  lemma SidecarStep(ts: TaskSpec, p: Part, wb: seq<Binding>, v: map<string, Volume>, volume: string)
    requires wb != [] && p in ts.sidecars
    ensures var b := wb[|wb| - 1];
      Sees(SidecarMounts(ts, p, wb, v), volume) <==>
        || Sees(SidecarMounts(ts, p, wb[..|wb| - 1], v), volume)
        || (VolumeOf(v, b.name).name == volume && GivenTo(ts, p, wb, v, |wb| - 1))
  {
    var before, b := SidecarMounts(ts, p, wb[..|wb| - 1], v), wb[|wb| - 1];
    var m := MountFor(ts.workspaces, b, v);
    assert Uses(p, b.name) ==> Isolated(ts, b.name) by { assert p in ts.steps + ts.sidecars; }
    SeesBoth(before, [m], volume);
    SeesBoth(before, [Asked(p, b.name, m)], volume);
    SeesBoth(before, [], volume);
    SeesOne(m, volume);
    SeesOne(Asked(p, b.name, m), volume);
  }

  /** A sidecar has a volume if and only if it mounts the volume itself, or some binding to it was asked for by the
      sidecar, or is shared at a path that is free after the bindings before it. */
  lemma {:induction false} SidecarSeesIff(ts: TaskSpec, p: Part, wb: seq<Binding>, v: map<string, Volume>,
                                          volume: string)
    requires p in ts.sidecars
    ensures Sees(SidecarMounts(ts, p, wb, v), volume) <==> Sees(p.mounts, volume) || SomeGiven(ts, p, wb, v, volume)
  {
    if wb != [] {
      SidecarSeesIff(ts, p, wb[..|wb| - 1], v, volume);
      SomeGivenStep(ts, p, wb, v, volume);
      SidecarStep(ts, p, wb, v, volume);
    }
  }

  /** Every volume a sidecar is given is in the task's list. */
  lemma SidecarVolumesListed(ts: TaskSpec, p: Part, wb: seq<Binding>, v: map<string, Volume>, volume: string)
    requires p in ts.sidecars && Sees(SidecarMounts(ts, p, wb, v), volume) && !Sees(p.mounts, volume)
    ensures Names(VolumesAdded(wb, v), volume)
  {
    SidecarSeesIff(ts, p, wb, v, volume);
    var k :| 0 <= k < |wb| && VolumeOf(v, wb[k].name).name == volume && GivenTo(ts, p, wb, v, k);
    VolumeListed(wb, v, k);
  }

  // Which bindings have the volume of binding i.
  lemma SameVolumeIff(gen: string -> string, wb: seq<Binding>, names: seq<string>, v: map<string, Volume>, i: nat,
                      j: nat)
    requires Assigned(gen, wb, names) && IsVolumes(wb, names, v) && i < |wb| && j < |wb| && i != j
    requires !wb[i].source.NoSource? && !wb[j].source.NoSource?
    ensures VolumeOf(v, wb[i].name).name == VolumeOf(v, wb[j].name).name <==> SameClaim(wb[i], wb[j])
  {
    assert VolumeFor(wb, names, i) == Some(VolumeOf(v, wb[i].name));
    assert VolumeFor(wb, names, j) == Some(VolumeOf(v, wb[j].name));
    if i < j {
      SharedIff(gen, wb, names, i, j);
    } else {
      SharedIff(gen, wb, names, j, i);
    }
  }

  predicate SameClaim(a: Binding, b: Binding) {
    a.source.Claim? && b.source.Claim? && a.source.claim == b.source.claim
  }

  /** An isolated workspace's volume reaches a step that did not ask for it exactly when another workspace bound
      to the same claim is shared or was asked for by the step. */
  lemma IsolationIff(gen: string -> string, ts: TaskSpec, p: Part, wb: seq<Binding>, names: seq<string>,
                     v: map<string, Volume>, i: nat)
    requires Assigned(gen, wb, names) && IsVolumes(wb, names, v) && i < |wb| && p in ts.steps
    requires forall k :: 0 <= k < |wb| ==> !wb[k].source.NoSource?
    requires Isolated(ts, wb[i].name) && !Uses(p, wb[i].name)
    ensures Sees(TemplateAdded(ts, wb, v) + StepAdded(ts, p, wb, v), VolumeOf(v, wb[i].name).name) <==>
              exists j :: 0 <= j < |wb| && SameClaim(wb[i], wb[j]) && Reaches(ts, p, wb[j])
  {
    StepSeesIff(ts, p, wb, v, VolumeOf(v, wb[i].name).name);
    forall j | 0 <= j < |wb| && j != i
      ensures VolumeOf(v, wb[j].name).name == VolumeOf(v, wb[i].name).name <==> SameClaim(wb[i], wb[j])
    {
      SameVolumeIff(gen, wb, names, v, i, j);
    }
    assert !Reaches(ts, p, wb[i]);
  }

  /** The same of a sidecar that did not ask and does not mount the volume itself: another workspace bound to the same
      claim was asked for by it, or is shared at a path that is free. */
  lemma SidecarIsolationIff(gen: string -> string, ts: TaskSpec, p: Part, wb: seq<Binding>, names: seq<string>,
                            v: map<string, Volume>, i: nat)
    requires Assigned(gen, wb, names) && IsVolumes(wb, names, v) && i < |wb| && p in ts.sidecars
    requires forall k :: 0 <= k < |wb| ==> !wb[k].source.NoSource?
    requires Isolated(ts, wb[i].name) && !Uses(p, wb[i].name) && !Sees(p.mounts, VolumeOf(v, wb[i].name).name)
    ensures Sees(SidecarMounts(ts, p, wb, v), VolumeOf(v, wb[i].name).name) <==>
              exists j :: 0 <= j < |wb| && SameClaim(wb[i], wb[j]) && GivenTo(ts, p, wb, v, j)
  {
    SidecarSeesIff(ts, p, wb, v, VolumeOf(v, wb[i].name).name);
    forall j | 0 <= j < |wb| && j != i
      ensures VolumeOf(v, wb[j].name).name == VolumeOf(v, wb[i].name).name <==> SameClaim(wb[i], wb[j])
    {
      SameVolumeIff(gen, wb, names, v, i, j);
    }
    assert !GivenTo(ts, p, wb, v, i);
  }

  // ----- Isolation undone -----

  // Two workspaces on one claim, of which only the first is asked for, and only by the first step.
  const ONE_CLAIM := [Binding("secret", Claim("data", false), ""), Binding("public", Claim("data", false), "")]
  const ASKING := Part([], [Usage("secret", "")])
  const SILENT := Part([], [])
  const TWO_STEPS := TaskSpec([], [], [ASKING, SILENT], [], [])

  /** With two workspaces on one claim the step that asked for neither is given the volume of the isolated one. */
  lemma SharedClaimUndoesIsolation(gen: string -> string, names: seq<string>, v: map<string, Volume>)
    requires Assigned(gen, ONE_CLAIM, names) && IsVolumes(ONE_CLAIM, names, v)
    ensures Isolated(TWO_STEPS, "secret") && !Uses(SILENT, "secret")
    ensures Sees(TemplateAdded(TWO_STEPS, ONE_CLAIM, v) + StepAdded(TWO_STEPS, SILENT, ONE_CLAIM, v),
                 VolumeOf(v, "secret").name)
  {
    var ts, wb := TWO_STEPS, ONE_CLAIM;
    assert ts.steps[0] == ASKING && ts.steps[1] == SILENT && ts.steps + ts.sidecars == ts.steps;
    assert Uses(ASKING, "secret") by { assert ASKING.usages[0].name == "secret"; }
    assert !Isolated(ts, "public");
    assert wb[0].name == "secret" && SameClaim(wb[0], wb[1]) && Reaches(ts, SILENT, wb[1]);
    IsolationIff(gen, ts, SILENT, wb, names, v, 0);
  }
}
