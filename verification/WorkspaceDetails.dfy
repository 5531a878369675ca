/** What is mounted for a workspace: volume, path, sub-path and access, container by container. */
module WorkspaceDetails {
  import opened Wrappers
  import opened Workspaces
  import opened WorkspaceMounts

  // ----- The volume of a binding -----

  // Binding j is the first to name the claim.
  ghost predicate FirstToName(wb: seq<Binding>, claim: string, j: nat) {
    && j < |wb| && wb[j].source.Claim? && wb[j].source.claim == claim
    && forall k :: 0 <= k < j ==> !(wb[k].source.Claim? && wb[k].source.claim == claim)
  }

  lemma {:induction false} FirstToNameFound(wb: seq<Binding>, claim: string, j: nat)
    requires FirstToName(wb, claim, j)
    ensures FirstClaim(wb, claim) == Some(j)
  {
    var init := wb[..|wb| - 1];
    if j < |init| {
      FirstToNameFound(init, claim, j);
    } else {
      NoneNames(init, claim);
    }
  }

  lemma {:induction false} NoneNames(wb: seq<Binding>, claim: string)
    requires forall k :: 0 <= k < |wb| ==> !(wb[k].source.Claim? && wb[k].source.claim == claim)
    ensures FirstClaim(wb, claim) == None
  {
    if wb != [] {
      NoneNames(wb[..|wb| - 1], claim);
    }
  }

  /** A binding to a claim has the volume of the first binding to that claim, with that one's name and access; any other
      has a volume of its own name, with its own source; and one without a source has none. */
  lemma VolumeOfBinding(wb: seq<Binding>, names: seq<string>, v: map<string, Volume>, i: nat, j: nat)
    requires i < |wb| == |names| && IsVolumes(wb, names, v)
    requires wb[i].source.Claim? ==> FirstToName(wb, wb[i].source.claim, j)
    ensures wb[i].source.Claim? ==> wb[i].name in v && v[wb[i].name] == Volume(names[j], wb[j].source)
    ensures wb[i].source.Other? ==> wb[i].name in v && v[wb[i].name] == Volume(names[i], wb[i].source)
    ensures wb[i].source.NoSource? ==> wb[i].name !in v
  {
    if wb[i].source.Claim? {
      FirstToNameFound(wb, wb[i].source.claim, j);
    }
  }

  // ----- The mount of a binding -----

  // The first declaration of the name, or, where there is none, one that leaves everything to the defaults.
  ghost predicate DeclaredAs(ws: seq<Declaration>, name: string, d: Declaration) {
    || (exists k :: 0 <= k < |ws| && ws[k] == d && d.name == name && forall j :: 0 <= j < k ==> ws[j].name != name)
    || ((forall j :: 0 <= j < |ws| ==> ws[j].name != name) && d == Declaration(name, "", false))
  }

  lemma {:induction false} DeclaredIs(ws: seq<Declaration>, name: string)
    ensures DeclaredAs(ws, name, Declared(ws, name))
  {
    if ws != [] && ws[0].name != name {
      DeclaredIs(ws[1..], name);
      var d := Declared(ws, name);
      var rest := ws[1..];
      assert forall j :: 1 <= j < |ws| ==> ws[j] == rest[j - 1];
      if k :| 0 <= k < |rest| && rest[k] == d && d.name == name && forall j :: 0 <= j < k ==> rest[j].name != name {
        assert ws[k + 1] == d;
      }
    }
  }

  // The mount of a workspace that is declared as d and bound by b, at its declared path or the default one.
  predicate IsMount(m: Mount, d: Declaration, b: Binding, volume: string) {
    && m.volume == volume && m.subPath == b.subPath && m.readOnly == d.readOnly
    && m.path == (if d.mountPath != "" then d.mountPath else "/workspace/" + d.name)
  }

  // The same at the path that a container asks for, if it asks for one.
  predicate IsAskedMount(m: Mount, u: Usage, d: Declaration, b: Binding, volume: string) {
    && m.volume == volume && m.subPath == b.subPath && m.readOnly == d.readOnly
    && m.path == (if u.mountPath != "" then u.mountPath
                  else if d.mountPath != "" then d.mountPath else "/workspace/" + d.name)
  }

  ghost predicate FirstUsage(usages: seq<Usage>, name: string, i: nat) {
    i < |usages| && usages[i].name == name && forall j :: 0 <= j < i ==> usages[j].name != name
  }

  lemma {:induction false} AskedPathIs(usages: seq<Usage>, name: string, path: string, i: nat)
    requires FirstUsage(usages, name, i)
    ensures AskedPath(usages, name, path) == if usages[i].mountPath != "" then usages[i].mountPath else path
  {
    if i > 0 {
      AskedPathIs(usages[1..], name, path, i - 1);
    }
  }

  lemma {:induction false} UsedFirst(usages: seq<Usage>, name: string) returns (i: nat)
    requires exists u :: u in usages && u.name == name
    ensures FirstUsage(usages, name, i)
  {
    i := 0;
    if usages[0].name != name {
      i := UsedFirst(usages[1..], name);
      i := i + 1;
    }
  }

  /** The mount that is made for a binding. */
  lemma MountIs(ts: TaskSpec, b: Binding, v: map<string, Volume>) returns (d: Declaration)
    ensures DeclaredAs(ts.workspaces, b.name, d)
    ensures IsMount(MountFor(ts.workspaces, b, v), d, b, VolumeOf(v, b.name).name)
  {
    d := Declared(ts.workspaces, b.name);
    DeclaredIs(ts.workspaces, b.name);
  }

  /** The mount that a container gets which asks for the workspace: the first time it does decides. */
  lemma AskedMountIs(ts: TaskSpec, p: Part, b: Binding, v: map<string, Volume>) returns (d: Declaration, i: nat)
    requires Uses(p, b.name)
    ensures DeclaredAs(ts.workspaces, b.name, d) && FirstUsage(p.usages, b.name, i)
    ensures IsAskedMount(Asked(p, b.name, MountFor(ts.workspaces, b, v)), p.usages[i], d, b, VolumeOf(v, b.name).name)
  {
    d := MountIs(ts, b, v);
    i := UsedFirst(p.usages, b.name);
    AskedPathIs(p.usages, b.name, MountFor(ts.workspaces, b, v).path, i);
  }

  // ----- Who gets it -----

  // No step and no sidecar asks for the workspace.
  ghost predicate AskedByNone(ts: TaskSpec, name: string) {
    && (forall i, u :: 0 <= i < |ts.steps| && u in ts.steps[i].usages ==> u.name != name)
    && (forall i, u :: 0 <= i < |ts.sidecars| && u in ts.sidecars[i].usages ==> u.name != name)
  }

  lemma AskedByNoneIff(ts: TaskSpec, name: string)
    ensures AskedByNone(ts, name) <==> !Isolated(ts, name)
  {
    if !Isolated(ts, name) {
      NotIsolatedNotUsed(ts, name);
      forall i, u | 0 <= i < |ts.steps| && u in ts.steps[i].usages
        ensures u.name != name
      {
        assert !Uses(ts.steps[i], name);
      }
      forall i, u | 0 <= i < |ts.sidecars| && u in ts.sidecars[i].usages
        ensures u.name != name
      {
        assert !Uses(ts.sidecars[i], name);
      }
    } else {
      var p :| p in ts.steps + ts.sidecars && Uses(p, name);
      var u :| u in p.usages && u.name == name;
      if p in ts.steps {
        var i :| 0 <= i < |ts.steps| && ts.steps[i] == p;
      } else {
        var i :| 0 <= i < |ts.sidecars| && ts.sidecars[i] == p;
      }
    }
  }

  ghost predicate FromShared(ts: TaskSpec, b: Binding, v: map<string, Volume>, m: Mount) {
    AskedByNone(ts, b.name) && m == MountFor(ts.workspaces, b, v)
  }

  ghost predicate FromAsked(ts: TaskSpec, p: Part, b: Binding, v: map<string, Volume>, m: Mount) {
    Uses(p, b.name) && m == Asked(p, b.name, MountFor(ts.workspaces, b, v))
  }

  /** Every step gets, through the template, the mounts of exactly the bindings that nobody asks for. */
  lemma {:induction false} TemplateHolds(ts: TaskSpec, wb: seq<Binding>, v: map<string, Volume>, m: Mount)
    ensures m in TemplateAdded(ts, wb, v) <==> exists k :: 0 <= k < |wb| && FromShared(ts, wb[k], v, m)
  {
    if wb != [] {
      var init, b := wb[..|wb| - 1], wb[|wb| - 1];
      TemplateHolds(ts, init, v, m);
      AskedByNoneIff(ts, b.name);
      assert forall k :: 0 <= k < |init| ==> init[k] == wb[k];
    }
  }

  /** And of its own the mounts of exactly the bindings that it asks for. */
  lemma {:induction false} StepHolds(ts: TaskSpec, p: Part, wb: seq<Binding>, v: map<string, Volume>, m: Mount)
    ensures m in StepAdded(ts, p, wb, v) <==> exists k :: 0 <= k < |wb| && FromAsked(ts, p, wb[k], v, m)
  {
    if wb != [] {
      var init := wb[..|wb| - 1];
      StepHolds(ts, p, init, v, m);
      assert forall k :: 0 <= k < |init| ==> init[k] == wb[k];
    }
  }

  // Binding k gives the sidecar this mount: asked for, or shared and at a path that is still free.
  ghost predicate FromBinding(ts: TaskSpec, p: Part, wb: seq<Binding>, v: map<string, Volume>, k: nat, m: Mount)
    requires k < |wb|
  {
    || FromAsked(ts, p, wb[k], v, m)
    || (FromShared(ts, wb[k], v, m) && PathFree(SidecarMounts(ts, p, wb[..k], v), m.path))
  }

  /** A sidecar keeps its own mounts, and gets those of the bindings that it asks for, and of those that nobody asks for
      unless one before has its path. */
  lemma {:induction false} SidecarHolds(ts: TaskSpec, p: Part, wb: seq<Binding>, v: map<string, Volume>, m: Mount)
    requires p in ts.sidecars
    ensures m in SidecarMounts(ts, p, wb, v) <==>
              m in p.mounts || exists k :: 0 <= k < |wb| && FromBinding(ts, p, wb, v, k, m)
  {
    if wb != [] {
      var init, b := wb[..|wb| - 1], wb[|wb| - 1];
      SidecarHolds(ts, p, init, v, m);
      AskedByNoneIff(ts, b.name);
      assert Uses(p, b.name) ==> Isolated(ts, b.name) by { assert p in ts.steps + ts.sidecars; }
      forall k | 0 <= k < |init|
        ensures FromBinding(ts, p, init, v, k, m) <==> FromBinding(ts, p, wb, v, k, m)
      {
        assert init[..k] == wb[..k] && init[k] == wb[k];
      }
      SidecarGets(ts, p, wb, v, m);
    }
  }

  lemma SidecarGets(ts: TaskSpec, p: Part, wb: seq<Binding>, v: map<string, Volume>, m: Mount)
    requires wb != [] && p in ts.sidecars
    ensures m in SidecarMounts(ts, p, wb, v) <==>
              m in SidecarMounts(ts, p, wb[..|wb| - 1], v) || FromBinding(ts, p, wb, v, |wb| - 1, m)
  {
    var before, b := SidecarMounts(ts, p, wb[..|wb| - 1], v), wb[|wb| - 1];
    var mine := MountFor(ts.workspaces, b, v);
    AskedByNoneIff(ts, b.name);
    assert Uses(p, b.name) ==> Isolated(ts, b.name) by { assert p in ts.steps + ts.sidecars; }
    assert PathFree(before, mine.path) <==> !exists o :: o in before && o.path == mine.path;
  }

  // ----- The whole task -----

  /** After Apply a step has, by the template or of its own, what it had, the mounts of the bindings that nobody asks
      for, and those of the bindings that it asks for; and nothing else. */
  lemma StepAfterApply(ts: TaskSpec, wb: seq<Binding>, v: map<string, Volume>, now: TaskSpec, i: nat, m: Mount)
    requires Applied(ts, wb, v, now) && i < |ts.steps|
    ensures |now.steps| == |ts.steps|
    ensures m in now.template + now.steps[i].mounts <==>
              || m in ts.template + ts.steps[i].mounts
              || exists k :: 0 <= k < |wb| && (FromShared(ts, wb[k], v, m) || FromAsked(ts, ts.steps[i], wb[k], v, m))
  {
    TemplateHolds(ts, wb, v, m);
    StepHolds(ts, ts.steps[i], wb, v, m);
    assert forall k :: 0 <= k < |wb| && FromShared(ts, wb[k], v, m) ==> m in TemplateAdded(ts, wb, v);
    assert forall k :: 0 <= k < |wb| && FromAsked(ts, ts.steps[i], wb[k], v, m) ==>
                         m in StepAdded(ts, ts.steps[i], wb, v);
  }

  /** And the task's volumes are those it had and one for every name of a volume that a binding has. */
  lemma VolumesAfterApply(ts: TaskSpec, wb: seq<Binding>, v: map<string, Volume>, now: TaskSpec)
    requires Applied(ts, wb, v, now)
    ensures ts.volumes <= now.volumes
    ensures forall k :: 0 <= k < |wb| ==> Names(now.volumes, VolumeOf(v, wb[k].name).name)
    ensures forall i :: |ts.volumes| <= i < |now.volumes| ==>
              exists k :: 0 <= k < |wb| && now.volumes[i] == VolumeOf(v, wb[k].name)
    ensures forall i, j :: |ts.volumes| <= i < j < |now.volumes| ==> now.volumes[i].name != now.volumes[j].name
  {
    var more := VolumesAdded(wb, v);
    VolumesOnce(wb, v);
    forall k | 0 <= k < |wb|
      ensures Names(now.volumes, VolumeOf(v, wb[k].name).name)
    {
      VolumeListed(wb, v, k);
      var o :| o in more && o.name == VolumeOf(v, wb[k].name).name;
      assert o in now.volumes;
    }
    forall i | |ts.volumes| <= i < |now.volumes|
      ensures exists k :: 0 <= k < |wb| && now.volumes[i] == VolumeOf(v, wb[k].name)
    {
      assert now.volumes[i] == more[i - |ts.volumes|] && now.volumes[i] in more;
    }
    assert forall i :: |ts.volumes| <= i < |now.volumes| ==> now.volumes[i] == more[i - |ts.volumes|];
  }
}
