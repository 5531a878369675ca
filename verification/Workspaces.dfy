/** Workspaces: naming the volumes behind workspace bindings, and mounting them. */
module Workspaces {
  import opened Wrappers

  // Claim: a persistent volume claim; Other: any source that is never shared; NoSource: none given.
  datatype Source = Claim(claim: string, readOnly: bool) | Other(description: string) | NoSource

  datatype Binding = Binding(name: string, source: Source, subPath: string)

  datatype Volume = Volume(name: string, source: Source)

  ghost predicate DistinctNames(wb: seq<Binding>) {
    forall i, j :: 0 <= i < j < |wb| ==> wb[i].name != wb[j].name
  }

  // ----- Names: gen is the hash, any function at all -----

  // The names tried for a workspace, in order.
  function Tried(gen: string -> string, workspace: string, k: nat): string {
    if k == 0 then gen(workspace) else gen(Tried(gen, workspace, k - 1) + "$")
  }

  // The first name tried that is not taken.
  ghost predicate FirstFree(gen: string -> string, workspace: string, used: seq<string>, name: string, k: nat) {
    && name == Tried(gen, workspace, k) && name !in used
    && forall j: nat :: j < k ==> Tried(gen, workspace, j) in used
  }

  ghost predicate Settles(gen: string -> string, workspace: string, used: seq<string>, name: string) {
    exists k: nat :: FirstFree(gen, workspace, used, name, k)
  }

  // The names that binding after binding ends up with, when the search for each comes to an end.
  ghost predicate Assigned(gen: string -> string, wb: seq<Binding>, names: seq<string>) {
    && |names| == |wb|
    && forall i :: 0 <= i < |wb| ==> Settles(gen, wb[i].name, names[..i], names[i])
  }

  lemma NamesDistinct(gen: string -> string, wb: seq<Binding>, names: seq<string>, i: nat, j: nat)
    requires Assigned(gen, wb, names) && i < j < |wb|
    ensures names[i] != names[j]
  {
    assert Settles(gen, wb[j].name, names[..j], names[j]);
    assert names[i] == names[..j][i];
  }

  lemma {:induction false} LeastFree(gen: string -> string, workspace: string, used: seq<string>, n: nat)
    returns (k: nat)
    requires Tried(gen, workspace, n) !in used
    ensures k <= n && FirstFree(gen, workspace, used, Tried(gen, workspace, k), k)
  {
    k := 0;
    while Tried(gen, workspace, k) in used
      invariant k <= n && forall j: nat :: j < k ==> Tried(gen, workspace, j) in used
      decreases n - k
    {
      k := k + 1;
    }
  }

  // Some name tried for the workspace is free.
  ghost predicate Escapes(gen: string -> string, workspace: string, used: seq<string>) {
    exists n: nat :: Tried(gen, workspace, n) !in used
  }

  // Every binding can escape the names that the bindings before it took.
  ghost predicate AllEscape(gen: string -> string, wb: seq<Binding>) {
    forall used, i :: 0 <= i < |wb| && Assigned(gen, wb[..i], used) ==> Escapes(gen, wb[i].name, used)
  }

  lemma FirstFreeUnique(gen: string -> string, workspace: string, used: seq<string>, a: string, b: string)
    requires Settles(gen, workspace, used, a) && Settles(gen, workspace, used, b)
    ensures a == b
  {
    var j: nat :| FirstFree(gen, workspace, used, a, j);
    var k: nat :| FirstFree(gen, workspace, used, b, k);
    assert !(j < k) && !(k < j);
  }

  lemma AssignedEarlier(gen: string -> string, wb: seq<Binding>, names: seq<string>, k: nat)
    requires Assigned(gen, wb, names) && k <= |wb|
    ensures Assigned(gen, wb[..k], names[..k])
  {
    forall i | 0 <= i < k
      ensures Settles(gen, wb[..k][i].name, names[..k][..i], names[..k][i])
    {
      assert names[..k][..i] == names[..i];
    }
  }

  lemma {:induction false} AssignedUnique(gen: string -> string, wb: seq<Binding>, a: seq<string>, b: seq<string>)
    requires Assigned(gen, wb, a) && Assigned(gen, wb, b)
    ensures a == b
  {
    if wb != [] {
      var n := |wb| - 1;
      AssignedEarlier(gen, wb, a, n);
      AssignedEarlier(gen, wb, b, n);
      AssignedUnique(gen, wb[..n], a[..n], b[..n]);
      FirstFreeUnique(gen, wb[n].name, a[..n], a[n], b[n]);
      assert a == a[..n] + [a[n]] && b == b[..n] + [b[n]];
    }
  }

  lemma AssignOneMore(gen: string -> string, wb: seq<Binding>, before: seq<string>, name: string, k: nat)
    requires wb != [] && Assigned(gen, wb[..|wb| - 1], before)
    requires FirstFree(gen, wb[|wb| - 1].name, before, name, k)
    ensures Assigned(gen, wb, before + [name])
  {
    var names := before + [name];
    forall i | 0 <= i < |wb|
      ensures Settles(gen, wb[i].name, names[..i], names[i])
    {
      if i < |before| {
        assert Settles(gen, wb[..|wb| - 1][i].name, before[..i], before[i]);
        assert names[..i] == before[..i];
      } else {
        assert names[..i] == before;
      }
    }
  }

  lemma {:induction false} SearchEnds(gen: string -> string, wb: seq<Binding>) returns (names: seq<string>)
    requires AllEscape(gen, wb)
    ensures Assigned(gen, wb, names)
  {
    if wb == [] {
      names := [];
    } else {
      var init, last := wb[..|wb| - 1], wb[|wb| - 1];
      forall used, i | 0 <= i < |init| && Assigned(gen, init[..i], used)
        ensures Escapes(gen, init[i].name, used)
      {
        assert init[i] == wb[i] && init[..i] == wb[..i];
      }
      var before := SearchEnds(gen, init);
      assert Escapes(gen, last.name, before);
      var n: nat :| Tried(gen, last.name, n) !in before;
      var k := LeastFree(gen, last.name, before, n);
      names := before + [Tried(gen, last.name, k)];
      AssignOneMore(gen, wb, before, Tried(gen, last.name, k), k);
    }
  }

  /** The search for names comes to an end if and only if every binding has a name to try that those before it, which
      have their names, did not take. */
  lemma SearchEndsIff(gen: string -> string, wb: seq<Binding>)
    ensures (exists names :: Assigned(gen, wb, names)) <==> AllEscape(gen, wb)
  {
    if AllEscape(gen, wb) {
      var names := SearchEnds(gen, wb);
      assert Assigned(gen, wb, names);
    }
    if names :| Assigned(gen, wb, names) {
      forall used, i | 0 <= i < |wb| && Assigned(gen, wb[..i], used)
        ensures Escapes(gen, wb[i].name, used)
      {
        AssignedEarlier(gen, wb, names, i);
        AssignedUnique(gen, wb[..i], names[..i], used);
        assert Settles(gen, wb[i].name, names[..i], names[i]);
      }
    }
  }

  /** A binding gets the hash of its name if no binding before it has that; otherwise the hash of that with a dollar
      sign, if that is free. */
  lemma NameIsHash(gen: string -> string, wb: seq<Binding>, names: seq<string>, i: nat)
    requires Assigned(gen, wb, names) && i < |wb|
    ensures gen(wb[i].name) !in names[..i] ==> names[i] == gen(wb[i].name)
    ensures gen(wb[i].name) in names[..i] && gen(gen(wb[i].name) + "$") !in names[..i] ==>
              names[i] == gen(gen(wb[i].name) + "$")
  {
    var name, used := wb[i].name, names[..i];
    assert Settles(gen, name, used, names[i]);
    var k: nat :| FirstFree(gen, name, used, names[i], k);
    assert Tried(gen, name, 0) == gen(name) && Tried(gen, name, 1) == gen(gen(name) + "$");
    if gen(name) !in used {
      assert k == 0;
    } else if gen(gen(name) + "$") !in used {
      assert k == 1;
    }
  }

  // ----- What CreateVolumes gives -----

  // The first binding to the same claim.
  function FirstClaim(wb: seq<Binding>, claim: string): (r: Option<nat>)
    ensures r.Some? ==> r.value < |wb| && wb[r.value].source.Claim? && wb[r.value].source.claim == claim
  {
    if wb == [] then None
    else
      var earlier := FirstClaim(wb[..|wb| - 1], claim);
      var last := wb[|wb| - 1].source;
      if earlier.Some? then earlier
      else if last.Claim? && last.claim == claim then Some(|wb| - 1)
      else None
  }

  // The volume of binding i: that of the first binding to its claim, or one of its own.
  function VolumeFor(wb: seq<Binding>, names: seq<string>, i: nat): Option<Volume>
    requires i < |wb| == |names|
  {
    var s := wb[i].source;
    if s.NoSource? then None
    else
      var j := if s.Claim? then FirstClaim(wb, s.claim) else None;
      if j.Some? then Some(Volume(names[j.value], wb[j.value].source)) else Some(Volume(names[i], s))
  }

  ghost predicate IsVolumes(wb: seq<Binding>, names: seq<string>, v: map<string, Volume>)
    requires |wb| == |names|
  {
    && (forall i :: 0 <= i < |wb| ==>
          (if wb[i].name in v then Some(v[wb[i].name]) else None) == VolumeFor(wb, names, i))
    && (forall name :: name in v ==> exists i :: 0 <= i < |wb| && wb[i].name == name)
  }

  ghost predicate TracksClaims(wb: seq<Binding>, names: seq<string>, pvcs: map<string, Volume>)
    requires |wb| <= |names|
  {
    forall c :: (if c in pvcs then Some(pvcs[c]) else None) ==
                match FirstClaim(wb, c) { case None => None case Some(j) => Some(Volume(names[j], wb[j].source)) }
  }

  lemma FirstClaimStays(wb: seq<Binding>, k: nat, claim: string)
    requires k < |wb|
    ensures FirstClaim(wb[..k], claim).Some? ==> FirstClaim(wb[..k + 1], claim) == FirstClaim(wb[..k], claim)
    ensures FirstClaim(wb[..k], claim).None? ==>
              FirstClaim(wb[..k + 1], claim) ==
              if wb[k].source.Claim? && wb[k].source.claim == claim then Some(k) else None
  {
    assert wb[..k + 1][..k] == wb[..k];
  }

  // Volumes given so far do not change when one more binding is taken up.
  lemma VolumeStays(wb: seq<Binding>, names: seq<string>, k: nat, i: nat)
    requires i < k < |wb| == |names|
    ensures VolumeFor(wb[..k + 1], names[..k + 1], i) == VolumeFor(wb[..k], names[..k], i)
  {
    var s := wb[i].source;
    if s.Claim? {
      FirstClaimStays(wb, k, s.claim);
      ClaimFound(wb[..k], s.claim, i);
    }
  }

  lemma {:induction false} ClaimFound(wb: seq<Binding>, claim: string, i: nat)
    requires i < |wb| && wb[i].source.Claim? && wb[i].source.claim == claim
    ensures FirstClaim(wb, claim).Some?
  {
    if i < |wb| - 1 {
      ClaimFound(wb[..|wb| - 1], claim, i);
    }
  }

  // The name search: rehash with a dollar sign appended until the name is free.
  method FreeName(gen: string -> string, workspace: string, usedNames: set<string>, ghost used: seq<string>,
                  ghost chosen: string)
    returns (name: string)
    requires forall x :: x in usedNames <==> x in used
    requires Settles(gen, workspace, used, chosen)
    ensures name == chosen
  {
    ghost var k: nat :| FirstFree(gen, workspace, used, chosen, k);
    name := gen(workspace);
    ghost var j: nat := 0;
    while name in usedNames
      invariant j <= k && name == Tried(gen, workspace, j)
      decreases k - j
    {
      name := gen(name + "$");
      j := j + 1;
    }
  }

  // Gives binding w the volume of its claim, or a new one with the name.
  method AddVolume(w: Binding, name: string, v: map<string, Volume>, pvcs: map<string, Volume>)
    returns (v': map<string, Volume>, pvcs': map<string, Volume>)
    ensures Added(w, name, v, v', pvcs, pvcs')
  {
    v', pvcs' := v, pvcs;
    match w.source {
      case Claim(claim, _) =>
        if claim in pvcs {
          v' := v[w.name := pvcs[claim]];
        } else {
          v' := v[w.name := Volume(name, w.source)];
          pvcs' := pvcs[claim := v'[w.name]];
        }
      case Other(_) => v' := v[w.name := Volume(name, w.source)];
      case NoSource =>
    }
  }

  /** names: what the search for each binding comes to; that there is such a list is that the search ends. */
  method CreateVolumes(gen: string -> string, wb: seq<Binding>, ghost names: seq<string>)
    returns (v: map<string, Volume>)
    requires Assigned(gen, wb, names)
    ensures DistinctNames(wb) ==> IsVolumes(wb, names, v)
  {
    var pvcs: map<string, Volume> := map[];
    var usedNames: set<string> := {};
    v := map[];
    for k := 0 to |wb|
      invariant forall x :: x in usedNames <==> x in names[..k]
      invariant TracksClaims(wb[..k], names[..k], pvcs)
      invariant DistinctNames(wb) ==> IsVolumes(wb[..k], names[..k], v)
    {
      var name := FreeName(gen, wb[k].name, usedNames, names[..k], names[k]);
      usedNames := usedNames + {name};
      assert names[..k + 1] == names[..k] + [name];
      var v', pvcs' := AddVolume(wb[k], name, v, pvcs);
      OneMoreBinding(wb, names, k, v, v', pvcs, pvcs');
      v, pvcs := v', pvcs';
    }
    assert wb[..|wb|] == wb && names[..|names|] == names;
  }

  // What AddVolume gives.
  ghost predicate Added(w: Binding, name: string, v: map<string, Volume>, v': map<string, Volume>,
                        pvcs: map<string, Volume>, pvcs': map<string, Volume>) {
    && (pvcs' ==
        if w.source.Claim? && w.source.claim !in pvcs then pvcs[w.source.claim := Volume(name, w.source)] else pvcs)
    && (w.source.Claim? ==> w.source.claim in pvcs')
    && v' == match w.source
             case NoSource => v
             case Claim(c, _) => v[w.name := pvcs'[c]]
             case Other(_) => v[w.name := Volume(name, w.source)]
  }

  lemma OneMoreBinding(wb: seq<Binding>, names: seq<string>, k: nat, v: map<string, Volume>, v': map<string, Volume>,
                       pvcs: map<string, Volume>, pvcs': map<string, Volume>)
    requires k < |wb| == |names| && TracksClaims(wb[..k], names[..k], pvcs)
    requires DistinctNames(wb) ==> IsVolumes(wb[..k], names[..k], v)
    requires Added(wb[k], names[k], v, v', pvcs, pvcs')
    ensures TracksClaims(wb[..k + 1], names[..k + 1], pvcs')
    ensures DistinctNames(wb) ==> IsVolumes(wb[..k + 1], names[..k + 1], v')
  {
    StepTracks(wb, names, k, pvcs, pvcs');
    if DistinctNames(wb) {
      StepAddsVolume(wb, names, k, v, v');
    }
  }

  // The claims known after one more binding, and the volume that binding gets.
  lemma StepTracks(wb: seq<Binding>, names: seq<string>, k: nat, known: map<string, Volume>, pvcs: map<string, Volume>)
    requires k < |wb| == |names| && TracksClaims(wb[..k], names[..k], known)
    requires var s := wb[k].source;
      pvcs == if s.Claim? && s.claim !in known then known[s.claim := Volume(names[k], s)] else known
    ensures TracksClaims(wb[..k + 1], names[..k + 1], pvcs)
    ensures var s := wb[k].source;
      VolumeFor(wb[..k + 1], names[..k + 1], k) ==
      match s { case NoSource => None case Claim(c, _) => Some(pvcs[c]) case Other(_) => Some(Volume(names[k], s)) }
  {
    forall c
      ensures (if c in pvcs then Some(pvcs[c]) else None) ==
              match FirstClaim(wb[..k + 1], c) {
                case None => None
                case Some(j) => Some(Volume(names[..k + 1][j], wb[..k + 1][j].source))
              }
    {
      FirstClaimStays(wb, k, c);
      assert (if c in known then Some(known[c]) else None) ==
             match FirstClaim(wb[..k], c) {
               case None => None
               case Some(j) => Some(Volume(names[..k][j], wb[..k][j].source))
             };
    }
    if wb[k].source.Claim? {
      FirstClaimStays(wb, k, wb[k].source.claim);
    }
  }

  lemma StepAddsVolume(wb: seq<Binding>, names: seq<string>, k: nat, before: map<string, Volume>,
                       v: map<string, Volume>)
    requires k < |wb| == |names| && DistinctNames(wb) && IsVolumes(wb[..k], names[..k], before)
    requires var next := VolumeFor(wb[..k + 1], names[..k + 1], k);
      v == if next.None? then before else before[wb[k].name := next.value]
    ensures IsVolumes(wb[..k + 1], names[..k + 1], v)
  {
    var now := wb[..k + 1];
    forall name | name in before
      ensures name != wb[k].name
    {
      var i :| 0 <= i < k && wb[..k][i].name == name;
      assert wb[i].name != wb[k].name;
    }
    forall i | 0 <= i < |now|
      ensures (if now[i].name in v then Some(v[now[i].name]) else None) == VolumeFor(now, names[..k + 1], i)
    {
      if i < k {
        VolumeStays(wb, names, k, i);
        assert wb[..k][i].name == now[i].name;
      }
    }
    forall name | name in v
      ensures exists i :: 0 <= i < |now| && now[i].name == name
    {
      if name in before {
        var i :| 0 <= i < k && wb[..k][i].name == name;
        assert now[i].name == name;
      } else {
        assert now[k].name == name;
      }
    }
  }

  /** Two bindings share a volume name if and only if both name the same claim; then they share the volume. */
  lemma SharedIff(gen: string -> string, wb: seq<Binding>, names: seq<string>, i: nat, j: nat)
    requires Assigned(gen, wb, names) && i < j < |wb| && !wb[i].source.NoSource? && !wb[j].source.NoSource?
    ensures var a, b := VolumeFor(wb, names, i).value, VolumeFor(wb, names, j).value;
      && (a.name == b.name <==> a == b)
      && (a == b <==> wb[i].source.Claim? && wb[j].source.Claim? && wb[i].source.claim == wb[j].source.claim)
  {
    var s, t := wb[i].source, wb[j].source;
    if s.Claim? { ClaimFound(wb, s.claim, i); }
    if t.Claim? { ClaimFound(wb, t.claim, j); }
    var x := if s.Claim? then FirstClaim(wb, s.claim).value else i;
    var y := if t.Claim? then FirstClaim(wb, t.claim).value else j;
    if x < y {
      NamesDistinct(gen, wb, names, x, y);
    } else if y < x {
      NamesDistinct(gen, wb, names, y, x);
    }
  }
}
