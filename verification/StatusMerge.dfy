/** Merging a pod's results into the TaskRun's status, reconcile after reconcile. */
module StatusMerge {
  import opened Wrappers

  datatype Result = Result(name: string, value: string)

  // ----- What merging means: first-occurrence order, last value -----

  function FirstNames(xs: seq<Result>): seq<string> {
    if xs == [] then []
    else
      var earlier, last := FirstNames(xs[..|xs| - 1]), xs[|xs| - 1].name;
      if last in earlier then earlier else earlier + [last]
  }

  function LastOf(xs: seq<Result>, name: string): Option<Result> {
    if xs == [] then None
    else if xs[|xs| - 1].name == name then Some(xs[|xs| - 1])
    else LastOf(xs[..|xs| - 1], name)
  }

  ghost predicate IsMerge(xs: seq<Result>, r: seq<Result>) {
    && |r| == |FirstNames(xs)|
    && forall i :: 0 <= i < |r| ==> r[i].name == FirstNames(xs)[i] && LastOf(xs, r[i].name) == Some(r[i])
  }

  // ----- The code -----

  method RemoveDuplicateResults(results: seq<Result>) returns (uniq: seq<Result>)
    ensures IsMerge(results, uniq)
  {
    uniq := [];
    var latest: map<string, Result> := map[];
    for k := 0 to |results|
      invariant |uniq| == |FirstNames(results[..k])|
      invariant forall i :: 0 <= i < |uniq| ==> uniq[i].name == FirstNames(results[..k])[i]
      invariant forall name :: name in latest <==> name in FirstNames(results[..k])
      invariant forall name :: name in latest ==> LastOf(results[..k], name) == Some(latest[name])
    {
      assert results[..k + 1][..k] == results[..k];
      var res := results[k];
      if res.name !in latest {
        uniq := uniq + [res];
      }
      latest := latest[res.name := res];
    }
    assert results[..|results|] == results;
    ghost var names := FirstNames(results);
    for i := 0 to |uniq|
      invariant |uniq| == |names| && forall j :: 0 <= j < |uniq| ==> uniq[j].name == names[j]
      invariant forall j :: 0 <= j < i ==> LastOf(results, uniq[j].name) == Some(uniq[j])
    {
      assert uniq[i].name in names;
      LastNamed(results, uniq[i].name);
      uniq := uniq[i := latest[uniq[i].name]];
    }
  }

  lemma {:induction false} LastNamed(xs: seq<Result>, name: string)
    ensures LastOf(xs, name).Some? ==> LastOf(xs, name).value.name == name && LastOf(xs, name).value in xs
  {
    if xs != [] {
      LastNamed(xs[..|xs| - 1], name);
    }
  }

  // ----- Laws -----

  lemma {:induction false} FirstNamesDistinct(xs: seq<Result>)
    ensures forall i, j :: 0 <= i < j < |FirstNames(xs)| ==> FirstNames(xs)[i] != FirstNames(xs)[j]
    ensures forall name :: name in FirstNames(xs) <==> LastOf(xs, name).Some?
  {
    if xs != [] {
      FirstNamesDistinct(xs[..|xs| - 1]);
    }
  }

  // A merge is determined by its input.
  lemma MergeUnique(xs: seq<Result>, r: seq<Result>, r': seq<Result>)
    requires IsMerge(xs, r) && IsMerge(xs, r')
    ensures r == r'
  {
    forall i | 0 <= i < |r|
      ensures r[i] == r'[i]
    {
      assert r[i].name == r'[i].name;
    }
  }

  // The merge, as a function.
  function Merged(xs: seq<Result>): seq<Result> {
    var names := FirstNames(xs);
    seq(|names|, i requires 0 <= i < |names| =>
      var last := LastOf(xs, names[i]); if last.Some? then last.value else Result("", ""))
  }

  lemma MergedIsMerge(xs: seq<Result>)
    ensures IsMerge(xs, Merged(xs))
  {
    FirstNamesDistinct(xs);
    forall i | 0 <= i < |Merged(xs)|
      ensures Merged(xs)[i].name == FirstNames(xs)[i] && LastOf(xs, Merged(xs)[i].name) == Some(Merged(xs)[i])
    {
      assert FirstNames(xs)[i] in FirstNames(xs);
      LastNamed(xs, FirstNames(xs)[i]);
    }
  }

  // A list of distinct names is its own first-occurrence order.
  lemma {:induction false} DistinctIsFixed(r: seq<Result>)
    requires forall i, j :: 0 <= i < j < |r| ==> r[i].name != r[j].name
    ensures |FirstNames(r)| == |r|
    ensures forall i :: 0 <= i < |r| ==> FirstNames(r)[i] == r[i].name && LastOf(r, r[i].name) == Some(r[i])
    ensures forall name :: (forall i :: 0 <= i < |r| ==> r[i].name != name) ==> LastOf(r, name) == None
  {
    if r != [] {
      DistinctIsFixed(r[..|r| - 1]);
    }
  }

  lemma {:induction false} MergePreservesView(xs: seq<Result>, r: seq<Result>, ys: seq<Result>)
    requires IsMerge(xs, r)
    ensures FirstNames(r + ys) == FirstNames(xs + ys)
    ensures forall name :: LastOf(r + ys, name) == LastOf(xs + ys, name)
  {
    if ys == [] {
      assert r + ys == r && xs + ys == xs;
      FirstNamesDistinct(xs);
      DistinctIsFixed(r);
      forall name
        ensures LastOf(r, name) == LastOf(xs, name)
      {
        if name in FirstNames(xs) {
          var i :| 0 <= i < |r| && FirstNames(xs)[i] == name;
          assert r[i].name == name;
        } else {
          assert forall i :: 0 <= i < |r| ==> r[i].name in FirstNames(xs);
        }
      }
    } else {
      MergePreservesView(xs, r, ys[..|ys| - 1]);
      assert (r + ys)[..|r + ys| - 1] == r + ys[..|ys| - 1];
      assert (xs + ys)[..|xs + ys| - 1] == xs + ys[..|ys| - 1];
    }
  }

  /** Merging in two goes is merging at once: merge(merge(xs) ++ ys) == merge(xs ++ ys). */
  lemma MergeAbsorbs(xs: seq<Result>, r: seq<Result>, ys: seq<Result>, q: seq<Result>)
    requires IsMerge(xs, r)
    ensures IsMerge(r + ys, q) <==> IsMerge(xs + ys, q)
  {
    MergePreservesView(xs, r, ys);
  }

  lemma {:induction false} RepeatChangesNothing(xs: seq<Result>, ys: seq<Result>, zs: seq<Result>)
    requires forall r :: r in zs ==> LastOf(xs + ys, r.name) != None
    ensures FirstNames(xs + ys + zs) == FirstNames(xs + ys)
    ensures forall name :: LastOf(xs + ys + zs, name) ==
              if LastOf(zs, name).Some? then LastOf(zs, name) else LastOf(xs + ys, name)
  {
    if zs == [] {
      assert xs + ys + zs == xs + ys;
    } else {
      var init := zs[..|zs| - 1];
      RepeatChangesNothing(xs, ys, init);
      assert (xs + ys + zs)[..|xs + ys + zs| - 1] == xs + ys + init;
      FirstNamesDistinct(xs + ys);
    }
  }

  lemma {:induction false} LastOfConcat(xs: seq<Result>, ys: seq<Result>, name: string)
    ensures LastOf(xs + ys, name) == if LastOf(ys, name).Some? then LastOf(ys, name) else LastOf(xs, name)
  {
    if ys == [] {
      assert xs + ys == xs;
    } else {
      LastOfConcat(xs, ys[..|ys| - 1], name);
      assert (xs + ys)[..|xs + ys| - 1] == xs + ys[..|ys| - 1];
    }
  }

  lemma {:induction false} MemberHasLast(xs: seq<Result>, r: Result)
    requires r in xs
    ensures LastOf(xs, r.name).Some?
  {
    if xs[|xs| - 1].name != r.name {
      MemberHasLast(xs[..|xs| - 1], r);
    }
  }

  lemma PodRepeated(xs: seq<Result>, pod: seq<Result>, q: seq<Result>)
    ensures IsMerge(xs + pod + pod, q) <==> IsMerge(xs + pod, q)
  {
    forall p | p in pod
      ensures LastOf(xs + pod, p.name) != None
    {
      MemberHasLast(xs + pod, p);
    }
    RepeatChangesNothing(xs, pod, pod);
    forall i | 0 <= i < |q|
      ensures LastOf(xs + pod + pod, q[i].name) == LastOf(xs + pod, q[i].name)
    {
      LastOfConcat(xs, pod, q[i].name);
    }
  }

  /** Reconciling the same finished pod once more leaves the results as they are. */
  lemma SecondReconcileChangesNothing(xs: seq<Result>, pod: seq<Result>, r: seq<Result>, q: seq<Result>)
    requires IsMerge(xs + pod, r)
    ensures IsMerge(r + pod, q) <==> q == r
  {
    MergeAbsorbs(xs + pod, r, pod, q);
    PodRepeated(xs, pod, q);
    if IsMerge(xs + pod, q) {
      MergeUnique(xs + pod, q, r);
    }
  }
}
