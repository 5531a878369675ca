/** Parsing a termination message: zero entries dropped, the last entry of each key kept, sorted by key. */
module TerminationParse {
  import opened Wrappers
  import opened Text
  import opened RunResults
  import opened TerminationCodec
  import opened TerminationLog

  // ----- What parsing means -----

  function NonZero(xs: seq<RunResult>): seq<RunResult> {
    if xs == [] then []
    else
      var last := xs[|xs| - 1];
      NonZero(xs[..|xs| - 1]) + if last == ZERO then [] else [last]
  }

  // The last entry of a key, zero entries not counted.
  function LastEntry(xs: seq<RunResult>, key: string): Option<RunResult> {
    if xs == [] then None
    else
      var last := xs[|xs| - 1];
      if last != ZERO && last.key == key then Some(last) else LastEntry(xs[..|xs| - 1], key)
  }

  predicate SortedByKey(xs: seq<RunResult>) {
    forall i, j :: 0 <= i < j < |xs| ==> Less(xs[i].key, xs[j].key)
  }

  ghost predicate IsParse(xs: seq<RunResult>, out: seq<RunResult>) {
    && SortedByKey(out) && ZERO !in out
    && forall key :: LastEntry(out, key) == LastEntry(xs, key)
  }

  // ----- The code -----

  /** Moves the non-zero entries to the front, in order. */
  method Compact(r: array<RunResult>) returns (writeIndex: nat)
    modifies r
    ensures writeIndex <= r.Length && r[..writeIndex] == NonZero(old(r[..]))
  {
    ghost var was := r[..];
    writeIndex := 0;
    for i := 0 to r.Length
      invariant writeIndex <= i && r[..writeIndex] == NonZero(was[..i])
      invariant r[i..] == was[i..]
    {
      var rr := r[i];
      assert rr == r[i..][0] == was[i];
      assert was[..i + 1][..i] == was[..i];
      assert r[i + 1..] == r[i..][1..] == was[i + 1..];
      if rr != ZERO {
        ghost var front := r[..writeIndex];
        r[writeIndex] := rr;
        assert r[..writeIndex + 1] == front + [rr];
        writeIndex := writeIndex + 1;
      }
    }
    assert was[..r.Length] == was;
  }

  // Each key's last entry.
  ghost predicate IsLastByKey(xs: seq<RunResult>, m: map<string, RunResult>) {
    forall key :: LastEntry(xs, key) == if key in m then Some(m[key]) else None
  }

  // The library sort: r2's keys are distinct, so the result is the only sorted arrangement.
  method SortSlice(r2: array<RunResult>)
    requires forall i, j :: 0 <= i < j < r2.Length ==> r2[i].key != r2[j].key
    modifies r2
    ensures SortedByKey(r2[..]) && (forall x :: x in r2[..] <==> x in old(r2[..]))
  {
    ghost var was := r2[..];
    for i := 0 to r2.Length
      invariant SortedByKey(r2[..i]) && Distinct(r2[..]) && SameElements(r2[..], was)
    {
      var j := i;
      while j > 0 && Less(r2[j].key, r2[j - 1].key)
        invariant 0 <= j <= i && Distinct(r2[..]) && SameElements(r2[..], was)
        invariant forall a, b :: 0 <= a < b <= i && a != j && b != j ==> Less(r2[a].key, r2[b].key)
        invariant forall b :: j < b <= i ==> Less(r2[j].key, r2[b].key)
      {
        ghost var before := r2[..];
        r2[j - 1], r2[j] := r2[j], r2[j - 1];
        Swapped(before, r2[..], j - 1, j);
        j := j - 1;
      }
      InPlace(r2[..], i, j);
      assert forall a, b :: 0 <= a < b < i + 1 ==> r2[..i + 1][a] == r2[a] && r2[..i + 1][b] == r2[b];
    }
    assert r2[..r2.Length] == r2[..];
  }

  ghost predicate Distinct(xs: seq<RunResult>) {
    forall i, j :: 0 <= i < j < |xs| ==> xs[i].key != xs[j].key
  }

  ghost predicate SameElements(xs: seq<RunResult>, ys: seq<RunResult>) {
    forall x :: x in xs <==> x in ys
  }

  lemma Swapped(xs: seq<RunResult>, ys: seq<RunResult>, a: nat, b: nat)
    requires a < b < |xs| && ys == xs[a := xs[b]][b := xs[a]]
    ensures SameElements(xs, ys) && (Distinct(xs) ==> Distinct(ys))
  {
    forall x | x in xs ensures x in ys {
      var k :| 0 <= k < |xs| && xs[k] == x;
      assert ys[if k == a then b else if k == b then a else k] == x;
    }
    forall x | x in ys ensures x in xs {
      var k :| 0 <= k < |ys| && ys[k] == x;
      assert xs[if k == a then b else if k == b then a else k] == x;
    }
  }

  // Once the new entry is not below its left neighbour, the first i + 1 entries are in order.
  lemma InPlace(xs: seq<RunResult>, i: nat, j: nat)
    requires j <= i < |xs| && Distinct(xs)
    requires forall a, b :: 0 <= a < b <= i && a != j && b != j ==> Less(xs[a].key, xs[b].key)
    requires forall b :: j < b <= i ==> Less(xs[j].key, xs[b].key)
    requires j > 0 ==> !Less(xs[j].key, xs[j - 1].key)
    ensures forall a, b :: 0 <= a < b <= i ==> Less(xs[a].key, xs[b].key)
  {
    forall a | 0 <= a < j
      ensures Less(xs[a].key, xs[j].key)
    {
      LessTrichotomy(xs[j - 1].key, xs[j].key);
      if a < j - 1 {
        LessTransitive(xs[a].key, xs[j - 1].key, xs[j].key);
      }
    }
  }

  method Collect(r: seq<RunResult>) returns (r2: array<RunResult>, ghost m: map<string, RunResult>)
    requires ZERO !in r
    ensures fresh(r2) && IsLastByKey(r, m) && Distinct(r2[..])
    ensures forall x :: x in r2[..] <==> x.key in m && m[x.key] == x
  {
    var byKey: map<string, RunResult> := map[];
    for i := 0 to |r|
      invariant IsLastByKey(r[..i], byKey) && forall k :: k in byKey ==> byKey[k].key == k
    {
      assert r[..i + 1][..i] == r[..i] && r[i] in r;
      byKey := byKey[r[i].key := r[i]];
    }
    assert r[..|r|] == r;
    var out: seq<RunResult> := [];
    var left := byKey.Keys;
    // in whatever order the map is walked
    while left != {}
      invariant left <= byKey.Keys && Distinct(out)
      invariant forall x :: x in out <==> x.key in byKey && x.key !in left && byKey[x.key] == x
      decreases left
    {
      var key :| key in left;
      out := out + [byKey[key]];
      left := left - {key};
    }
    m := byKey;
    r2 := new RunResult[|out|](i requires 0 <= i < |out| => out[i]);
    assert r2[..] == out;
  }

  /** None is a message that does not decode. */
  method ParseMessage(msg: string) returns (parsed: Option<seq<RunResult>>)
    ensures parsed.None? <==> msg != "" && Decode(LABELS, msg).None?
    ensures parsed.Some? ==> IsParse(if msg == "" then [] else Decode(LABELS, msg).value, parsed.value)
  {
    if msg == "" {
      return Some([]);
    }
    var decoded := Decode(LABELS, msg);
    if decoded.None? {
      return None;
    }
    var entries := decoded.value;
    var r := new RunResult[|entries|](i requires 0 <= i < |entries| => entries[i]);
    assert r[..] == entries;
    var writeIndex := Compact(r);
    var kept := r[..writeIndex];
    NonZeroKeeps(entries);
    var r2, m := Collect(kept);
    SortSlice(r2);
    CollectedIsParse(entries, m, r2[..]);
    return Some(r2[..]);
  }

  lemma {:induction false} NonZeroKeeps(xs: seq<RunResult>)
    ensures ZERO !in NonZero(xs) && forall key :: LastEntry(NonZero(xs), key) == LastEntry(xs, key)
  {
    if xs != [] {
      NonZeroKeeps(xs[..|xs| - 1]);
      var last, front := xs[|xs| - 1], NonZero(xs[..|xs| - 1]);
      if last != ZERO {
        assert NonZero(xs)[..|front|] == front;
      } else {
        assert NonZero(xs) == front;
      }
    }
  }

  lemma {:induction false} LastEntryFound(xs: seq<RunResult>, key: string)
    ensures var e := LastEntry(xs, key); e.Some? ==> e.value in xs && e.value.key == key && e.value != ZERO
    ensures LastEntry(xs, key).None? ==> forall x :: x in xs && x != ZERO ==> x.key != key
  {
    if xs != [] {
      LastEntryFound(xs[..|xs| - 1], key);
    }
  }

  // In a sorted list a key occurs once.
  lemma SortedFinds(xs: seq<RunResult>, x: RunResult)
    requires SortedByKey(xs) && x in xs && x != ZERO
    ensures LastEntry(xs, x.key) == Some(x)
  {
    LastEntryFound(xs, x.key);
    var e := LastEntry(xs, x.key).value;
    var i, j :| 0 <= i < |xs| && 0 <= j < |xs| && xs[i] == x && xs[j] == e;
    LessTrichotomy(x.key, x.key);
  }

  lemma SortedView(out: seq<RunResult>, m: map<string, RunResult>)
    requires SortedByKey(out) && forall x :: x in out <==> x.key in m && m[x.key] == x
    requires forall key :: key in m ==> m[key].key == key && m[key] != ZERO
    ensures forall key :: LastEntry(out, key) == if key in m then Some(m[key]) else None
  {
    forall key
      ensures LastEntry(out, key) == if key in m then Some(m[key]) else None
    {
      if key in m {
        SortedFinds(out, m[key]);
      } else {
        LastEntryFound(out, key);
      }
    }
  }

  lemma CollectedIsParse(xs: seq<RunResult>, m: map<string, RunResult>, out: seq<RunResult>)
    requires IsLastByKey(NonZero(xs), m)
    requires SortedByKey(out) && forall x :: x in out <==> x.key in m && m[x.key] == x
    ensures IsParse(xs, out)
  {
    NonZeroKeeps(xs);
    forall key | key in m
      ensures m[key].key == key && m[key] != ZERO
    {
      LastEntryFound(NonZero(xs), key);
    }
    SortedView(out, m);
  }

  // ----- Laws -----

  lemma {:induction false} SortedUnique(p: seq<RunResult>, q: seq<RunResult>)
    requires SortedByKey(p) && SortedByKey(q) && ZERO !in p && ZERO !in q
    requires forall key :: LastEntry(p, key) == LastEntry(q, key)
    ensures p == q
  {
    if p == [] {
      if q != [] {
        SortedFinds(q, q[0]);
      }
    } else if q == [] {
      SortedFinds(p, p[0]);
    } else {
      var x, y := p[|p| - 1], q[|q| - 1];
      Highest(p, q);
      Highest(q, p);
      LessTrichotomy(x.key, y.key);
      var p', q' := p[..|p| - 1], q[..|q| - 1];
      forall key
        ensures LastEntry(p', key) == LastEntry(q', key)
      {
        if key == x.key {
          NotBefore(p);
          NotBefore(q);
        } else {
          assert LastEntry(p, key) == LastEntry(q, key);
        }
      }
      SortedUnique(p', q');
      assert p == p' + [x] && q == q' + [y];
    }
  }

  /** A parse is determined by its input, whatever order the map was walked in. */
  lemma ParseUnique(xs: seq<RunResult>, p: seq<RunResult>, q: seq<RunResult>)
    requires IsParse(xs, p) && IsParse(xs, q)
    ensures p == q
  {
    SortedUnique(p, q);
  }

  lemma Highest(p: seq<RunResult>, q: seq<RunResult>)
    requires SortedByKey(p) && SortedByKey(q) && ZERO !in p && p != [] && q != []
    requires forall key :: LastEntry(p, key) == LastEntry(q, key)
    ensures var x, y := p[|p| - 1], q[|q| - 1]; x == y || Less(x.key, y.key)
  {
    var x := p[|p| - 1];
    SortedFinds(p, x);
    LastEntryFound(q, x.key);
  }

  lemma NotBefore(p: seq<RunResult>)
    requires SortedByKey(p) && p != []
    ensures LastEntry(p[..|p| - 1], p[|p| - 1].key) == None
  {
    var x := p[|p| - 1];
    LastEntryFound(p[..|p| - 1], x.key);
    LessTrichotomy(x.key, x.key);
  }

  lemma {:induction false} LastEntryConcat(xs: seq<RunResult>, ys: seq<RunResult>, key: string)
    ensures LastEntry(xs + ys, key) == if LastEntry(ys, key).Some? then LastEntry(ys, key) else LastEntry(xs, key)
  {
    if ys == [] {
      assert xs + ys == xs;
    } else {
      assert (xs + ys)[..|xs + ys| - 1] == xs + ys[..|ys| - 1];
      LastEntryConcat(xs, ys[..|ys| - 1], key);
    }
  }

  /** Parsing in two goes is parsing at once: parse(parse(xs) ++ ys) == parse(xs ++ ys). */
  lemma ParseAbsorbs(xs: seq<RunResult>, p: seq<RunResult>, ys: seq<RunResult>, q: seq<RunResult>)
    requires IsParse(xs, p)
    ensures IsParse(p + ys, q) <==> IsParse(xs + ys, q)
  {
    forall key
      ensures LastEntry(p + ys, key) == LastEntry(xs + ys, key)
    {
      LastEntryConcat(p, ys, key);
      LastEntryConcat(xs, ys, key);
    }
  }

  /** What the controller reads of a step's message: for each key the last entry of all accepted batches. */
  lemma MessageHoldsAccepted(batches: seq<seq<RunResult>>)
    requires AllClean(batches) && FileAfter(LABELS, batches).Some?
    ensures Accepted(LABELS, batches).Some?
    ensures Decode(LABELS, FileAfter(LABELS, batches).value) == Accepted(LABELS, batches)
  {
    LabelsAreJson();
    AppendLog(LABELS, batches);
    CleanNeverShrinks(LABELS, batches);
    var xs := Accepted(LABELS, batches).value;
    ListReadsBack(LABELS, xs, "");
    assert Encode(LABELS, xs) + "" == Encode(LABELS, xs);
    CleanAllKept(xs);
  }
}
