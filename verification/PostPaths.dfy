/** The post files of a pod's steps as paths. */
module PostPaths {
  import opened Text
  import opened StepProtocol
  import opened CommandLine
  import opened CommandLineRoundTrip

  function PathOf(f: File): string {
    match f
    case Out(i) => OutPath(i)
    case Err(i) => OutPath(i) + ".err"
  }

  lemma OutPathInjective(i: nat, j: nat)
    requires OutPath(i) == OutPath(j)
    ensures i == j
  {
    var a, b := OutPath(i), OutPath(j);
    assert a[12..|a| - 4] == Numeral(i);
    assert b[12..|b| - 4] == Numeral(j);
    NumeralInjective(i, j);
  }

  lemma PathInjective(f: File, g: File)
    requires PathOf(f) == PathOf(g)
    ensures f == g
  {
    var a, b := PathOf(f), PathOf(g);
    assert f.Out? ==> a[|a| - 1] == 't';
    assert g.Out? ==> b[|b| - 1] == 't';
    assert f.Err? ==> a[|a| - 1] == 'r' && a[..|a| - 4] == OutPath(f.step);
    assert g.Err? ==> b[|b| - 1] == 'r' && b[..|b| - 4] == OutPath(g.step);
    OutPathInjective(f.step, g.step);
  }

  lemma ReadyIsNoPostFile(f: File)
    ensures PathOf(f) != READY_FILE && PathOf(f) != READY_FILE + ".err" && PathOf(f) != "" && PathOf(f) != ".err"
  {
    var a := PathOf(f);
    assert a[8] == 'r';
    assert READY_FILE[8] == 'd' && (READY_FILE + ".err")[8] == 'd';
  }

  // Only the first step of a pod that does not wait to be ready has nothing to wait for.
  lemma PathsNonEmpty(i: nat, waitForReady: bool)
    ensures WaitPath(i, waitForReady) == "" <==> i == 0 && !waitForReady
  {
    if i > 0 {
      ReadyIsNoPostFile(Out(i - 1));
    }
  }
}
