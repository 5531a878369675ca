/**
 Every fair run without faults ends: each process exits, leaving exactly one post file per step.
 Waiting is polling, so a waiting process moves all the time without getting anywhere; the rank
 below counts only what is left once its predecessor has posted.
 */
module Progress {
  import opened StepProtocol

  predicate Faultless(cfg: Config) {
    !cfg.statFaults && !cfg.mkdirFaults && !cfg.crashes
  }

  // Every process that has not exited is scheduled again; a running command ends; the sidecars become ready.
  ghost predicate Fair(cfg: Config, b: nat -> State, a: nat -> Action)
    requires Behaviour(cfg, b, a)
  {
    && (forall t: nat, i: nat :: i < cfg.Steps() && !b(t).phases[i].Exited? ==>
        exists u: nat :: t <= u && a(u) == Advance(i))
    && (cfg.waitForReady ==> exists t: nat :: b(t).ready)
  }

  predicate PredecessorPassed(cfg: Config, s: State, i: nat) {
    if i == 0 then !cfg.waitForReady || s.ready else Out(i - 1) in s.files
  }

  predicate PredecessorFailed(s: State, i: nat) {
    i > 0 && Err(i - 1) in s.files
  }

  // The moves process i has left, when its predecessor has decided; an upper bound when it has not.
  function Rank(cfg: Config, s: State, i: nat): nat
    requires i < |s.phases|
  {
    match s.phases[i]
    case Starting => 9
    case StatPlain => if PredecessorPassed(cfg, s, i) then 5 else if PredecessorFailed(s, i) then 6 else 8
    case StatErr => if PredecessorPassed(cfg, s, i) then 6 else if PredecessorFailed(s, i) then 5 else 8
    case Admitted => 4
    case Executing => 3
    case Returned(_) => 2
    case Posted(_) => 1
    case Exited(_) => 0
    case Dead => 0
  }

  function Ranks(cfg: Config, s: State, n: nat): nat
    requires n <= |s.phases|
  {
    if n == 0 then 0 else Ranks(cfg, s, n - 1) + Rank(cfg, s, n - 1)
  }

  lemma {:induction false} RanksDrop(cfg: Config, s: State, s': State, n: nat, m: nat)
    requires n <= |s.phases| == |s'.phases|
    requires forall i :: 0 <= i < n ==> Rank(cfg, s', i) <= Rank(cfg, s, i)
    ensures Ranks(cfg, s', n) <= Ranks(cfg, s, n)
    ensures m < n && Rank(cfg, s', m) < Rank(cfg, s, m) ==> Ranks(cfg, s', n) < Ranks(cfg, s, n)
  {
    if n > 0 {
      RanksDrop(cfg, s, s', n - 1, m);
    }
  }

  // No move raises any rank.
  lemma NoRankRises(cfg: Config, s: State, a: Action, s': State, i: nat)
    requires Inv(cfg, s) && Faultless(cfg) && Next(cfg, s, a, s') && i < cfg.Steps()
    ensures Rank(cfg, s', i) <= Rank(cfg, s, i)
  {
    assert StepInv(cfg, s, i);
    if i > 0 {
      assert StepInv(cfg, s, i - 1);
    }
  }

  // A process whose predecessor has posted gets closer to its exit with every move.
  lemma MoveLowersRank(cfg: Config, s: State, s': State, i: nat)
    requires Inv(cfg, s) && Faultless(cfg) && i < cfg.Steps() && Next(cfg, s, Advance(i), s')
    requires PredecessorPassed(cfg, s, i) || PredecessorFailed(s, i)
    ensures Rank(cfg, s', i) < Rank(cfg, s, i)
  {
    assert StepInv(cfg, s, i);
    if i > 0 {
      assert StepInv(cfg, s, i - 1);
    }
  }

  lemma {:induction false} RanksNeverRise(cfg: Config, b: nat -> State, a: nat -> Action, t: nat, u: nat)
    requires Behaviour(cfg, b, a) && Faultless(cfg) && t <= u
    ensures Ranks(cfg, b(u), cfg.Steps()) <= Ranks(cfg, b(t), cfg.Steps())
    decreases u
  {
    if t < u {
      RanksNeverRise(cfg, b, a, t, u - 1);
      Invariant(cfg, b, a, u - 1);
      forall i | 0 <= i < cfg.Steps()
        ensures Rank(cfg, b(u), i) <= Rank(cfg, b(u - 1), i)
      {
        NoRankRises(cfg, b(u - 1), a(u - 1), b(u), i);
      }
      RanksDrop(cfg, b(u - 1), b(u), cfg.Steps(), 0);
    }
  }

  lemma {:induction false} Persists(cfg: Config, b: nat -> State, a: nat -> Action, t: nat, u: nat, i: nat)
    requires Behaviour(cfg, b, a) && Faultless(cfg) && t <= u && i < cfg.Steps()
    ensures b(t).phases[i].Exited? ==> b(u).phases[i].Exited?
    ensures b(t).ready ==> b(u).ready
    decreases u
  {
    if t < u {
      Persists(cfg, b, a, t, u - 1, i);
      assert Next(cfg, b(u - 1), a(u - 1), b(u));
    }
  }

  // The lowest process that has not exited has a predecessor that has posted.
  ghost predicate Lowest(cfg: Config, s: State, m: nat)
    requires |s.phases| == cfg.Steps()
  {
    m < cfg.Steps() && !s.phases[m].Exited? && forall i :: 0 <= i < m ==> s.phases[i].Exited?
  }

  /** Some process that has not exited makes real progress with its next move: the lowest one. */
  lemma LowestIsUnblocked(cfg: Config, s: State, m: nat)
    requires Inv(cfg, s) && Faultless(cfg) && Lowest(cfg, s, m) && (cfg.waitForReady ==> s.ready)
    ensures PredecessorPassed(cfg, s, m) || PredecessorFailed(s, m)
  {
    if m > 0 {
      assert StepInv(cfg, s, m - 1);
    }
  }

  ghost predicate AllExited(cfg: Config, s: State) {
    |s.phases| == cfg.Steps() && forall i :: 0 <= i < cfg.Steps() ==> s.phases[i].Exited?
  }

  lemma FindLowest(cfg: Config, s: State) returns (m: nat)
    requires |s.phases| == cfg.Steps() && !AllExited(cfg, s)
    ensures Lowest(cfg, s, m)
  {
    m := 0;
    while s.phases[m].Exited?
      decreases cfg.Steps() - m
      invariant m < cfg.Steps() && forall i :: 0 <= i < m ==> s.phases[i].Exited?
    {
      m := m + 1;
    }
  }

  // From any time on, the next move of the lowest process lowers the sum of the ranks.
  lemma Closer(cfg: Config, b: nat -> State, a: nat -> Action, t: nat) returns (u: nat)
    requires Behaviour(cfg, b, a) && Faultless(cfg) && Fair(cfg, b, a)
    requires (cfg.waitForReady ==> b(t).ready) && !AllExited(cfg, b(t))
    ensures t < u && Ranks(cfg, b(u), cfg.Steps()) < Ranks(cfg, b(t), cfg.Steps())
    ensures cfg.waitForReady ==> b(u).ready
  {
    var m := FindLowest(cfg, b(t));
    var v: nat :| t <= v && a(v) == Advance(m);
    u := v + 1;
    assert Next(cfg, b(v), a(v), b(u));
    forall i | 0 <= i < cfg.Steps()
      ensures (b(t).phases[i].Exited? ==> b(v).phases[i].Exited?) && (b(t).ready ==> b(v).ready)
    {
      Persists(cfg, b, a, t, v, i);
    }
    Invariant(cfg, b, a, v);
    LowestIsUnblocked(cfg, b(v), m);
    MoveLowersRank(cfg, b(v), b(u), m);
    forall i | 0 <= i < cfg.Steps()
      ensures Rank(cfg, b(u), i) <= Rank(cfg, b(v), i)
    {
      NoRankRises(cfg, b(v), a(v), b(u), i);
    }
    RanksDrop(cfg, b(v), b(u), cfg.Steps(), m);
    RanksNeverRise(cfg, b, a, t, v);
  }

  lemma EventuallyExited(cfg: Config, b: nat -> State, a: nat -> Action, t: nat) returns (u: nat)
    requires Behaviour(cfg, b, a) && Faultless(cfg) && Fair(cfg, b, a) && (cfg.waitForReady ==> b(t).ready)
    ensures t <= u && AllExited(cfg, b(u))
    decreases Ranks(cfg, b(t), cfg.Steps())
  {
    u := t;
    if !AllExited(cfg, b(t)) {
      var v := Closer(cfg, b, a, t);
      u := EventuallyExited(cfg, b, a, v);
    }
  }

  predicate OnePost(s: State, i: nat) {
    (Out(i) in s.files) != (Err(i) in s.files)
  }

  /** Every fair faultless run reaches a time after which every process has exited and every step has exactly one
      post file. */
  lemma EveryFairRunEnds(cfg: Config, b: nat -> State, a: nat -> Action) returns (end: nat)
    requires Behaviour(cfg, b, a) && Faultless(cfg) && Fair(cfg, b, a)
    ensures forall u: nat, i: nat :: end <= u && i < cfg.Steps() ==> b(u).phases[i].Exited? && OnePost(b(u), i)
  {
    var start: nat := 0;
    if cfg.waitForReady {
      start :| b(start).ready;
    }
    end := EventuallyExited(cfg, b, a, start);
    forall u: nat, i: nat | end <= u && i < cfg.Steps()
      ensures b(u).phases[i].Exited? && OnePost(b(u), i)
    {
      Persists(cfg, b, a, end, u, i);
      Invariant(cfg, b, a, u);
      assert StepInv(cfg, b(u), i);
    }
  }
}
