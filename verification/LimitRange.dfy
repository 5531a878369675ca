/** Default resource requests for the steps of a pod, from a LimitRange. */
module LimitRange {
  import opened Wrappers
  import opened Text
  import opened PodStatus

  datatype Resource = Cpu | Memory | EphemeralStorage

  const RESOURCES := [Cpu, Memory, EphemeralStorage]

  // Quantities count billionths. CPU is divided in thousandths, the others in wholes.
  function Unit(r: Resource): nat {
    if r == Cpu then 1_000_000 else 1_000_000_000
  }

  type Quantities = map<Resource, nat>

  function Get(q: Quantities, r: Resource): nat {
    if r in q then q[r] else 0
  }

  // An absent map reads as all zeros.
  datatype Item = Item(isContainer: bool, defaultRequest: Quantities, min: Quantities)

  datatype Container = Container(name: string, requests: Option<Quantities>)

  function Max(a: nat, b: nat): nat {
    if a < b then b else a
  }

  // Reading a quantity in whole units rounds up.
  function UnitsUp(d: nat, unit: nat): nat
    requires unit > 0
  {
    (d + unit - 1) / unit
  }

  // One step's share of a default.
  function Share(d: nat, unit: nat, n: nat): nat
    requires unit > 0 && n > 0
  {
    UnitsUp(d, unit) / n * unit
  }

  // ----- What the default is -----

  // q is the largest of the shares and minimums of the container items, and zero if there are none.
  ghost predicate IsDefault(items: seq<Item>, n: nat, r: Resource, q: nat)
    requires n > 0
  {
    && (forall i :: 0 <= i < |items| && items[i].isContainer ==>
          Share(Get(items[i].defaultRequest, r), Unit(r), n) <= q && Get(items[i].min, r) <= q)
    && (q > 0 ==> exists i :: 0 <= i < |items| && items[i].isContainer && Supplies(items[i], n, r, q))
  }

  predicate Supplies(item: Item, n: nat, r: Resource, q: nat)
    requires n > 0
  {
    q == Share(Get(item.defaultRequest, r), Unit(r), n) || q == Get(item.min, r)
  }

  ghost predicate AreDefaults(items: seq<Item>, n: nat, q: Quantities)
    requires n > 0
  {
    forall r :: IsDefault(items, n, r, Get(q, r)) && (r in q ==> q[r] > 0)
  }

  // ----- The code -----

  method MaxRequest(a: nat, b: nat, c: nat) returns (max: nat)
    ensures max == Max(a, Max(b, c))
  {
    max := 0;
    if a > max { max := a; }
    if b > max { max := b; }
    if c > max { max := c; }
  }

  lemma OneMoreItem(items: seq<Item>, k: nat, n: nat, r: Resource, was: nat, now: nat)
    requires k < |items| && n > 0 && IsDefault(items[..k], n, r, was)
    requires var it := items[k];
      now == if it.isContainer then Max(was, Max(Share(Get(it.defaultRequest, r), Unit(r), n), Get(it.min, r))) else was
    ensures IsDefault(items[..k + 1], n, r, now)
  {
    var before, after := items[..k], items[..k + 1];
    assert forall i :: 0 <= i < k ==> after[i] == before[i];
    if now > 0 {
      if now == was {
        var i :| 0 <= i < |before| && before[i].isContainer && Supplies(before[i], n, r, was);
        assert after[i].isContainer && Supplies(after[i], n, r, now);
      } else {
        assert after[k].isContainer && Supplies(after[k], n, r, now);
      }
    }
  }

  method GetDefaultStepContainerRequest(items: seq<Item>, n: nat) returns (requests: Option<Quantities>)
    requires n > 0
    ensures AreDefaults(items, n, if requests.None? then map[] else requests.value)
    ensures requests.Some? ==> requests.value != map[]
  {
    var q: Quantities := map[];
    for k := 0 to |items|
      invariant AreDefaults(items[..k], n, q)
    {
      ghost var was := q;
      var item := items[k];
      if item.isContainer {
        for j := 0 to |RESOURCES|
          invariant forall r :: r !in RESOURCES[..j] ==> Get(q, r) == Get(was, r) && (r in q <==> r in was)
          invariant forall r :: r in RESOURCES[..j] ==>
                      Get(q, r) ==
                      Max(Get(was, r), Max(Share(Get(item.defaultRequest, r), Unit(r), n), Get(item.min, r)))
          invariant forall r :: r in q ==> q[r] > 0
        {
          var r := RESOURCES[j];
          var result := MaxRequest(Get(q, r), Share(Get(item.defaultRequest, r), Unit(r), n), Get(item.min, r));
          if result != 0 {
            q := q[r := result];
          }
        }
        assert RESOURCES[..|RESOURCES|] == RESOURCES;
        assert forall r: Resource :: r in RESOURCES by { AllResources(); }
      }
      forall r ensures IsDefault(items[..k + 1], n, r, Get(q, r)) {
        OneMoreItem(items, k, n, r, Get(was, r), Get(q, r));
      }
    }
    assert items[..|items|] == items;
    return if q == map[] then None else Some(q);
  }

  lemma AllResources()
    ensures forall r: Resource :: r in RESOURCES
  {
    assert RESOURCES[0] == Cpu && RESOURCES[1] == Memory && RESOURCES[2] == EphemeralStorage;
    forall r: Resource ensures r in RESOURCES {
      match r case Cpu => case Memory => case EphemeralStorage =>
    }
  }

  function Filled(dst: Quantities, src: Quantities, r: Resource): nat {
    if Get(dst, r) == 0 then Get(src, r) else Get(dst, r)
  }

  // What a container asks for afterwards.
  ghost predicate Transformed(was: Container, defaults: Option<Quantities>, now: Container) {
    var src := if defaults.None? then map[] else defaults.value;
    && now.name == was.name
    && (!IsContainerStep(was.name) ==> now == was)
    && (IsContainerStep(was.name) && was.requests.None? ==> now.requests == defaults)
    && (IsContainerStep(was.name) && was.requests.Some? ==>
          now.requests.Some? && forall r :: Get(now.requests.value, r) == Filled(was.requests.value, src, r))
  }

  method SetRequests(dst: Quantities, src: Quantities) returns (now: Quantities)
    ensures forall r :: Get(now, r) == Filled(dst, src, r)
  {
    now := dst;
    for j := 0 to |RESOURCES|
      invariant forall r :: Get(now, r) == if r in RESOURCES[..j] then Filled(dst, src, r) else Get(dst, r)
    {
      var r := RESOURCES[j];
      if Get(now, r) == 0 && Get(src, r) != 0 {
        now := now[r := Get(src, r)];
      }
    }
    AllResources();
    assert RESOURCES[..|RESOURCES|] == RESOURCES;
  }

  function CountSteps(cs: seq<Container>): nat {
    if cs == [] then 0 else CountSteps(cs[..|cs| - 1]) + if IsContainerStep(cs[|cs| - 1].name) then 1 else 0
  }

  /** Every container in place; a pod always has a step, for a task without steps is refused. */
  method TransformPod(containers: array<Container>, items: seq<Item>) returns (ghost defaults: Option<Quantities>)
    requires CountSteps(containers[..]) > 0
    modifies containers
    ensures AreDefaults(items, CountSteps(old(containers[..])), if defaults.None? then map[] else defaults.value)
    ensures forall i :: 0 <= i < containers.Length ==> Transformed(old(containers[i]), defaults, containers[i])
  {
    ghost var was := containers[..];
    var n := 0;
    for i := 0 to containers.Length
      invariant n == CountSteps(was[..i]) && containers[..] == was
    {
      assert was[..i + 1][..i] == was[..i];
      if IsContainerStep(containers[i].name) {
        n := n + 1;
      }
    }
    assert was[..containers.Length] == was;
    var requests := GetDefaultStepContainerRequest(items, n);
    defaults := requests;
    for i := 0 to containers.Length
      invariant forall j :: 0 <= j < i ==> Transformed(was[j], defaults, containers[j])
      invariant forall j :: i <= j < containers.Length ==> containers[j] == was[j]
    {
      var c := containers[i];
      if IsContainerStep(c.name) {
        if c.requests.None? {
          containers[i] := c.(requests := requests);
        } else {
          var now := SetRequests(c.requests.value, if requests.None? then map[] else requests.value);
          containers[i] := c.(requests := Some(now));
        }
      }
    }
  }

  // ----- Laws -----

  function RequestOf(c: Container, r: Resource): nat {
    if c.requests.None? then 0 else Get(c.requests.value, r)
  }

  /** A step that asked for none of a resource gets the default, which is at least every minimum;
      whatever was asked for stays. */
  lemma RequestAfter(was: Container, defaults: Option<Quantities>, now: Container, items: seq<Item>, n: nat,
                     r: Resource)
    requires n > 0 && Transformed(was, defaults, now)
    requires AreDefaults(items, n, if defaults.None? then map[] else defaults.value)
    ensures RequestOf(was, r) > 0 || !IsContainerStep(was.name) ==> RequestOf(now, r) == RequestOf(was, r)
    ensures RequestOf(was, r) == 0 && IsContainerStep(was.name) ==>
              && IsDefault(items, n, r, RequestOf(now, r))
              && forall i :: 0 <= i < |items| && items[i].isContainer ==> Get(items[i].min, r) <= RequestOf(now, r)
  {
    var q := if defaults.None? then map[] else defaults.value;
    assert IsDefault(items, n, r, Get(q, r));
  }

  lemma ShareTimes(d: nat, unit: nat, n: nat)
    requires unit > 0 && n > 0
    ensures n * Share(d, unit, n) == (UnitsUp(d, unit) - UnitsUp(d, unit) % n) * unit
  {
    var c := UnitsUp(d, unit);
    assert c == c / n * n + c % n;
    calc {
      n * (c / n * unit);
      (c / n * n) * unit;
      (c - c % n) * unit;
    }
  }

  lemma UnitsUpBounds(d: nat, unit: nat)
    requires unit > 0
    ensures d <= UnitsUp(d, unit) * unit < d + unit
    ensures UnitsUp(d, unit) * unit == d <==> d % unit == 0
  {
    var c := UnitsUp(d, unit);
    var x := d + unit - 1;
    assert x == x / unit * unit + x % unit;
    assert c * unit == x - x % unit;
    if d % unit == 0 {
      MultipleBetween(d / unit, c, unit, d);
    } else if c * unit == d {
      MultipleHasNoRemainder(c, unit);
    }
  }

  lemma AtLeastOnce(k: int, unit: nat)
    requires k >= 1
    ensures k * unit >= unit
  {
    assert k * unit == unit + (k - 1) * unit;
  }

  lemma SmallMultiple(k: int, unit: nat)
    requires unit > 0 && k * unit < unit && k * unit + unit > 0
    ensures k == 0
  {
    assert (-k) * unit == -(k * unit);
    if k >= 1 {
      AtLeastOnce(k, unit);
    } else if k <= -1 {
      AtLeastOnce(-k, unit);
    }
  }

  lemma MultipleHasNoRemainder(c: nat, unit: nat)
    requires unit > 0
    ensures c * unit % unit == 0
  {
    var x := c * unit;
    assert x == x / unit * unit + x % unit;
    var k := c - x / unit;
    assert k * unit == c * unit - x / unit * unit == x % unit;
    SmallMultiple(k, unit);
  }

  // Between d and d + unit there is one multiple of unit.
  lemma MultipleBetween(a: nat, c: nat, unit: nat, d: nat)
    requires unit > 0 && a == d / unit && d % unit == 0 && d <= c * unit < d + unit
    ensures c * unit == d
  {
    assert d == a * unit;
    assert (c - a) * unit == c * unit - a * unit;
    SmallMultiple(c - a, unit);
  }

  /** The shares of all steps together stay within the default if and only if the default is whole in the unit
      of division, or the division leaves a remainder. */
  lemma SharesWithinDefaultIff(d: nat, unit: nat, n: nat)
    requires unit > 0 && n > 0
    ensures n * Share(d, unit, n) <= d <==> d % unit == 0 || UnitsUp(d, unit) % n != 0
  {
    var c := UnitsUp(d, unit);
    ShareTimes(d, unit, n);
    UnitsUpBounds(d, unit);
    var k := c % n;
    assert (c - k) * unit == c * unit - k * unit;
    if k == 0 {
      assert k * unit == 0;
    } else {
      assert k * unit >= unit;
    }
  }

  // In any case they stay within the default rounded up.
  lemma SharesWithinRoundedDefault(d: nat, unit: nat, n: nat)
    requires unit > 0 && n > 0
    ensures n * Share(d, unit, n) <= UnitsUp(d, unit) * unit < d + unit
  {
    ShareTimes(d, unit, n);
    UnitsUpBounds(d, unit);
    var c := UnitsUp(d, unit);
    assert (c - c % n) * unit <= c * unit;
  }

  function Bound(item: Item, r: Resource, n: nat): nat {
    Max(UnitsUp(Get(item.defaultRequest, r), Unit(r)) * Unit(r), n * Get(item.min, r))
  }

  // One container item bounds what all steps together are given.
  ghost predicate Bounded(items: seq<Item>, n: nat, r: Resource, total: nat) {
    total == 0 || exists i :: 0 <= i < |items| && items[i].isContainer && total <= Bound(items[i], r, n)
  }

  lemma DefaultBounded(items: seq<Item>, n: nat, r: Resource, q: nat)
    requires n > 0 && IsDefault(items, n, r, q)
    ensures Bounded(items, n, r, n * q)
  {
    if q > 0 {
      var i :| 0 <= i < |items| && items[i].isContainer && Supplies(items[i], n, r, q);
      SharesWithinRoundedDefault(Get(items[i].defaultRequest, r), Unit(r), n);
      assert n * q <= Bound(items[i], r, n);
    }
  }

  // What the transformation adds to the requests of a pod.
  function TotalAdded(was: seq<Container>, now: seq<Container>, r: Resource): int
    requires |was| == |now|
  {
    if was == [] then 0
    else TotalAdded(was[..|was| - 1], now[..|now| - 1], r) + RequestOf(now[|now| - 1], r) - RequestOf(was[|was| - 1], r)
  }

  ghost predicate AllTransformed(was: seq<Container>, defaults: Option<Quantities>, now: seq<Container>) {
    |was| == |now| && forall i :: 0 <= i < |was| ==> Transformed(was[i], defaults, now[i])
  }

  // The steps that asked for none of the resource.
  function CountEmpty(cs: seq<Container>, r: Resource): (n: nat)
    ensures n <= CountSteps(cs)
  {
    if cs == [] then 0
    else
      var c := cs[|cs| - 1];
      CountEmpty(cs[..|cs| - 1], r) + if IsContainerStep(c.name) && RequestOf(c, r) == 0 then 1 else 0
  }

  function DefaultOf(defaults: Option<Quantities>, r: Resource): nat {
    if defaults.None? then 0 else Get(defaults.value, r)
  }

  lemma {:induction false} AddedExactly(was: seq<Container>, defaults: Option<Quantities>, now: seq<Container>,
                                        r: Resource)
    requires AllTransformed(was, defaults, now)
    ensures 0 <= TotalAdded(was, now, r) == CountEmpty(was, r) * DefaultOf(defaults, r)
  {
    if was != [] {
      AddedExactly(was[..|was| - 1], defaults, now[..|now| - 1], r);
      var c, q := was[|was| - 1], DefaultOf(defaults, r);
      assert Transformed(c, defaults, now[|now| - 1]);
      var before := CountEmpty(was[..|was| - 1], r);
      assert (before + 1) * q == before * q + q;
    }
  }

  lemma DefaultsAt(items: seq<Item>, n: nat, defaults: Option<Quantities>, r: Resource)
    requires n > 0 && AreDefaults(items, n, if defaults.None? then map[] else defaults.value)
    ensures IsDefault(items, n, r, DefaultOf(defaults, r))
  {
    assert IsDefault(items, n, r, Get(if defaults.None? then map[] else defaults.value, r));
  }

  lemma BoundedBelow(items: seq<Item>, n: nat, r: Resource, total: nat, less: nat)
    requires Bounded(items, n, r, total) && less <= total
    ensures Bounded(items, n, r, less)
  {
    if total > 0 {
      var i :| 0 <= i < |items| && items[i].isContainer && total <= Bound(items[i], r, n);
      assert less <= Bound(items[i], r, n);
    }
  }

  lemma Scale(a: nat, b: nat, k: nat)
    requires a <= b
    ensures a * k <= b * k && k * a <= k * b
  {
  }

  /** All that a pod's steps are given together is within one item's default, rounded up to the unit of division,
      or within its minimum once for every step. */
  lemma TotalBounded(was: seq<Container>, defaults: Option<Quantities>, now: seq<Container>, items: seq<Item>,
                     r: Resource)
    requires CountSteps(was) > 0 && AllTransformed(was, defaults, now)
    requires AreDefaults(items, CountSteps(was), if defaults.None? then map[] else defaults.value)
    ensures TotalAdded(was, now, r) >= 0 && Bounded(items, CountSteps(was), r, TotalAdded(was, now, r))
  {
    var n, m, q := CountSteps(was), CountEmpty(was, r), DefaultOf(defaults, r);
    AddedExactly(was, defaults, now, r);
    Scale(m, n, q);
    DefaultsAt(items, n, defaults, r);
    DefaultBounded(items, n, r, q);
    BoundedBelow(items, n, r, n * q, m * q);
  }

  // ----- Exactly when the default itself is kept -----

  ghost predicate WithinOne(items: seq<Item>, n: nat, r: Resource, total: nat) {
    total == 0 || exists i :: 0 <= i < |items| && items[i].isContainer && WithinItem(items[i], n, r, total)
  }

  predicate WithinItem(item: Item, n: nat, r: Resource, total: nat) {
    total <= Get(item.defaultRequest, r) || total <= n * Get(item.min, r)
  }

  // Some item gives q as its minimum, or as the share of a default that is whole in the unit or leaves a remainder.
  ghost predicate FairlySupplied(items: seq<Item>, n: nat, r: Resource, q: nat)
    requires n > 0
  {
    exists i :: 0 <= i < |items| && items[i].isContainer && Fairly(items[i], n, r, q)
  }

  predicate Fairly(item: Item, n: nat, r: Resource, q: nat)
    requires n > 0
  {
    var d, unit := Get(item.defaultRequest, r), Unit(r);
    q == Get(item.min, r) || (q == Share(d, unit, n) && (d % unit == 0 || UnitsUp(d, unit) % n != 0))
  }

  lemma Unscale(a: nat, b: nat, k: nat)
    requires k > 0 && a * k <= b * k
    ensures a <= b
  {
    assert (a - b) * k == a * k - b * k;
    if a > b {
      AtLeastOnce(a - b, k);
    }
  }

  // A fair item bounds any number of its shares.
  lemma FairBounds(item: Item, m: nat, n: nat, r: Resource, q: nat)
    requires m <= n && n > 0 && Fairly(item, n, r, q)
    ensures WithinItem(item, n, r, m * q)
  {
    Scale(m, n, q);
    if q != Get(item.min, r) {
      SharesWithinDefaultIff(Get(item.defaultRequest, r), Unit(r), n);
    }
  }

  lemma FewerShares(d: nat, unit: nat, m: nat, n: nat)
    requires unit > 0 && m < n && Share(d, unit, n) > 0
    ensures m * Share(d, unit, n) <= d
  {
    var a, q := UnitsUp(d, unit) / n, Share(d, unit, n);
    SharesWithinRoundedDefault(d, unit, n);
    assert a > 0 by { assert a == 0 ==> a * unit == 0; }
    AtLeastOnce(a, unit);
    Scale(m + 1, n, q);
    assert (m + 1) * q == m * q + q;
  }

  // Fewer shares than there are steps are always within the default.
  lemma FewerBounds(item: Item, m: nat, n: nat, r: Resource, q: nat)
    requires m < n && q > 0 && Supplies(item, n, r, q)
    ensures WithinItem(item, n, r, m * q)
  {
    Scale(m, n, q);
    if q != Get(item.min, r) {
      FewerShares(Get(item.defaultRequest, r), Unit(r), m, n);
    }
  }

  // A share of one item within the default of another is that other's share too.
  lemma ShareMoves(d: nat, e: nat, unit: nat, n: nat)
    requires unit > 0 && n > 0 && n * Share(d, unit, n) <= e
    ensures Share(d, unit, n) <= Share(e, unit, n)
  {
    var a, c := UnitsUp(d, unit) / n, UnitsUp(e, unit);
    UnitsUpBounds(e, unit);
    assert n * (a * unit) == (n * a) * unit;
    Unscale(n * a, c, unit);
    DivideBack(a, c, n);
    Scale(a, c / n, unit);
  }

  lemma DivideBack(a: nat, c: nat, n: nat)
    requires n > 0 && n * a <= c
    ensures a <= c / n
  {
    var k := c / n;
    assert c == k * n + c % n;
    assert (k + 1) * n == k * n + n;
    if a > k {
      Scale(k + 1, a, n);
    }
  }

  lemma Positive(n: nat, q: nat)
    requires n > 0 && q > 0
    ensures n * q > 0
  {
    AtLeastOnce(n, q);
  }

  // q is a share of d; e or n times min holds n times q.
  lemma FairNumbers(d: nat, e: nat, min: nat, unit: nat, n: nat, q: nat)
    requires unit > 0 && n > 0 && q == Share(d, unit, n) && Share(e, unit, n) <= q && min <= q
    requires n * q <= e || n * q <= n * min
    ensures q == min || (q == Share(e, unit, n) && n * Share(e, unit, n) <= e)
  {
    if n * q <= e {
      ShareMoves(d, e, unit, n);
    } else {
      assert n * q == q * n && n * min == min * n;
      Unscale(q, min, n);
    }
  }

  // q is the share of the first item; the second item's default or minimum holds n times that.
  lemma FairFrom(first: Item, second: Item, n: nat, r: Resource, q: nat)
    requires n > 0 && q == Share(Get(first.defaultRequest, r), Unit(r), n)
    requires Share(Get(second.defaultRequest, r), Unit(r), n) <= q && Get(second.min, r) <= q
    requires WithinItem(second, n, r, n * q)
    ensures Fairly(second, n, r, q)
  {
    var e, unit := Get(second.defaultRequest, r), Unit(r);
    FairNumbers(Get(first.defaultRequest, r), e, Get(second.min, r), unit, n, q);
    SharesWithinDefaultIff(e, unit, n);
  }

  lemma WithinMeansFair(items: seq<Item>, n: nat, r: Resource, q: nat)
    requires n > 0 && q > 0 && IsDefault(items, n, r, q) && WithinOne(items, n, r, n * q)
    ensures FairlySupplied(items, n, r, q)
  {
    Positive(n, q);
    var k :| 0 <= k < |items| && items[k].isContainer && Supplies(items[k], n, r, q);
    var i :| 0 <= i < |items| && items[i].isContainer && WithinItem(items[i], n, r, n * q);
    if q == Get(items[k].min, r) {
      assert Fairly(items[k], n, r, q);
    } else {
      FairFrom(items[k], items[i], n, r, q);
    }
  }

  lemma WithinIff(items: seq<Item>, m: nat, n: nat, r: Resource, q: nat)
    requires m <= n && n > 0 && IsDefault(items, n, r, q)
    ensures WithinOne(items, n, r, m * q) <==> q == 0 || m < n || FairlySupplied(items, n, r, q)
  {
    if q > 0 {
      if FairlySupplied(items, n, r, q) {
        var i :| 0 <= i < |items| && items[i].isContainer && Fairly(items[i], n, r, q);
        FairBounds(items[i], m, n, r, q);
      } else if m < n {
        var i :| 0 <= i < |items| && items[i].isContainer && Supplies(items[i], n, r, q);
        FewerBounds(items[i], m, n, r, q);
      } else if WithinOne(items, n, r, n * q) {
        WithinMeansFair(items, n, r, q);
      }
    }
  }

  /** What is added to a pod stays within one item's default, or its minimum once per step, if and only if some step had
      a request of its own, or the default request is fairly supplied. */
  lemma TotalWithinIff(was: seq<Container>, defaults: Option<Quantities>, now: seq<Container>, items: seq<Item>,
                       r: Resource)
    requires CountSteps(was) > 0 && AllTransformed(was, defaults, now)
    requires AreDefaults(items, CountSteps(was), if defaults.None? then map[] else defaults.value)
    ensures var n, q := CountSteps(was), DefaultOf(defaults, r);
      && TotalAdded(was, now, r) >= 0
      && (WithinOne(items, n, r, TotalAdded(was, now, r)) <==>
            q == 0 || CountEmpty(was, r) < n || FairlySupplied(items, n, r, q))
  {
    AddedExactly(was, defaults, now, r);
    DefaultsAt(items, CountSteps(was), defaults, r);
    WithinIff(items, CountEmpty(was, r), CountSteps(was), r, DefaultOf(defaults, r));
  }

  /** A default of a billionth is given out as a whole unit. */
  lemma TinyDefaultExceeded(r: Resource)
    ensures 1 * Share(1, Unit(r), 1) == Unit(r) && Unit(r) > 1
  {
    assert UnitsUp(1, Unit(r)) == 1;
  }

  // ----- In numbers -----

  // Item k is the only one for containers, and sets no minimum.
  ghost predicate OnlyItem(items: seq<Item>, k: nat, r: Resource) {
    && k < |items| && items[k].isContainer && Get(items[k].min, r) == 0
    && forall i :: 0 <= i < |items| && items[i].isContainer ==> i == k
  }

  lemma OnlyItemShares(items: seq<Item>, k: nat, n: nat, r: Resource, q: nat)
    requires n > 0 && OnlyItem(items, k, r) && IsDefault(items, n, r, q)
    ensures q == Share(Get(items[k].defaultRequest, r), Unit(r), n)
  {
  }

  // A default that is whole in the unit is divided exactly.
  lemma WholeShare(d: nat, unit: nat, n: nat)
    requires unit > 0 && n > 0
    ensures Share(d * unit, unit, n) == d / n * unit
  {
    var c := UnitsUp(d * unit, unit);
    UnitsUpBounds(d * unit, unit);
    MultipleHasNoRemainder(d, unit);
    Unscale(c, d, unit);
    Unscale(d, c, unit);
  }

  // The containers that are steps, counted.
  lemma {:induction false} StepsCounted(cs: seq<Container>)
    ensures CountSteps(cs) == |set i | 0 <= i < |cs| && HasPrefix(cs[i].name, "step-")|
  {
    if cs != [] {
      var before, last := cs[..|cs| - 1], |cs| - 1;
      StepsCounted(before);
      var all := set i | 0 <= i < |cs| && HasPrefix(cs[i].name, "step-");
      var less := set i | 0 <= i < |before| && HasPrefix(before[i].name, "step-");
      assert last !in less && all == if HasPrefix(cs[last].name, "step-") then less + {last} else less;
    }
  }

  // Container i is a step that asked for none of the resource.
  predicate AsksNone(cs: seq<Container>, i: nat, r: Resource) {
    i < |cs| && HasPrefix(cs[i].name, "step-") && RequestOf(cs[i], r) == 0
  }

  lemma GivenToStep(was: seq<Container>, defaults: Option<Quantities>, now: seq<Container>, items: seq<Item>, k: nat,
                    i: nat, r: Resource)
    requires CountSteps(was) > 0 && AllTransformed(was, defaults, now) && OnlyItem(items, k, r) && AsksNone(was, i, r)
    requires AreDefaults(items, CountSteps(was), if defaults.None? then map[] else defaults.value)
    ensures RequestOf(now[i], r) == Share(Get(items[k].defaultRequest, r), Unit(r), CountSteps(was))
  {
    RequestAfter(was[i], defaults, now[i], items, CountSteps(was), r);
    OnlyItemShares(items, k, CountSteps(was), r, RequestOf(now[i], r));
  }

  /** A default of d thousandths of a CPU, for n steps: each that asked for none is given d / n thousandths, rounded
      down. */
  lemma CpuIsShared(was: seq<Container>, defaults: Option<Quantities>, now: seq<Container>, items: seq<Item>, k: nat,
                    i: nat, d: nat)
    requires CountSteps(was) > 0 && AllTransformed(was, defaults, now) && OnlyItem(items, k, Cpu)
    requires AreDefaults(items, CountSteps(was), if defaults.None? then map[] else defaults.value)
    requires Get(items[k].defaultRequest, Cpu) == d * 1_000_000 && AsksNone(was, i, Cpu)
    ensures RequestOf(now[i], Cpu) == d / CountSteps(was) * 1_000_000
  {
    GivenToStep(was, defaults, now, items, k, i, Cpu);
    WholeShare(d, 1_000_000, CountSteps(was));
  }

  /** A default of d bytes of memory or storage, for n steps: each that asked for none is given d / n bytes, rounded
      down. */
  lemma BytesAreShared(was: seq<Container>, defaults: Option<Quantities>, now: seq<Container>, items: seq<Item>, k: nat,
                       i: nat, d: nat, r: Resource)
    requires CountSteps(was) > 0 && AllTransformed(was, defaults, now) && OnlyItem(items, k, r)
    requires AreDefaults(items, CountSteps(was), if defaults.None? then map[] else defaults.value)
    requires r == Memory || r == EphemeralStorage
    requires Get(items[k].defaultRequest, r) == d * 1_000_000_000 && AsksNone(was, i, r)
    ensures RequestOf(now[i], r) == d / CountSteps(was) * 1_000_000_000
  {
    GivenToStep(was, defaults, now, items, k, i, r);
    WholeShare(d, 1_000_000_000, CountSteps(was));
  }

  lemma SharesNearDefault(d: nat, unit: nat, n: nat)
    requires unit > 0 && n > 0
    ensures d - n * unit < n * Share(d, unit, n) < d + n * unit
  {
    var c := UnitsUp(d, unit);
    ShareTimes(d, unit, n);
    UnitsUpBounds(d, unit);
    var k := c % n;
    assert (c - k) * unit == c * unit - k * unit;
    assert n * unit == k * unit + (n - k) * unit;
    AtLeastOnce(n - k, unit);
    AtLeastOnce(n, unit);
    Scale(0, k, unit);
  }

  /** Whatever the default of such an item, the requests of n steps come to less than n thousandths of a CPU, or
      n bytes, above or below it. */
  lemma SharesComeNear(items: seq<Item>, k: nat, n: nat, r: Resource, q: nat)
    requires n > 0 && OnlyItem(items, k, r) && IsDefault(items, n, r, q)
    ensures var d, off := Get(items[k].defaultRequest, r), if r == Cpu then 1_000_000 else 1_000_000_000;
      d - n * off < n * q < d + n * off
  {
    OnlyItemShares(items, k, n, r, q);
    SharesNearDefault(Get(items[k].defaultRequest, r), Unit(r), n);
  }
}
