/** The entrypoint's substitution of references: find all of them, then replace them one after the other. */
module SequentialReplace {
  import opened Wrappers
  import opened Text

  // ----- Regular expressions, as far as they matter here -----

  // The length of the match that begins a string.
  type Matcher = string -> Option<nat>

  // Matches begin with a dollar sign, and what follows a whole match does not change it.
  ghost predicate IsMatcher(m: Matcher) {
    && (forall s :: m(s).Some? ==> 0 < m(s).value <= |s| && s[0] == '$')
    && (forall s, t :: m(s) == Some(|s|) ==> m(s + t) == Some(|s|))
  }

  // FindAllStringSubmatch: all matches from left to right, none overlapping.
  function FindAll(m: Matcher, s: string): seq<string>
    requires IsMatcher(m)
  {
    if s == "" then []
    else
      var n := m(s);
      if n.Some? then [s[..n.value]] + FindAll(m, s[n.value..]) else FindAll(m, s[1..])
  }

  // strings.ReplaceAll.
  function ReplaceAll(s: string, was: string, now: string): string
    requires was != ""
  {
    if s == "" then ""
    else if HasPrefix(s, was) then now + ReplaceAll(s[|was|..], was, now)
    else [s[0]] + ReplaceAll(s[1..], was, now)
  }

  // ----- Texts in which every dollar sign starts a reference -----

  // A dollar sign at the front and nowhere else, a closing parenthesis at the end and nowhere else.
  ghost predicate Bracketed(r: string) {
    && |r| > 1 && r[0] == '$' && r[|r| - 1] == ')'
    && (forall k :: 0 < k < |r| ==> r[k] != '$')
    && (forall k :: 0 <= k < |r| - 1 ==> r[k] != ')')
  }

  // A whole match, bracketed.
  ghost predicate IsRef(m: Matcher, r: string) {
    m(r) == Some(|r|) && Bracketed(r)
  }

  datatype Piece = Plain(c: char) | Use(ref: string)

  ghost predicate WellFormed(m: Matcher, ps: seq<Piece>) {
    forall i :: 0 <= i < |ps| ==> if ps[i].Plain? then ps[i].c != '$' else IsRef(m, ps[i].ref)
  }

  // The text with the references in done replaced by their values and the others as they stand.
  ghost function Partly(ps: seq<Piece>, done: set<string>, value: string -> string): string {
    if ps == [] then ""
    else (match ps[0]
          case Plain(c) => [c]
          case Use(r) => if r in done then value(r) else r) + Partly(ps[1..], done, value)
  }

  function TextOf(ps: seq<Piece>): string {
    if ps == [] then ""
    else (match ps[0] case Plain(c) => [c] case Use(r) => r) + TextOf(ps[1..])
  }

  // Simultaneous replacement of all references.
  function Render(ps: seq<Piece>, value: string -> string): string {
    if ps == [] then ""
    else (match ps[0] case Plain(c) => [c] case Use(r) => value(r)) + Render(ps[1..], value)
  }

  function Refs(ps: seq<Piece>): seq<string> {
    if ps == [] then []
    else (match ps[0] case Plain(_) => [] case Use(r) => [r]) + Refs(ps[1..])
  }

  // The loop: each match in turn is replaced throughout.
  function Sequential(s: string, matches: seq<string>, value: string -> string): string
    requires "" !in matches
  {
    if matches == [] then s
    else
      var before, last := Sequential(s, matches[..|matches| - 1], value), matches[|matches| - 1];
      ReplaceAll(before, last, value(last))
  }

  lemma {:induction false} FoundNonEmpty(m: Matcher, s: string)
    requires IsMatcher(m)
    ensures "" !in FindAll(m, s)
  {
    if s != "" {
      var n := m(s);
      FoundNonEmpty(m, if n.Some? then s[n.value..] else s[1..]);
    }
  }

  // ----- Finding all -----

  lemma FindAtPlain(m: Matcher, c: char, more: string)
    requires IsMatcher(m) && c != '$'
    ensures FindAll(m, [c] + more) == FindAll(m, more)
  {
    var s := [c] + more;
    assert s[0] == c && s[1..] == more;
  }

  lemma FindAtRef(m: Matcher, r: string, more: string)
    requires IsMatcher(m) && IsRef(m, r)
    ensures FindAll(m, r + more) == [r] + FindAll(m, more)
  {
    var s := r + more;
    assert m(s) == Some(|r|) && s[..|r|] == r && s[|r|..] == more;
  }

  /** Where every dollar sign starts a reference, exactly the references are found, in order. */
  lemma {:induction false} FindAllRefs(m: Matcher, ps: seq<Piece>)
    requires IsMatcher(m) && WellFormed(m, ps)
    ensures FindAll(m, TextOf(ps)) == Refs(ps)
  {
    if ps != [] {
      FindAllRefs(m, ps[1..]);
      match ps[0]
      case Plain(c) => FindAtPlain(m, c, TextOf(ps[1..]));
      case Use(r) =>
        assert IsRef(m, r);
        FindAtRef(m, r, TextOf(ps[1..]));
    }
  }

  // ----- Replacing one after the other -----

  // From no dollar sign of w could r begin, whatever follows w.
  ghost predicate NoStart(w: string, r: string) {
    forall k :: 0 <= k < |w| && w[k] == '$' ==> !HasPrefix(w[k..], r) && !HasPrefix(r, w[k..])
  }

  lemma NoStartTail(w: string, r: string)
    requires w != "" && NoStart(w, r)
    ensures NoStart(w[1..], r)
  {
    forall k | 0 <= k < |w| - 1 && w[1..][k] == '$'
      ensures !HasPrefix(w[1..][k..], r) && !HasPrefix(r, w[1..][k..])
    {
      assert w[1..][k..] == w[k + 1..];
    }
  }

  lemma NoStartHere(w: string, t: string, r: string)
    requires w != "" && r != "" && r[0] == '$' && NoStart(w, r)
    ensures !HasPrefix(w + t, r)
  {
    PrefixAt(w + t, r, 0);
    PrefixesNest(w + t, r, w);
    PrefixesNest(w + t, w, r);
    PrefixOfConcat(w, t);
    assert w[0..] == w;
  }

  lemma Uncons(w: string, t: string)
    requires w != ""
    ensures (w + t)[0] == w[0] && (w + t)[1..] == w[1..] + t && w + t == [w[0]] + (w[1..] + t)
  {
  }

  // Text in which r cannot begin is passed over.
  lemma {:induction false} PassOver(w: string, t: string, r: string, v: string)
    requires r != "" && r[0] == '$' && NoStart(w, r)
    ensures ReplaceAll(w + t, r, v) == w + ReplaceAll(t, r, v)
  {
    if w == "" {
      assert w + t == t;
    } else {
      NoStartHere(w, t, r);
      NoStartTail(w, r);
      PassOver(w[1..], t, r, v);
      Uncons(w, t);
      Uncons(w, ReplaceAll(t, r, v));
    }
  }

  // Neither of two bracketed strings begins the other.
  lemma BracketedTold(q: string, r: string)
    requires Bracketed(q) && Bracketed(r) && HasPrefix(q, r)
    ensures q == r
  {
    PrefixAt(q, r, |r| - 1);
    assert q[..|r|] == r;
  }

  lemma OtherNoStart(q: string, r: string)
    requires Bracketed(q) && Bracketed(r) && q != r
    ensures NoStart(q, r)
  {
    forall k | 0 <= k < |q| && q[k] == '$'
      ensures !HasPrefix(q[k..], r) && !HasPrefix(r, q[k..])
    {
      assert q[0..] == q;
      if HasPrefix(q, r) { BracketedTold(q, r); }
      if HasPrefix(r, q) { BracketedTold(r, q); }
    }
  }

  lemma ReplaceFront(r: string, t: string, v: string)
    requires r != ""
    ensures ReplaceAll(r + t, r, v) == v + ReplaceAll(t, r, v)
  {
    assert (r + t)[..|r|] == r && (r + t)[|r|..] == t;
  }

  // Replacing something by itself changes nothing.
  lemma {:induction false} ReplaceBySame(s: string, r: string)
    requires r != ""
    ensures ReplaceAll(s, r, r) == s
  {
    if s != "" {
      var n := if HasPrefix(s, r) then |r| else 1;
      ReplaceBySame(s[n..], r);
      assert s == s[..n] + s[n..];
    }
  }

  // ----- The condition -----

  // In q's value r cannot begin, unless r stands for itself: it does not stand there, and no following text can
  // complete it.
  ghost predicate Inert(q: string, r: string, value: string -> string) {
    value(r) == r || NoStart(value(q), r)
  }

  ghost predicate AllInert(rs: seq<string>, value: string -> string) {
    forall q, r :: q in rs && r in rs ==> Inert(q, r, value)
  }

  // Replacing one reference more.
  lemma {:induction false} OneMore(m: Matcher, ps: seq<Piece>, rs: seq<string>, done: set<string>,
                                   value: string -> string, r: string)
    requires WellFormed(m, ps) && IsRef(m, r) && AllInert(rs, value) && r in rs && value(r) != r
    requires forall q :: q in Refs(ps) ==> q in rs
    ensures ReplaceAll(Partly(ps, done, value), r, value(r)) == Partly(ps, done + {r}, value)
  {
    if ps != [] {
      var more := Partly(ps[1..], done, value);
      assert WellFormed(m, ps[1..]);
      OneMore(m, ps[1..], rs, done, value, r);
      match ps[0]
      case Plain(c) =>
        PassOver([c], more, r, value(r));
      case Use(q) =>
        assert IsRef(m, q) && q in Refs(ps);
        if q in done {
          assert Inert(q, r, value);
          PassOver(value(q), more, r, value(r));
        } else if q == r {
          ReplaceFront(r, more, value(r));
        } else {
          OtherNoStart(q, r);
          PassOver(q, more, r, value(r));
        }
    }
  }

  lemma {:induction false} SelfDone(ps: seq<Piece>, done: set<string>, value: string -> string, r: string)
    requires value(r) == r
    ensures Partly(ps, done + {r}, value) == Partly(ps, done, value)
  {
    if ps != [] {
      SelfDone(ps[1..], done, value, r);
    }
  }

  function Elements(xs: seq<string>): set<string> {
    set x | x in xs
  }

  lemma {:induction false} NothingDone(ps: seq<Piece>, value: string -> string)
    ensures Partly(ps, {}, value) == TextOf(ps)
  {
    if ps != [] {
      NothingDone(ps[1..], value);
    }
  }

  lemma {:induction false} AllDone(ps: seq<Piece>, done: set<string>, value: string -> string)
    requires forall r :: r in Refs(ps) ==> r in done
    ensures Partly(ps, done, value) == Render(ps, value)
  {
    if ps != [] {
      AllDone(ps[1..], done, value);
    }
  }

  // Every reference found is one of the text's.
  lemma {:induction false} RefsAreRefs(m: Matcher, ps: seq<Piece>)
    requires WellFormed(m, ps)
    ensures forall r :: r in Refs(ps) ==> IsRef(m, r)
  {
    if ps != [] {
      RefsAreRefs(m, ps[1..]);
    }
  }

  lemma {:induction false} SequentialSoFar(m: Matcher, ps: seq<Piece>, rs: seq<string>, matches: seq<string>,
                                           value: string -> string)
    requires WellFormed(m, ps) && AllInert(rs, value) && forall q :: q in Refs(ps) ==> q in rs
    requires forall r :: r in matches ==> IsRef(m, r) && r in rs
    ensures "" !in matches
    ensures Sequential(TextOf(ps), matches, value) == Partly(ps, Elements(matches), value)
  {
    if matches == [] {
      assert Elements(matches) == {};
      NothingDone(ps, value);
    } else {
      var init, r := matches[..|matches| - 1], matches[|matches| - 1];
      SequentialSoFar(m, ps, rs, init, value);
      assert Elements(matches) == Elements(init) + {r};
      if value(r) == r {
        ReplaceBySame(Partly(ps, Elements(init), value), r);
        SelfDone(ps, Elements(init), value, r);
      } else {
        OneMore(m, ps, rs, Elements(init), value, r);
      }
    }
  }

  // Replacing the matches of the text one after the other gives the simultaneous replacement.
  ghost predicate AllAtOnce(m: Matcher, ps: seq<Piece>, value: string -> string)
    requires IsMatcher(m)
  {
    var found := FindAll(m, TextOf(ps));
    "" !in found && Sequential(TextOf(ps), found, value) == Render(ps, value)
  }

  /** Where no value of the text's references lets one of them begin, finding all references and replacing them one
      after the other is replacing them all at once. */
  lemma SequentialIsSimultaneous(m: Matcher, ps: seq<Piece>, value: string -> string)
    requires IsMatcher(m) && WellFormed(m, ps) && AllInert(Refs(ps), value)
    ensures AllAtOnce(m, ps, value)
  {
    FindAllRefs(m, ps);
    RefsAreRefs(m, ps);
    SequentialSoFar(m, ps, Refs(ps), Refs(ps), value);
    AllDone(ps, Elements(Refs(ps)), value);
  }

  // In particular where the values hold no dollar sign.
  lemma DollarFreeIsInert(rs: seq<string>, value: string -> string)
    requires forall q :: q in rs ==> '$' !in value(q)
    ensures AllInert(rs, value)
  {
    forall q, r | q in rs && r in rs
      ensures Inert(q, r, value)
    {
      assert forall k :: 0 <= k < |value(q)| ==> value(q)[k] in value(q);
    }
  }

  // ----- Each violation shows on some text -----

  function Count(s: string, r: string): nat
    requires r != ""
  {
    if s == "" then 0
    else if HasPrefix(s, r) then 1 + Count(s[|r|..], r)
    else Count(s[1..], r)
  }

  lemma Distribute(c: nat, d: int)
    ensures (1 + c) * d == d + c * d
  {
  }

  lemma {:induction false} ReplacedLength(s: string, r: string, v: string)
    requires r != ""
    ensures |ReplaceAll(s, r, v)| == |s| + Count(s, r) * (|v| - |r|)
  {
    if s != "" {
      if HasPrefix(s, r) {
        ReplacedLength(s[|r|..], r, v);
        Distribute(Count(s[|r|..], r), |v| - |r|);
      } else {
        ReplacedLength(s[1..], r, v);
      }
    }
  }

  // Replacing an occurrence by something else is visible.
  lemma {:induction false} ReplaceChanges(s: string, r: string, v: string, k: nat)
    requires r != "" && v != r && k <= |s| && HasPrefix(s[k..], r)
    ensures ReplaceAll(s, r, v) != s
    decreases k
  {
    if HasPrefix(s, r) {
      var more := s[|r|..];
      ReplacedLength(more, r, v);
      FrontDiffers(r, more, v, ReplaceAll(more, r, v), Count(more, r));
      assert s == r + more;
    } else {
      assert k > 0 by { assert s[0..] == s; }
      assert s[1..][k - 1..] == s[k..];
      ReplaceChanges(s[1..], r, v, k - 1);
      assert s == [s[0]] + s[1..];
    }
  }

  lemma FrontDiffers(r: string, more: string, v: string, replaced: string, c: nat)
    requires v != r && |replaced| == |more| + c * (|v| - |r|)
    ensures v + replaced != r + more
  {
    if |v| == |r| {
      assert (v + replaced)[..|v|] == v && (r + more)[..|r|] == r;
    } else {
      Distribute(c, |v| - |r|);
      assert |v + replaced| == |r + more| + (1 + c) * (|v| - |r|);
      NonZeroProduct(c, |v| - |r|);
    }
  }

  lemma NonZeroProduct(c: nat, d: int)
    requires d != 0
    ensures (1 + c) * d != 0
  {
  }

  // A text that starts with a dollar sign completes no r begun before it.
  lemma {:induction false} ReplaceParts(s: string, t: string, r: string, v: string)
    requires Bracketed(r) && t != "" && t[0] == '$'
    ensures ReplaceAll(s + t, r, v) == ReplaceAll(s, r, v) + ReplaceAll(t, r, v)
  {
    if s == "" {
      assert s + t == t;
    } else {
      NotAcross(s, t, r);
      if HasPrefix(s, r) {
        assert (s + t)[|r|..] == s[|r|..] + t;
        ReplaceParts(s[|r|..], t, r, v);
      } else {
        assert (s + t)[1..] == s[1..] + t && (s + t)[0] == s[0];
        ReplaceParts(s[1..], t, r, v);
      }
    }
  }

  lemma NotAcross(s: string, t: string, r: string)
    requires s != "" && Bracketed(r) && t != "" && t[0] == '$'
    ensures HasPrefix(s + t, r) <==> HasPrefix(s, r)
  {
    PrefixAt(s + t, r, |s|);
    assert (s + t)[|s|] == '$';
    PrefixesNest(s + t, r, s);
    PrefixOfConcat(s, t);
    if HasPrefix(s, r) {
      assert (s + t)[..|r|] == s[..|r|];
    }
  }

  function Chars(s: string): seq<Piece> {
    seq(|s|, i requires 0 <= i < |s| => Plain(s[i]))
  }

  // q, then what completes r, then r.
  function Trap(q: string, rest: string, r: string): seq<Piece> {
    [Use(q)] + (Chars(rest) + [Use(r)])
  }

  lemma CharsHead(rest: string, ps: seq<Piece>)
    requires rest != ""
    ensures Chars(rest) + ps == [Plain(rest[0])] + (Chars(rest[1..]) + ps)
  {
  }

  lemma {:induction false} CharsText(rest: string, ps: seq<Piece>)
    ensures TextOf(Chars(rest) + ps) == rest + TextOf(ps)
  {
    if rest == "" {
      assert Chars(rest) + ps == ps;
    } else {
      CharsHead(rest, ps);
      CharsText(rest[1..], ps);
      assert rest == [rest[0]] + rest[1..];
    }
  }

  lemma {:induction false} CharsRender(rest: string, ps: seq<Piece>, value: string -> string)
    ensures Render(Chars(rest) + ps, value) == rest + Render(ps, value)
  {
    if rest == "" {
      assert Chars(rest) + ps == ps;
    } else {
      CharsHead(rest, ps);
      CharsRender(rest[1..], ps, value);
      assert rest == [rest[0]] + rest[1..];
    }
  }

  lemma {:induction false} CharsRefs(rest: string, ps: seq<Piece>)
    ensures Refs(Chars(rest) + ps) == Refs(ps)
  {
    if rest == "" {
      assert Chars(rest) + ps == ps;
    } else {
      CharsHead(rest, ps);
      CharsRefs(rest[1..], ps);
    }
  }

  lemma OnePiece(r: string, value: string -> string)
    ensures var ps := [Use(r)]; TextOf(ps) == r && Refs(ps) == [r] && Render(ps, value) == value(r)
  {
    var ps := [Use(r)];
    assert ps[1..] == [];
    assert r + "" == r && value(r) + "" == value(r);
  }

  lemma TrapText(q: string, rest: string, r: string, value: string -> string)
    ensures var ps := Trap(q, rest, r);
      TextOf(ps) == q + (rest + r) && Refs(ps) == [q, r] && Render(ps, value) == value(q) + (rest + value(r))
  {
    var ps := Trap(q, rest, r);
    assert ps[0] == Use(q) && ps[1..] == Chars(rest) + [Use(r)];
    CharsText(rest, [Use(r)]);
    CharsRender(rest, [Use(r)], value);
    CharsRefs(rest, [Use(r)]);
    OnePiece(r, value);
  }

  lemma TrapWellFormed(m: Matcher, q: string, rest: string, r: string)
    requires IsRef(m, q) && IsRef(m, r) && '$' !in rest
    ensures WellFormed(m, Trap(q, rest, r))
  {
  }

  lemma TwoReplacements(s: string, q: string, r: string, value: string -> string)
    requires q != "" && r != ""
    ensures Sequential(s, [q, r], value) == ReplaceAll(ReplaceAll(s, q, value(q)), r, value(r))
  {
    assert [q, r][..1] == [q] && [q][..0] == [];
    assert Sequential(s, [q], value) == ReplaceAll(s, q, value(q));
  }

  lemma DollarFreeNoStart(w: string, r: string)
    requires '$' !in w
    ensures NoStart(w, r)
  {
    assert forall k :: 0 <= k < |w| ==> w[k] in w;
  }

  // After the first of the two replacements.
  lemma FirstReplaced(q: string, rest: string, r: string, x: string)
    requires Bracketed(q) && Bracketed(r) && '$' !in rest
    ensures ReplaceAll(q + (rest + r), q, x) == x + (rest + if q == r then x else r)
  {
    ReplaceFront(q, rest + r, x);
    DollarFreeNoStart(rest, q);
    PassOver(rest, r, q, x);
    assert r + "" == r && x + "" == x;
    if q == r {
      ReplaceFront(r, "", x);
    } else {
      OtherNoStart(r, q);
      PassOver(r, "", q, x);
    }
  }

  // The second replacement finds r in front of the last piece too.
  lemma SecondReplaces(q: string, rest: string, r: string, x: string, v: string, k: nat)
    requires Bracketed(r) && v != r && k <= |x + rest| && HasPrefix((x + rest)[k..], r) && (q == r ==> x == v)
    ensures ReplaceAll(x + (rest + if q == r then x else r), r, v) != x + (rest + v)
  {
    var front := x + rest;
    if q == r {
      var all := x + (rest + x);
      assert all == front + x && all[k..] == front[k..] + x;
      assert HasPrefix(all[k..], r) by { assert (front[k..] + x)[..|r|] == front[k..][..|r|]; }
      ReplaceChanges(all, r, v, k);
    } else {
      assert x + (rest + r) == front + r && x + (rest + v) == front + v;
      ReplaceParts(front, r, r, v);
      ReplaceFront(r, "", v);
      assert r + "" == r && v + "" == v;
      ReplaceChanges(front, r, v, k);
      SameBack(ReplaceAll(front, r, v), front, v);
    }
  }

  lemma SameBack(a: string, b: string, t: string)
    ensures a + t == b + t ==> a == b
  {
    assert (a + t)[..|a|] == a && (b + t)[..|b|] == b;
  }

  // What completes r after w from its dollar sign at k.
  function Completion(w: string, k: nat, r: string): string
    requires k <= |w|
  {
    if |w| - k < |r| then r[|w| - k..] else ""
  }

  lemma Completes(w: string, k: nat, r: string)
    requires Bracketed(r) && k < |w| && (HasPrefix(w[k..], r) || HasPrefix(r, w[k..]))
    ensures var rest := Completion(w, k, r); '$' !in rest && k <= |w + rest| && HasPrefix((w + rest)[k..], r)
  {
    var rest, u := Completion(w, k, r), w[k..];
    assert (w + rest)[k..] == u + rest;
    if |u| < |r| {
      assert u + rest == r;
    } else {
      assert rest == "" && u + rest == u;
      if HasPrefix(r, u) {
        assert u == r;
      }
    }
  }

  /** A value in which a reference could begin spoils the text that spells the reference out and then uses it. */
  lemma ViolationShows(m: Matcher, q: string, r: string, value: string -> string) returns (ps: seq<Piece>)
    requires IsMatcher(m) && IsRef(m, q) && IsRef(m, r) && !Inert(q, r, value)
    ensures WellFormed(m, ps) && !AllAtOnce(m, ps, value)
  {
    var w := value(q);
    var k :| 0 <= k < |w| && w[k] == '$' && (HasPrefix(w[k..], r) || HasPrefix(r, w[k..]));
    var rest := Completion(w, k, r);
    Completes(w, k, r);
    ps := Trap(q, rest, r);
    TrapWellFormed(m, q, rest, r);
    TrapText(q, rest, r, value);
    FindAllRefs(m, ps);
    TwoReplacements(TextOf(ps), q, r, value);
    FirstReplaced(q, rest, r, w);
    SecondReplaces(q, rest, r, w, value(r), k);
  }

  // In no reference's value can a reference begin that is replaced by something else.
  ghost predicate Safe(m: Matcher, value: string -> string) {
    forall q, r :: IsRef(m, q) && IsRef(m, r) ==> Inert(q, r, value)
  }

  ghost predicate AlwaysAllAtOnce(m: Matcher, value: string -> string)
    requires IsMatcher(m)
  {
    forall ps :: WellFormed(m, ps) ==> AllAtOnce(m, ps, value)
  }

  /** For given values, every text in which each dollar sign starts a reference comes out as if all references had been
      replaced at once if and only if no value holds a dollar sign from which a reference could begin that is replaced
      by something else. */
  lemma SequentialIff(m: Matcher, value: string -> string)
    requires IsMatcher(m)
    ensures AlwaysAllAtOnce(m, value) <==> Safe(m, value)
  {
    if Safe(m, value) {
      forall ps | WellFormed(m, ps)
        ensures AllAtOnce(m, ps, value)
      {
        RefsAreRefs(m, ps);
        SequentialIsSimultaneous(m, ps, value);
      }
    } else {
      var q, r :| IsRef(m, q) && IsRef(m, r) && !Inert(q, r, value);
      var ps := ViolationShows(m, q, r, value);
      assert WellFormed(m, ps) && !AllAtOnce(m, ps, value);
    }
  }
}
