/** Replacing references to step results and step artifacts in a step's command line and environment. */
module StepResultRefs {
  import opened Wrappers
  import opened Text
  import opened SequentialReplace

  // What looking a reference up gives: a string, an array, or an error.
  datatype Replacement = Str(value: string) | Arr(values: seq<string>) | Failure

  // An empty array is replaced as the empty string.
  function AsString(v: Replacement): string {
    if v.Str? then v.value else ""
  }

  function Values(lookup: string -> Replacement): string -> string {
    r => AsString(lookup(r))
  }

  predicate IsArray(v: Replacement) {
    v.Arr? && v.values != []
  }

  // ----- One text -----

  /** Environment variables and artifact references: each match in turn is replaced throughout; a match without a value
      is an error. */
  method ReplaceValue(m: Matcher, src: string, getValue: string -> Replacement) returns (t: Option<string>)
    requires IsMatcher(m)
    ensures t.None? <==> exists r :: r in FindAll(m, src) && getValue(r).Failure?
    ensures t.Some? ==> "" !in FindAll(m, src) && t.value == Sequential(src, FindAll(m, src), Values(getValue))
  {
    FoundNonEmpty(m, src);
    var matches := FindAll(m, src);
    var now := src;
    for i := 0 to |matches|
      invariant now == Sequential(src, matches[..i], Values(getValue))
      invariant forall j :: 0 <= j < i ==> !getValue(matches[j]).Failure?
    {
      var v := getValue(matches[i]);
      if v.Failure? {
        return None;
      }
      assert matches[..i + 1][..i] == matches[..i];
      now := ReplaceAll(now, matches[i], AsString(v));
    }
    assert matches[..|matches|] == matches;
    return Some(now);
  }

  // ----- One argument -----

  // What one argument becomes: an argument that is one array reference becomes the array's elements;
  // elsewhere an array is an error.
  function Expand(ps: seq<Piece>, lookup: string -> Replacement): Option<seq<string>> {
    if exists r :: r in Refs(ps) && lookup(r).Failure? then None
    else if |ps| == 1 && ps[0].Use? && IsArray(lookup(ps[0].ref)) then Some(lookup(ps[0].ref).values)
    else if exists r :: r in Refs(ps) && IsArray(lookup(r)) then None
    else Some([Render(ps, Values(lookup))])
  }

  // A failed look-up, or an array in a larger argument, stops at match r.
  predicate Stops(c: string, r: string, lookup: string -> Replacement) {
    lookup(r).Failure? || (IsArray(lookup(r)) && c != r)
  }

  ghost predicate ArgStops(m: Matcher, c: string, lookup: string -> Replacement)
    requires IsMatcher(m)
  {
    exists r :: r in FindAll(m, c) && Stops(c, r, lookup)
  }

  ghost predicate ArgReplaced(m: Matcher, c: string, lookup: string -> Replacement, out: Option<seq<string>>)
    requires IsMatcher(m)
  {
    var found := FindAll(m, c);
    && (out.None? <==> ArgStops(m, c, lookup))
    && (out.Some? && found == [c] && IsArray(lookup(c)) ==> out.value == lookup(c).values)
    && (out.Some? && (forall r :: r in found ==> !IsArray(lookup(r))) ==>
          "" !in found && out.value == [Sequential(c, found, Values(lookup))])
  }

  lemma WholeReplaced(c: string, value: string -> string)
    requires c != ""
    ensures Sequential(c, [c], value) == value(c)
  {
    var one := [c];
    assert one[..0] == [] && Sequential(c, one[..0], value) == c;
    assert ReplaceAll(c, c, value(c)) == value(c) + ReplaceAll(c[|c|..], c, value(c)) == value(c);
  }

  /** An argument that is one reference and nothing else: an array becomes its elements, an empty one an empty argument,
      a string itself, and a failed look-up an error. */
  lemma WholeArgument(m: Matcher, c: string, lookup: string -> Replacement, out: Option<seq<string>>)
    requires IsMatcher(m) && FindAll(m, c) == [c] && ArgReplaced(m, c, lookup, out)
    ensures lookup(c).Failure? ==> out == None
    ensures lookup(c).Arr? ==> out == Some(if lookup(c).values == [] then [""] else lookup(c).values)
    ensures lookup(c).Str? ==> out == Some([lookup(c).value])
  {
    FoundNonEmpty(m, c);
    var found := FindAll(m, c);
    assert found[0] == c && c in found;
    if lookup(c).Failure? {
      assert Stops(c, c, lookup);
    } else {
      assert out.Some?;
      WholeReplaced(c, Values(lookup));
    }
  }

  /** In a larger argument an array with elements is an error. */
  lemma ArrayInside(m: Matcher, c: string, lookup: string -> Replacement, out: Option<seq<string>>, r: string,
                    values: seq<string>)
    requires IsMatcher(m) && r in FindAll(m, c) && r != c && ArgReplaced(m, c, lookup, out)
    requires lookup(r) == Failure || (lookup(r) == Arr(values) && values != [])
    ensures out == None
  {
    assert Stops(c, r, lookup);
  }

  method ReplaceArg(m: Matcher, c: string, lookup: string -> Replacement) returns (out: Option<seq<string>>)
    requires IsMatcher(m)
    ensures ArgReplaced(m, c, lookup, out)
  {
    FoundNonEmpty(m, c);
    var matches := FindAll(m, c);
    var newC := [c];
    for i := 0 to |matches|
      invariant newC != [] && forall j :: 0 <= j < i ==> !Stops(c, matches[j], lookup)
      invariant (forall j :: 0 <= j < i ==> !IsArray(lookup(matches[j]))) ==>
                  newC == [Sequential(c, matches[..i], Values(lookup))]
      invariant matches == [c] && IsArray(lookup(c)) && i == 1 ==> newC == lookup(c).values
    {
      var r := matches[i];
      var v := lookup(r);
      if v.Failure? {
        assert Stops(c, r, lookup);
        return None;
      }
      assert matches[..i + 1][..i] == matches[..i];
      if IsArray(v) {
        if c != r {
          assert Stops(c, r, lookup);
          return None;
        }
        newC := v.values;
      } else {
        newC := newC[0 := ReplaceAll(newC[0], r, AsString(v))];
      }
    }
    assert matches[..|matches|] == matches;
    return Some(newC);
  }

  lemma TextNonEmpty(m: Matcher, ps: seq<Piece>)
    requires WellFormed(m, ps) && ps != []
    ensures TextOf(ps) != ""
  {
    assert ps[0].Use? ==> IsRef(m, ps[0].ref);
  }

  // An argument is one reference exactly when its only piece is.
  lemma {:induction false} OnlyPiece(m: Matcher, ps: seq<Piece>, r: string)
    requires WellFormed(m, ps) && r in Refs(ps)
    ensures |r| <= |TextOf(ps)| && (TextOf(ps) == r <==> ps == [Use(r)])
  {
    var more := ps[1..];
    if r in Refs(more) {
      OnlyPiece(m, more, r);
      assert ps != [Use(r)];
      assert ps[0].Use? ==> IsRef(m, ps[0].ref);
    } else {
      assert ps[0] == Use(r) && IsRef(m, r);
      if more != [] {
        TextNonEmpty(m, more);
      } else {
        assert ps == [Use(r)] && TextOf(more) == "";
      }
    }
  }

  // A text of references and no values that let one begin.
  ghost predicate Tidy(m: Matcher, ps: seq<Piece>, lookup: string -> Replacement) {
    WellFormed(m, ps) && AllInert(Refs(ps), Values(lookup))
  }

  /** On a tidy argument the code gives the simultaneous expansion, errors included. */
  lemma ArgIsSimultaneous(m: Matcher, ps: seq<Piece>, lookup: string -> Replacement, out: Option<seq<string>>)
    requires IsMatcher(m) && Tidy(m, ps, lookup) && ArgReplaced(m, TextOf(ps), lookup, out)
    ensures out == Expand(ps, lookup)
  {
    var c := TextOf(ps);
    FindAllRefs(m, ps);
    SequentialIsSimultaneous(m, ps, Values(lookup));
    forall r | r in Refs(ps)
      ensures c == r <==> ps == [Use(r)]
    {
      OnlyPiece(m, ps, r);
    }
    if |ps| == 1 && ps[0].Use? {
      assert ps == [Use(ps[0].ref)];
      OnePiece(ps[0].ref, Values(lookup));
    }
  }

  // ----- The command line -----

  ghost function ExpandAll(args: seq<seq<Piece>>, lookup: string -> Replacement): Option<seq<string>> {
    if args == [] then Some([])
    else
      var before, last := ExpandAll(args[..|args| - 1], lookup), Expand(args[|args| - 1], lookup);
      if before.None? || last.None? then None else Some(before.value + last.value)
  }

  ghost predicate AllTidy(m: Matcher, args: seq<seq<Piece>>, command: seq<string>, lookup: string -> Replacement) {
    && |args| == |command|
    && forall i :: 0 <= i < |args| ==> Tidy(m, args[i], lookup) && command[i] == TextOf(args[i])
  }

  lemma {:induction false} NoneStays(args: seq<seq<Piece>>, i: nat, lookup: string -> Replacement)
    requires i <= |args| && ExpandAll(args[..i], lookup).None?
    ensures ExpandAll(args, lookup).None?
  {
    if i == |args| {
      assert args[..i] == args;
    } else {
      assert args[..|args| - 1][..i] == args[..i];
      NoneStays(args[..|args| - 1], i, lookup);
    }
  }

  lemma OneMoreArg(m: Matcher, args: seq<seq<Piece>>, command: seq<string>, lookup: string -> Replacement, i: nat,
                   newC: Option<seq<string>>)
    requires IsMatcher(m) && i < |command| && AllTidy(m, args, command, lookup)
    requires ArgReplaced(m, command[i], lookup, newC) && ExpandAll(args[..i], lookup).Some?
    ensures newC.None? ==> ExpandAll(args, lookup).None?
    ensures newC.Some? ==> ExpandAll(args[..i + 1], lookup) == Some(ExpandAll(args[..i], lookup).value + newC.value)
  {
    assert args[..i + 1][..i] == args[..i];
    ArgIsSimultaneous(m, args[i], lookup, newC);
    if newC.None? {
      NoneStays(args, i + 1, lookup);
    }
  }

  /** The command line of a step with its references replaced. When its arguments are tidy, all of them are expanded
      in place at once. */
  method ReplaceCommandAndArgs(m: Matcher, command: seq<string>, lookup: string -> Replacement,
                               ghost args: seq<seq<Piece>>)
    returns (newCommand: Option<seq<string>>)
    requires IsMatcher(m)
    ensures newCommand.None? <==> exists c :: c in command && ArgStops(m, c, lookup)
    ensures AllTidy(m, args, command, lookup) ==> newCommand == ExpandAll(args, lookup)
  {
    var result: seq<string> := [];
    for i := 0 to |command|
      invariant forall c :: c in command[..i] ==> !ArgStops(m, c, lookup)
      invariant AllTidy(m, args, command, lookup) ==> ExpandAll(args[..i], lookup) == Some(result)
    {
      var newC := ReplaceArg(m, command[i], lookup);
      if AllTidy(m, args, command, lookup) {
        OneMoreArg(m, args, command, lookup, i, newC);
      }
      if newC.None? {
        return None;
      }
      result := result + newC.value;
    }
    assert args[..|args|] == args && command[..|command|] == command;
    return Some(result);
  }

  // ----- The regular expression of step results: fixed text, lazily up to more fixed text, lazily up to the end -----

  const OPEN := "$(steps."

  // The first place where lit stands, on the same line.
  function FindLazy(s: string, lit: string): (r: Option<nat>)
    ensures r.Some? ==> r.value + |lit| <= |s|
  {
    if HasPrefix(s, lit) then Some(0)
    else if s == "" || s[0] == '\n' then None
    else
      var more := FindLazy(s[1..], lit);
      if more.None? then None else Some(more.value + 1)
  }

  function LazyInner(middle: string, s: string): Option<nat> {
    var i := FindLazy(s, middle);
    if i.None? then None
    else
      var j := FindLazy(s[i.value + |middle|..], [')']);
      if j.None? then None else Some(i.value + |middle| + j.value + 1)
  }

  function LazyMatch(open: string, middle: string, s: string): Option<nat> {
    if !HasPrefix(s, open) then None
    else
      var inner := LazyInner(middle, s[|open|..]);
      if inner.None? then None else Some(|open| + inner.value)
  }

  function ResultMatch(s: string): Option<nat> {
    LazyMatch(OPEN, ".results.", s)
  }

  lemma {:induction false} FindLazyLocal(s: string, t: string, lit: string)
    requires FindLazy(s, lit).Some?
    ensures FindLazy(s + t, lit) == FindLazy(s, lit)
  {
    assert (s + t)[..|lit|] == s[..|lit|];
    if !HasPrefix(s, lit) {
      assert (s + t)[1..] == s[1..] + t;
      FindLazyLocal(s[1..], t, lit);
    }
  }

  lemma LazyInnerLocal(middle: string, s: string, t: string)
    requires LazyInner(middle, s).Some?
    ensures LazyInner(middle, s + t) == LazyInner(middle, s)
  {
    FindLazyLocal(s, t, middle);
    var i := FindLazy(s, middle).value + |middle|;
    assert (s + t)[i..] == s[i..] + t;
    FindLazyLocal(s[i..], t, [')']);
  }

  lemma LazyMatchLocal(open: string, middle: string, s: string, t: string)
    requires LazyMatch(open, middle, s) == Some(|s|)
    ensures LazyMatch(open, middle, s + t) == Some(|s|)
  {
    assert (s + t)[..|open|] == s[..|open|] && (s + t)[|open|..] == s[|open|..] + t;
    LazyInnerLocal(middle, s[|open|..], t);
  }

  lemma ResultMatchIsMatcher()
    ensures IsMatcher(ResultMatch)
  {
    forall s | ResultMatch(s).Some?
      ensures 0 < ResultMatch(s).value <= |s| && s[0] == '$'
    {
      PrefixAt(s, OPEN, 0);
    }
    forall s, t | ResultMatch(s) == Some(|s|)
      ensures ResultMatch(s + t) == Some(|s|)
    {
      LazyMatchLocal(OPEN, ".results.", s, t);
    }
  }

  // ----- Names that make references -----

  predicate Tame(s: string) {
    '$' !in s && ')' !in s && '\n' !in s
  }

  lemma {:induction false} FindLazyWithin(s: string, lit: string, k: nat)
    requires k <= |s| && HasPrefix(s[k..], lit) && '\n' !in s[..k]
    ensures FindLazy(s, lit).Some? && FindLazy(s, lit).value <= k
  {
    if k == 0 {
      assert s[0..] == s;
    } else {
      assert s[1..][k - 1..] == s[k..];
      assert s[0] == s[..k][0];
      assert forall c :: c in s[1..][..k - 1] ==> c in s[..k];
      FindLazyWithin(s[1..], lit, k - 1);
    }
  }

  lemma {:induction false} FindClose(s: string)
    requires Tame(s)
    ensures FindLazy(s + [')'], [')']) == Some(|s|)
  {
    var t := s + [')'];
    if s == "" {
      assert t[..1] == [')'];
    } else {
      assert t[0] == s[0] && t[..1] == [s[0]] && t[1..] == s[1..] + [')'];
      FindClose(s[1..]);
    }
  }

  lemma MiddleFound(a: string, middle: string, b: string)
    requires '\n' !in a
    ensures var i := FindLazy((a + middle + b) + [')'], middle); i.Some? && i.value <= |a|
  {
    var inner := (a + middle + b) + [')'];
    assert inner[|a|..] == middle + (b + [')']) && inner[..|a|] == a;
    PrefixOfConcat(middle, b + [')']);
    FindLazyWithin(inner, middle, |a|);
  }

  lemma InnerWhole(middle: string, a: string, b: string)
    requires Tame(a) && Tame(a + middle + b)
    ensures var inner := (a + middle + b) + [')']; LazyInner(middle, inner) == Some(|inner|)
  {
    var body := a + middle + b;
    MiddleFound(a, middle, b);
    var i := FindLazy(body + [')'], middle).value + |middle|;
    assert (body + [')'])[i..] == body[i..] + [')'];
    FindClose(body[i..]);
  }

  lemma MatchWhole(open: string, middle: string, a: string, b: string)
    requires Tame(a) && Tame(a + middle + b)
    ensures var r := open + ((a + middle + b) + [')']); LazyMatch(open, middle, r) == Some(|r|)
  {
    InnerWhole(middle, a, b);
    PrefixOfConcat(open, (a + middle + b) + [')']);
  }

  lemma TameInside(head: string, body: string)
    requires head != "" && head[0] == '$' && Tame(head[1..]) && Tame(body)
    ensures Bracketed(head + (body + [')']))
  {
    var r := head + (body + [')']);
    assert forall k :: 0 < k < |head| ==> r[k] == head[1..][k - 1];
    assert forall k :: |head| <= k < |r| - 1 ==> r[k] == body[k - |head|];
  }

  lemma OpenIsTame()
    ensures OPEN[0] == '$' && Tame(OPEN[1..])
  {
    assert OPEN[1..] == "(steps.";
  }

  function ResultRef(step: string, result: string): string {
    OPEN + ((step + ".results." + result) + [')'])
  }

  /** References to step results: step and result names without dollar signs, parentheses and line breaks. */
  lemma ResultNamesMakeRefs(step: string, result: string)
    requires Tame(step) && Tame(result)
    ensures IsRef(ResultMatch, ResultRef(step, result))
  {
    OpenIsTame();
    MatchWhole(OPEN, ".results.", step, result);
    TameInside(OPEN, step + ".results." + result);
  }

  // ----- The regular expression of step artifacts: names without dots between fixed text -----

  // The characters before the first of the stops.
  function Until(s: string, stops: set<char>): (n: nat)
    ensures n <= |s|
  {
    if s == "" || s[0] in stops then 0 else 1 + Until(s[1..], stops)
  }

  // A non-empty name and the character that ends it.
  function NameLen(s: string, stops: set<char>, end: char): (r: Option<nat>)
    ensures r.Some? ==> 1 < r.value <= |s|
  {
    var n := Until(s, stops);
    if 0 < n < |s| && s[n] == end then Some(n + 1) else None
  }

  function WordLen(s: string, ins: string, outs: string): (n: nat)
    ensures n <= |s|
  {
    if HasPrefix(s, ins) then |ins| else if HasPrefix(s, outs) then |outs| else 0
  }

  // A word, then a name up to the closing parenthesis.
  function LastMatch(ins: string, outs: string, s: string): (r: Option<nat>)
    ensures r.Some? ==> 0 < r.value <= |s|
  {
    var w := WordLen(s, ins, outs);
    var j := NameLen(s[w..], {'.', ')'}, ')');
    if w == 0 || j.None? then None else Some(w + j.value)
  }

  // A name up to a dot, then that.
  function InnerMatch(ins: string, outs: string, s: string): (r: Option<nat>)
    ensures r.Some? ==> 0 < r.value <= |s|
  {
    var i := NameLen(s, {'.'}, '.');
    if i.None? then None
    else
      var last := LastMatch(ins, outs, s[i.value..]);
      if last.None? then None else Some(i.value + last.value)
  }

  function PartsMatch(open: string, ins: string, outs: string, s: string): (r: Option<nat>)
    ensures r.Some? ==> 0 < r.value <= |s|
  {
    if !HasPrefix(s, open) then None
    else
      var inner := InnerMatch(ins, outs, s[|open|..]);
      if inner.None? then None else Some(|open| + inner.value)
  }

  function ArtifactMatch(s: string): Option<nat> {
    PartsMatch(OPEN, "inputs.", "outputs.", s)
  }

  lemma {:induction false} UntilLocal(s: string, t: string, stops: set<char>)
    requires Until(s, stops) < |s|
    ensures Until(s + t, stops) == Until(s, stops)
  {
    if s[0] !in stops {
      assert (s + t)[1..] == s[1..] + t;
      UntilLocal(s[1..], t, stops);
    }
  }

  // A beginning is there whatever follows, and one of two that exclude each other excludes the other still.
  lemma PrefixLocal(s: string, t: string, ins: string, outs: string)
    requires ins != "" && outs != "" && ins[0] != outs[0] && (HasPrefix(s, ins) || HasPrefix(s, outs))
    ensures HasPrefix(s + t, ins) == HasPrefix(s, ins) && HasPrefix(s + t, outs) == HasPrefix(s, outs)
  {
    PrefixAt(s, ins, 0);
    PrefixAt(s, outs, 0);
    PrefixAt(s + t, ins, 0);
    PrefixAt(s + t, outs, 0);
    assert (s + t)[0] == s[0];
    if HasPrefix(s, ins) {
      assert (s + t)[..|ins|] == s[..|ins|];
    } else {
      assert (s + t)[..|outs|] == s[..|outs|];
    }
  }

  lemma NameLenLocal(s: string, t: string, stops: set<char>, end: char)
    requires NameLen(s, stops, end).Some?
    ensures NameLen(s + t, stops, end) == NameLen(s, stops, end)
  {
    UntilLocal(s, t, stops);
  }

  lemma LastMatchLocal(ins: string, outs: string, s: string, t: string)
    requires ins != "" && outs != "" && ins[0] != outs[0] && LastMatch(ins, outs, s).Some?
    ensures LastMatch(ins, outs, s + t) == LastMatch(ins, outs, s)
  {
    PrefixLocal(s, t, ins, outs);
    var w := WordLen(s, ins, outs);
    assert (s + t)[w..] == s[w..] + t;
    NameLenLocal(s[w..], t, {'.', ')'}, ')');
  }

  lemma InnerMatchLocal(ins: string, outs: string, s: string, t: string)
    requires ins != "" && outs != "" && ins[0] != outs[0] && InnerMatch(ins, outs, s).Some?
    ensures InnerMatch(ins, outs, s + t) == InnerMatch(ins, outs, s)
  {
    var i := NameLen(s, {'.'}, '.').value;
    assert NameLen(s + t, {'.'}, '.') == Some(i) by { NameLenLocal(s, t, {'.'}, '.'); }
    assert (s + t)[i..] == s[i..] + t;
    assert LastMatch(ins, outs, s[i..] + t) == LastMatch(ins, outs, s[i..]) by { LastMatchLocal(ins, outs, s[i..], t); }
  }

  lemma PartsMatchLocal(open: string, ins: string, outs: string, s: string, t: string)
    requires ins != "" && outs != "" && ins[0] != outs[0] && PartsMatch(open, ins, outs, s) == Some(|s|)
    ensures PartsMatch(open, ins, outs, s + t) == Some(|s|)
  {
    var rest := s[|open|..];
    assert HasPrefix(s + t, open) by { assert (s + t)[..|open|] == s[..|open|]; }
    assert (s + t)[|open|..] == rest + t;
    assert InnerMatch(ins, outs, rest + t) == InnerMatch(ins, outs, rest) by { InnerMatchLocal(ins, outs, rest, t); }
  }

  lemma ArtifactMatchIsMatcher()
    ensures IsMatcher(ArtifactMatch)
  {
    forall s | ArtifactMatch(s).Some?
      ensures 0 < ArtifactMatch(s).value <= |s| && s[0] == '$'
    {
      PrefixAt(s, OPEN, 0);
    }
    forall s, t | ArtifactMatch(s) == Some(|s|)
      ensures ArtifactMatch(s + t) == Some(|s|)
    {
      PartsMatchLocal(OPEN, "inputs.", "outputs.", s, t);
    }
  }

  lemma {:induction false} UntilAt(a: string, t: string, stops: set<char>)
    requires t != "" && t[0] in stops && forall k :: 0 <= k < |a| ==> a[k] !in stops
    ensures Until(a + t, stops) == |a|
  {
    if a == "" {
      assert a + t == t;
    } else {
      assert (a + t)[1..] == a[1..] + t;
      UntilAt(a[1..], t, stops);
    }
  }

  lemma NameLenAt(a: string, end: char, t: string, stops: set<char>)
    requires a != "" && end in stops && forall k :: 0 <= k < |a| ==> a[k] !in stops
    ensures NameLen(a + ([end] + t), stops, end) == Some(|a| + 1)
  {
    UntilAt(a, [end] + t, stops);
    assert (a + ([end] + t))[|a|] == end;
  }

  lemma LastMatchWhole(ins: string, outs: string, word: string, b: string)
    requires ins != "" && outs != "" && ins[0] != outs[0] && (word == ins || word == outs)
    requires b != "" && Free(b, '.') && Free(b, ')')
    ensures LastMatch(ins, outs, word + (b + [')'])) == Some(|word| + |b| + 1)
  {
    var s := word + (b + [')']);
    PrefixOfConcat(word, b + [')']);
    PrefixAt(s, ins, 0);
    PrefixAt(s, outs, 0);
    assert s[0] == word[0] && WordLen(s, ins, outs) == |word|;
    NameLenAt(b, ')', "", {'.', ')'});
    assert [')'] + "" == [')'];
  }

  lemma InnerFrom(ins: string, outs: string, a: string, last: string, n: nat)
    requires a != "" && Free(a, '.') && LastMatch(ins, outs, last) == Some(n)
    ensures InnerMatch(ins, outs, a + (['.'] + last)) == Some(|a| + 1 + n)
  {
    var s := a + (['.'] + last);
    assert NameLen(s, {'.'}, '.') == Some(|a| + 1) by { NameLenAt(a, '.', last, {'.'}); }
    assert s[|a| + 1..] == last;
  }

  lemma InnerMatchWhole(ins: string, outs: string, word: string, a: string, b: string)
    requires ins != "" && outs != "" && ins[0] != outs[0] && (word == ins || word == outs)
    requires a != "" && b != "" && Free(a, '.') && Free(b, '.') && Free(b, ')')
    ensures InnerMatch(ins, outs, a + (['.'] + (word + (b + [')'])))) == Some(|a| + |word| + |b| + 2)
  {
    var last, n := word + (b + [')']), |word| + |b| + 1;
    assert LastMatch(ins, outs, last) == Some(n) by { LastMatchWhole(ins, outs, word, b); }
    InnerFrom(ins, outs, a, last, n);
  }

  lemma Regroup(a: string, word: string, b: string)
    ensures (a + ['.'] + word + b) + [')'] == a + (['.'] + (word + (b + [')'])))
  {
  }

  lemma PartsMatchWhole(open: string, ins: string, outs: string, word: string, a: string, b: string)
    requires ins != "" && outs != "" && ins[0] != outs[0] && (word == ins || word == outs)
    requires a != "" && b != "" && Free(a, '.') && Free(b, '.') && Free(b, ')')
    ensures var r := open + ((a + ['.'] + word + b) + [')']); PartsMatch(open, ins, outs, r) == Some(|r|)
  {
    var inner := (a + ['.'] + word + b) + [')'];
    Regroup(a, word, b);
    InnerMatchWhole(ins, outs, word, a, b);
    PrefixOfConcat(open, inner);
  }

  /** References to step artifacts: names without dots, dollar signs and parentheses. */
  lemma ArtifactNamesMakeRefs(step: string, word: string, name: string)
    requires word == "inputs." || word == "outputs."
    requires step != "" && name != "" && Tame(step) && Tame(name) && Free(step, '.') && Free(name, '.')
    ensures IsRef(ArtifactMatch, OPEN + ((step + ['.'] + word + name) + [')']))
  {
    OpenIsTame();
    assert Free(name, ')') by { assert forall k :: 0 <= k < |name| ==> name[k] in name; }
    PartsMatchWhole(OPEN, "inputs.", "outputs.", word, step, name);
    assert Tame(word);
    TameInside(OPEN, step + ['.'] + word + name);
  }

  // ----- What this means for step results and step artifacts -----

  /** Step results come out as if replaced at once, in every tidy text, if and only if no value lets a step-result
      reference begin that is replaced by something else. */
  lemma StepResultsIff(value: string -> string)
    ensures IsMatcher(ResultMatch) && (AlwaysAllAtOnce(ResultMatch, value) <==> Safe(ResultMatch, value))
  {
    ResultMatchIsMatcher();
    SequentialIff(ResultMatch, value);
  }

  /** The same of step artifacts. */
  lemma StepArtifactsIff(value: string -> string)
    ensures IsMatcher(ArtifactMatch) && (AlwaysAllAtOnce(ArtifactMatch, value) <==> Safe(ArtifactMatch, value))
  {
    ArtifactMatchIsMatcher();
    SequentialIff(ArtifactMatch, value);
  }

  /** A result whose value is a reference to another result: some text that uses both shows it. */
  lemma ResultValueIsRescanned(a: string, x: string, b: string, y: string, value: string -> string)
    returns (ps: seq<Piece>)
    requires Tame(a) && Tame(x) && Tame(b) && Tame(y)
    requires value(ResultRef(a, x)) == ResultRef(b, y) && value(ResultRef(b, y)) != ResultRef(b, y)
    ensures IsMatcher(ResultMatch) && WellFormed(ResultMatch, ps) && !AllAtOnce(ResultMatch, ps, value)
  {
    ResultMatchIsMatcher();
    ResultNamesMakeRefs(a, x);
    ResultNamesMakeRefs(b, y);
    NotInert(ResultRef(a, x), ResultRef(b, y), value);
    ps := ViolationShows(ResultMatch, ResultRef(a, x), ResultRef(b, y), value);
  }

  lemma NotInert(q: string, r: string, value: string -> string)
    requires r != "" && r[0] == '$' && value(q) == r && value(r) != r
    ensures !Inert(q, r, value)
  {
    assert value(q)[0..] == r && r[..|r|] == r;
  }
}
