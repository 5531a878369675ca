/**
 Command lines as Go's flag package reads them: tokens up to the first "--" are flags, what
 follows is the user's command. Generic in the flags a program defines.
 */
module Flags {
  import opened Wrappers
  import opened Text

  // ----- Flags and how they print -----

  // A program's flags: their names, the lookup of a name, which of them are switches, and the texts
  // strconv.ParseBool accepts.
  datatype FlagSet<!F> = FlagSet(name: F -> string, lookup: string -> Option<F>, isSwitch: F -> bool,
                                 truthTexts: set<string>)

  predicate PlainName(name: string) {
    name != "" && name[0] != '-' && '=' !in name
  }

  ghost predicate Coherent<F(!new)>(fs: FlagSet<F>) {
    forall f: F :: fs.lookup(fs.name(f)) == Some(f) && PlainName(fs.name(f))
  }

  // -name value | -name | -name=value
  datatype Item<F> = Pair(dashes: string, flag: F, value: string) | Switch(flag: F) | Inline(flag: F, value: string)

  const TERMINATOR := "--"

  function Tokens<F>(fs: FlagSet<F>, it: Item<F>): seq<string> {
    match it
    case Pair(dashes, flag, value) => [dashes + fs.name(flag), value]
    case Switch(flag) => ["-" + fs.name(flag)]
    case Inline(flag, value) => ["-" + fs.name(flag) + "=" + value]
  }

  function TokensOf<F>(fs: FlagSet<F>, items: seq<Item<F>>): seq<string> {
    if items == [] then [] else Tokens(fs, items[0]) + TokensOf(fs, items[1..])
  }

  predicate Proper<F>(fs: FlagSet<F>, it: Item<F>) {
    fs.isSwitch(it.flag) == it.Switch? && (it.Pair? ==> it.dashes == "-" || it.dashes == "--")
  }

  predicate AllProper<F>(fs: FlagSet<F>, items: seq<Item<F>>) {
    forall k :: 0 <= k < |items| ==> Proper(fs, items[k])
  }

  predicate HidesTerminator<F>(it: Item<F>) {
    it.Pair? && it.value == TERMINATOR
  }

  predicate NoneHides<F>(items: seq<Item<F>>) {
    forall k :: 0 <= k < |items| ==> !HidesTerminator(items[k])
  }

  // ----- Parsing -----

  datatype Assign<F> = Assign(flag: F, value: string)

  datatype Parsed<F> = Malformed | Parsed(assigns: seq<Assign<F>>, rest: seq<string>)

  // The position of the first '=' at or after `from`.
  function EqualsAt(text: string, from: nat): (k: nat)
    requires from <= |text|
    ensures from <= k <= |text|
    decreases |text| - from
  {
    if from == |text| || text[from] == '=' then from else EqualsAt(text, from + 1)
  }

  function Prepend<F>(a: Assign<F>, p: Parsed<F>): Parsed<F> {
    if p.Malformed? then Malformed else Parsed([a] + p.assigns, p.rest)
  }

  function ParseFlags<F>(fs: FlagSet<F>, args: seq<string>): Parsed<F>
    decreases |args|
  {
    if args == [] then Parsed([], [])
    else
      var s := args[0];
      if |s| < 2 || s[0] != '-' then Parsed([], args)
      else if s == TERMINATOR then Parsed([], args[1..])
      else
        var text := if s[1] == '-' then s[2..] else s[1..];
        if text == "" || text[0] == '-' || text[0] == '=' then Malformed
        else
          var eq := EqualsAt(text, 1);
          match fs.lookup(text[..eq])
          case None => Malformed
          case Some(flag) =>
            if fs.isSwitch(flag) then
              if eq == |text| then Prepend(Assign(flag, "true"), ParseFlags(fs, args[1..]))
              else if text[eq + 1..] in fs.truthTexts
              then Prepend(Assign(flag, text[eq + 1..]), ParseFlags(fs, args[1..]))
              else Malformed
            else if eq < |text| then Prepend(Assign(flag, text[eq + 1..]), ParseFlags(fs, args[1..]))
            else if |args| > 1 then Prepend(Assign(flag, args[1]), ParseFlags(fs, args[2..]))
            else Malformed
  }

  function AssignOf<F>(it: Item<F>): Assign<F> {
    Assign(it.flag, if it.Switch? then "true" else it.value)
  }

  function AssignsOf<F>(items: seq<Item<F>>): seq<Assign<F>> {
    if items == [] then [] else [AssignOf(items[0])] + AssignsOf(items[1..])
  }

  lemma {:induction false} EqualsAtFree(name: string, rest: string, from: nat)
    requires Free(name, '=') && from <= |name| && (rest == "" || rest[0] == '=')
    ensures EqualsAt(name + rest, from) == |name|
    decreases |name| - from
  {
    if from < |name| {
      EqualsAtFree(name, rest, from + 1);
    }
  }

  // The text of the token that starts a flag.
  lemma FlagText(dashes: string, name: string, rest: string)
    requires (dashes == "-" || dashes == "--") && PlainName(name) && (rest == "" || rest[0] == '=')
    ensures var s := dashes + name + rest;
            && |s| >= 2 && s[0] == '-' && s != TERMINATOR
            && (if s[1] == '-' then s[2..] else s[1..]) == name + rest
            && (name + rest)[0] != '-' && (name + rest)[0] != '='
            && EqualsAt(name + rest, 1) == |name| && (name + rest)[..|name|] == name
  {
    EqualsAtFree(name, rest, 1);
    var s := dashes + name + rest;
    assert s[1..] == dashes[1..] + name + rest;
    assert dashes == "--" ==> s[2..] == name + rest;
  }

  // One printed flag in front of anything parses back to that flag.
  lemma ParsePair<F(!new)>(fs: FlagSet<F>, dashes: string, flag: F, value: string, args: seq<string>)
    requires Coherent(fs) && Proper(fs, Pair(dashes, flag, value))
    ensures ParseFlags(fs, [dashes + fs.name(flag), value] + args) == Prepend(Assign(flag, value), ParseFlags(fs, args))
  {
    var name := fs.name(flag);
    FlagText(dashes, name, "");
    assert dashes + name + "" == dashes + name && name + "" == name;
    assert ([dashes + name, value] + args)[2..] == args;
  }

  lemma ParseSwitch<F(!new)>(fs: FlagSet<F>, flag: F, args: seq<string>)
    requires Coherent(fs) && fs.isSwitch(flag)
    ensures ParseFlags(fs, ["-" + fs.name(flag)] + args) == Prepend(Assign(flag, "true"), ParseFlags(fs, args))
  {
    var name := fs.name(flag);
    FlagText("-", name, "");
    assert "-" + name + "" == "-" + name && name + "" == name;
    assert (["-" + name] + args)[1..] == args;
  }

  lemma ParseInline<F(!new)>(fs: FlagSet<F>, flag: F, value: string, args: seq<string>)
    requires Coherent(fs) && !fs.isSwitch(flag)
    ensures ParseFlags(fs, ["-" + fs.name(flag) + "=" + value] + args) ==
              Prepend(Assign(flag, value), ParseFlags(fs, args))
  {
    var name := fs.name(flag);
    FlagText("-", name, "=" + value);
    var token := "-" + name + "=" + value;
    assert "-" + name + ("=" + value) == token;
    assert (name + ("=" + value))[|name| + 1..] == value;
    assert ([token] + args)[1..] == args;
  }

  lemma ParseItem<F(!new)>(fs: FlagSet<F>, it: Item<F>, args: seq<string>)
    requires Coherent(fs) && Proper(fs, it)
    ensures ParseFlags(fs, Tokens(fs, it) + args) == Prepend(AssignOf(it), ParseFlags(fs, args))
  {
    match it
    case Pair(dashes, flag, value) => ParsePair(fs, dashes, flag, value, args);
    case Switch(flag) => ParseSwitch(fs, flag, args);
    case Inline(flag, value) => ParseInline(fs, flag, value, args);
  }

  lemma Regroup<T>(a: seq<T>, b: seq<T>, c: seq<T>)
    ensures a + (b + c) == a + b + c
  {
  }

  lemma {:induction false} ParseTokens<F(!new)>(fs: FlagSet<F>, items: seq<Item<F>>, args: seq<string>)
    requires Coherent(fs) && AllProper(fs, items)
    ensures ParseFlags(fs, TokensOf(fs, items) + args) ==
              (if ParseFlags(fs, args).Malformed? then Malformed
               else Parsed(AssignsOf(items) + ParseFlags(fs, args).assigns, ParseFlags(fs, args).rest))
  {
    if items == [] {
      assert TokensOf(fs, items) + args == args;
    } else {
      ParseTokens(fs, items[1..], args);
      ParseItem(fs, items[0], TokensOf(fs, items[1..]) + args);
      Regroup(Tokens(fs, items[0]), TokensOf(fs, items[1..]), args);
      if !ParseFlags(fs, args).Malformed? {
        Regroup([AssignOf(items[0])], AssignsOf(items[1..]), ParseFlags(fs, args).assigns);
      }
    }
  }

  // ----- The terminator -----

  // The index of the first "--", or the length.
  function Terminator(args: seq<string>): (k: nat)
    ensures k <= |args|
    ensures forall j :: 0 <= j < k ==> args[j] != TERMINATOR
    ensures k < |args| ==> args[k] == TERMINATOR
  {
    if args == [] || args[0] == TERMINATOR then 0 else 1 + Terminator(args[1..])
  }

  // A terminator in the very first place is not taken as one.
  function SplitArgs(args: seq<string>): (seq<string>, seq<string>) {
    var k := Terminator(args);
    if 0 < k < |args| then (args[..k], args[k + 1..]) else (args, [])
  }

  method ExtractArgs(initialArgs: seq<string>) returns (args: seq<string>, commandArgs: seq<string>)
    ensures (args, commandArgs) == SplitArgs(initialArgs)
  {
    commandArgs := [];
    args := initialArgs;
    if |initialArgs| == 0 {
      return;
    }
    var terminatorIndex := -1;
    for i := 0 to |initialArgs|
      invariant terminatorIndex == -1 && forall j :: 0 <= j < i ==> initialArgs[j] != TERMINATOR
    {
      if initialArgs[i] == TERMINATOR {
        terminatorIndex := i;
        break;
      }
    }
    if terminatorIndex > 0 {
      commandArgs := initialArgs[terminatorIndex + 1..];
      args := initialArgs[..terminatorIndex];
    }
  }

  lemma {:induction false} TerminatorAfter(prefix: seq<string>, rest: seq<string>)
    requires TERMINATOR !in prefix
    ensures Terminator(prefix + [TERMINATOR] + rest) == |prefix|
  {
    if prefix != [] {
      TerminatorAfter(prefix[1..], rest);
      assert (prefix + [TERMINATOR] + rest)[1..] == prefix[1..] + [TERMINATOR] + rest;
    }
  }

  lemma SplitAtTerminator(before: seq<string>, after: seq<string>)
    requires TERMINATOR !in before && before != []
    ensures SplitArgs(before + [TERMINATOR] + after) == (before, after)
  {
    TerminatorAfter(before, after);
    assert (before + [TERMINATOR] + after)[..|before|] == before;
    assert (before + [TERMINATOR] + after)[|before| + 1..] == after;
  }

  lemma FlagIsNoTerminator<F(!new)>(fs: FlagSet<F>, dashes: string, flag: F)
    requires Coherent(fs) && (dashes == "-" || dashes == "--")
    ensures dashes + fs.name(flag) != TERMINATOR
  {
    FlagText(dashes, fs.name(flag), "");
    assert dashes + fs.name(flag) + "" == dashes + fs.name(flag);
  }

  lemma ItemHasNoTerminator<F(!new)>(fs: FlagSet<F>, it: Item<F>)
    requires Coherent(fs) && Proper(fs, it) && !HidesTerminator(it)
    ensures TERMINATOR !in Tokens(fs, it)
  {
    match it
    case Pair(dashes, flag, _) => FlagIsNoTerminator(fs, dashes, flag);
    case Switch(flag) => FlagIsNoTerminator(fs, "-", flag);
    case Inline(flag, value) =>
      FlagText("-", fs.name(flag), "=" + value);
      assert "-" + fs.name(flag) + ("=" + value) == "-" + fs.name(flag) + "=" + value;
  }

  lemma {:induction false} NoTerminatorInTokens<F(!new)>(fs: FlagSet<F>, items: seq<Item<F>>)
    requires Coherent(fs) && AllProper(fs, items) && NoneHides(items)
    ensures TERMINATOR !in TokensOf(fs, items)
  {
    if items != [] {
      NoTerminatorInTokens(fs, items[1..]);
      ItemHasNoTerminator(fs, items[0]);
    }
  }

  lemma {:induction false} TokensConcat<F>(fs: FlagSet<F>, xs: seq<Item<F>>, ys: seq<Item<F>>)
    ensures TokensOf(fs, xs + ys) == TokensOf(fs, xs) + TokensOf(fs, ys)
  {
    if xs == [] {
      assert xs + ys == ys;
    } else {
      TokensConcat(fs, xs[1..], ys);
      assert (xs + ys)[1..] == xs[1..] + ys && (xs + ys)[0] == xs[0];
      Regroup(Tokens(fs, xs[0]), TokensOf(fs, xs[1..]), TokensOf(fs, ys));
    }
  }

  lemma Rebracket<T>(a: seq<T>, flag: T, value: T, r: seq<T>, tail: seq<T>)
    ensures a + ([flag, value] + r) + [value] + tail == (a + [flag]) + [value] + (r + [value] + tail)
  {
  }

  lemma LineAround<F>(fs: FlagSet<F>, items: seq<Item<F>>, tail: seq<string>, k: nat)
    requires k < |items| && HidesTerminator(items[k])
    ensures var flag := items[k].dashes + fs.name(items[k].flag);
            TokensOf(fs, items) + [TERMINATOR] + tail ==
              (TokensOf(fs, items[..k]) + [flag]) + [TERMINATOR] + (TokensOf(fs, items[k + 1..]) + [TERMINATOR] + tail)
  {
    assert items == items[..k] + items[k..];
    TokensConcat(fs, items[..k], items[k..]);
    assert items[k..][1..] == items[k + 1..];
    Rebracket(TokensOf(fs, items[..k]), items[k].dashes + fs.name(items[k].flag), TERMINATOR,
              TokensOf(fs, items[k + 1..]), tail);
  }

  // The line is cut right after the flag whose value is the first "--".
  lemma CutLine<F(!new)>(fs: FlagSet<F>, items: seq<Item<F>>, tail: seq<string>, k: nat)
    requires Coherent(fs) && AllProper(fs, items) && k < |items| && HidesTerminator(items[k])
    requires NoneHides(items[..k])
    ensures SplitArgs(TokensOf(fs, items) + [TERMINATOR] + tail).0 ==
              TokensOf(fs, items[..k]) + [items[k].dashes + fs.name(items[k].flag)]
  {
    var flag := items[k].dashes + fs.name(items[k].flag);
    LineAround(fs, items, tail, k);
    NoTerminatorInTokens(fs, items[..k]);
    assert Proper(fs, items[k]);
    FlagIsNoTerminator(fs, items[k].dashes, items[k].flag);
    SplitAtTerminator(TokensOf(fs, items[..k]) + [flag], TokensOf(fs, items[k + 1..]) + [TERMINATOR] + tail);
  }

  lemma LoneFlag<F(!new)>(fs: FlagSet<F>, dashes: string, flag: F)
    requires Coherent(fs) && (dashes == "-" || dashes == "--") && !fs.isSwitch(flag)
    ensures ParseFlags(fs, [dashes + fs.name(flag)]).Malformed?
  {
    var name := fs.name(flag);
    FlagText(dashes, name, "");
    assert dashes + name + "" == dashes + name && name + "" == name;
  }

  lemma FirstHiding<F>(items: seq<Item<F>>) returns (k: nat)
    requires !NoneHides(items)
    ensures k < |items| && HidesTerminator(items[k]) && NoneHides(items[..k])
  {
    k := 0;
    while !HidesTerminator(items[k])
      invariant k < |items| && NoneHides(items[..k])
      decreases |items| - k
    {
      k := k + 1;
    }
  }

  /**
   Splitting a printed command line: the flags come back whole when no flag value is "--",
   otherwise the line is cut between a flag and its value, which does not parse.
   */
  lemma SplitPrinted<F(!new)>(fs: FlagSet<F>, items: seq<Item<F>>, tail: seq<string>)
    requires Coherent(fs) && AllProper(fs, items) && items != []
    ensures var (flags, command) := SplitArgs(TokensOf(fs, items) + [TERMINATOR] + tail);
            if NoneHides(items) then ParseFlags(fs, flags) == Parsed(AssignsOf(items), []) && command == tail
            else ParseFlags(fs, flags).Malformed?
  {
    if NoneHides(items) {
      NoTerminatorInTokens(fs, items);
      SplitAtTerminator(TokensOf(fs, items), tail);
      ParseTokens(fs, items, []);
      assert TokensOf(fs, items) + [] == TokensOf(fs, items) && AssignsOf(items) + [] == AssignsOf(items);
    } else {
      var k := FirstHiding(items);
      CutLine(fs, items, tail, k);
      assert Proper(fs, items[k]);
      LoneFlag(fs, items[k].dashes, items[k].flag);
      ParseTokens(fs, items[..k], [items[k].dashes + fs.name(items[k].flag)]);
    }
  }

  // ----- Reading a flag's value: the last assignment wins -----

  function LastValue<F(==)>(assigns: seq<Assign<F>>, flag: F, default: string): string {
    if assigns == [] then default
    else
      var last := assigns[|assigns| - 1];
      if last.flag == flag then last.value else LastValue(assigns[..|assigns| - 1], flag, default)
  }

  predicate Sets<F(==)>(items: seq<Item<F>>, flag: F) {
    exists k :: 0 <= k < |items| && items[k].flag == flag
  }

  lemma {:induction false} LastValueConcat<F>(xs: seq<Assign<F>>, ys: seq<Assign<F>>, flag: F, default: string)
    ensures LastValue(xs + ys, flag, default) == LastValue(ys, flag, LastValue(xs, flag, default))
  {
    if ys == [] {
      assert xs + ys == xs;
    } else {
      LastValueConcat(xs, ys[..|ys| - 1], flag, default);
      assert (xs + ys)[..|xs + ys| - 1] == xs + ys[..|ys| - 1];
    }
  }

  lemma {:induction false} AssignsConcat<F>(xs: seq<Item<F>>, ys: seq<Item<F>>)
    ensures AssignsOf(xs + ys) == AssignsOf(xs) + AssignsOf(ys)
  {
    if xs == [] {
      assert xs + ys == ys;
    } else {
      AssignsConcat(xs[1..], ys);
      assert (xs + ys)[1..] == xs[1..] + ys && (xs + ys)[0] == xs[0];
      Regroup([AssignOf(xs[0])], AssignsOf(xs[1..]), AssignsOf(ys));
    }
  }

  lemma {:induction false} NotSet<F>(items: seq<Item<F>>, flag: F, default: string)
    requires !Sets(items, flag)
    ensures LastValue(AssignsOf(items), flag, default) == default
  {
    if items != [] {
      NotSet(items[1..], flag, default);
      LastValueConcat([AssignOf(items[0])], AssignsOf(items[1..]), flag, default);
      assert [AssignOf(items[0])][..0] == [];
    }
  }

  function Flatten<F>(segments: seq<seq<Item<F>>>): seq<Item<F>> {
    if segments == [] then [] else segments[0] + Flatten(segments[1..])
  }

  lemma {:induction false} FlattenSnoc<F>(fs: FlagSet<F>, segments: seq<seq<Item<F>>>, items: seq<Item<F>>)
    ensures Flatten(segments + [items]) == Flatten(segments) + items
    ensures TokensOf(fs, Flatten(segments + [items])) == TokensOf(fs, Flatten(segments)) + TokensOf(fs, items)
  {
    if segments == [] {
      assert segments + [items] == [items];
      assert Flatten([items]) == items + Flatten([items][1..]);
    } else {
      FlattenSnoc(fs, segments[1..], items);
      assert (segments + [items])[1..] == segments[1..] + [items];
      Regroup(segments[0], Flatten(segments[1..]), items);
    }
    TokensConcat(fs, Flatten(segments), items);
  }

  // What holds of every segment holds of the whole.
  lemma {:induction false} FlattenAll<F>(fs: FlagSet<F>, segments: seq<seq<Item<F>>>)
    ensures (forall j :: 0 <= j < |segments| ==> AllProper(fs, segments[j])) ==> AllProper(fs, Flatten(segments))
    ensures NoneHides(Flatten(segments)) <==> forall j :: 0 <= j < |segments| ==> NoneHides(segments[j])
  {
    if segments != [] {
      var head, rest := segments[0], Flatten(segments[1..]);
      FlattenAll(fs, segments[1..]);
      assert forall j :: 0 <= j < |segments[1..]| ==> segments[1..][j] == segments[j + 1];
      assert forall j :: 0 < j < |segments| ==> segments[j] == segments[1..][j - 1];
      NoneHidesConcat(head, rest);
    }
  }

  lemma NoneHidesConcat<F>(xs: seq<Item<F>>, ys: seq<Item<F>>)
    ensures NoneHides(xs + ys) <==> NoneHides(xs) && NoneHides(ys)
  {
    assert forall k :: 0 <= k < |xs| ==> (xs + ys)[k] == xs[k];
    assert forall k :: 0 <= k < |ys| ==> (xs + ys)[|xs| + k] == ys[k];
  }

  // A flag that only one segment sets has the value that segment gives it.
  lemma {:induction false} ValueInSegment<F>(segments: seq<seq<Item<F>>>, k: nat, flag: F, default: string)
    requires k < |segments|
    requires forall j :: 0 <= j < |segments| && j != k ==> !Sets(segments[j], flag)
    ensures LastValue(AssignsOf(Flatten(segments)), flag, default) == LastValue(AssignsOf(segments[k]), flag, default)
  {
    AssignsConcat(segments[0], Flatten(segments[1..]));
    LastValueConcat(AssignsOf(segments[0]), AssignsOf(Flatten(segments[1..])), flag, default);
    if k == 0 {
      NowhereSet(segments[1..], flag, LastValue(AssignsOf(segments[0]), flag, default));
    } else {
      NotSet(segments[0], flag, default);
      ValueInSegment(segments[1..], k - 1, flag, default);
    }
  }

  lemma {:induction false} NowhereSet<F>(segments: seq<seq<Item<F>>>, flag: F, default: string)
    requires forall j :: 0 <= j < |segments| ==> !Sets(segments[j], flag)
    ensures LastValue(AssignsOf(Flatten(segments)), flag, default) == default
  {
    if segments != [] {
      AssignsConcat(segments[0], Flatten(segments[1..]));
      LastValueConcat(AssignsOf(segments[0]), AssignsOf(Flatten(segments[1..])), flag, default);
      NotSet(segments[0], flag, default);
      NowhereSet(segments[1..], flag, default);
    }
  }
}
