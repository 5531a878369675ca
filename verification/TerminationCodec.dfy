/** Lists of run results as JSON text: what a termination message holds. */
module TerminationCodec {
  import opened Wrappers
  import opened Text
  import opened RunResults
  import opened JsonText

  // The fixed text in front of each field.
  datatype Labels = Labels(key: string, value: string, resourceName: string, kind: string)

  const LABELS := Labels("{\"key\":", ",\"value\":", ",\"resourceName\":", ",\"type\":")

  // The two optional fields are told from each other and from the closing brace.
  predicate Coherent(f: Labels) {
    && |f.resourceName| > 2 && |f.kind| > 2
    && f.resourceName[0] == ',' && f.kind[0] == ',' && f.resourceName[2] != f.kind[2]
  }

  lemma LabelsCoherent()
    ensures Coherent(LABELS)
  {
    assert LABELS.resourceName[2] == 'r' && LABELS.kind[2] == 't';
  }

  // ----- Writing -----

  function KindText(f: Labels, kind: nat): string {
    if kind == 0 then ['}'] else f.kind + (Numeral(kind) + ['}'])
  }

  function ResourceText(f: Labels, r: RunResult): string {
    if r.resourceName == "" then KindText(f, r.resultType)
    else f.resourceName + (Quote(r.resourceName) + KindText(f, r.resultType))
  }

  function RecordText(f: Labels, r: RunResult): string {
    f.key + (Quote(r.key) + (f.value + (Quote(r.value) + ResourceText(f, r))))
  }

  function RestText(f: Labels, xs: seq<RunResult>): string {
    if xs == [] then [']'] else [','] + (RecordText(f, xs[0]) + RestText(f, xs[1..]))
  }

  function Encode(f: Labels, xs: seq<RunResult>): string {
    ['['] + if xs == [] then [']'] else RecordText(f, xs[0]) + RestText(f, xs[1..])
  }

  // ----- Reading -----

  function Skip(s: string, p: string): (r: Option<string>)
    ensures r.Some? ==> |r.value| <= |s|
  {
    if HasPrefix(s, p) then Some(s[|p|..]) else None
  }

  function ParseKind(f: Labels, s: string): (r: Option<Parsed<nat>>)
    ensures r.Some? ==> |r.value.rest| < |s|
  {
    if HasPrefix(s, f.kind) then
      var t := s[|f.kind|..];
      var n := DigitsLen(t);
      if 0 < n < |t| && t[n] == '}' then Some(Parsed(NumeralValue(t[..n]), t[n + 1..])) else None
    else if s != "" && s[0] == '}' then Some(Parsed(0, s[1..]))
    else None
  }

  function ParseResource(f: Labels, s: string): (r: Option<Parsed<string>>)
    ensures r.Some? ==> |r.value.rest| <= |s|
  {
    if HasPrefix(s, f.resourceName) then Unquote(s[|f.resourceName|..]) else Some(Parsed("", s))
  }

  function ParseField(name: string, s: string): (r: Option<Parsed<string>>)
    ensures r.Some? ==> |r.value.rest| < |s|
  {
    var t := Skip(s, name);
    if t.None? then None else Unquote(t.value)
  }

  function ParseRecord(f: Labels, s: string): (r: Option<Parsed<RunResult>>)
    ensures r.Some? ==> |r.value.rest| < |s|
  {
    var key := ParseField(f.key, s);
    if key.None? then None else
    var value := ParseField(f.value, key.value.rest);
    if value.None? then None else
    var resource := ParseResource(f, value.value.rest);
    if resource.None? then None else
    var kind := ParseKind(f, resource.value.rest);
    if kind.None? then None
    else
      var r := RunResult(key.value.value, value.value.value, resource.value.value, kind.value.value);
      Some(Parsed(r, kind.value.rest))
  }

  function ParseRest(f: Labels, s: string): Option<Parsed<seq<RunResult>>>
    decreases |s|
  {
    if s == "" then None
    else if s[0] == ']' then Some(Parsed([], s[1..]))
    else if s[0] != ',' then None
    else ParseItems(f, s[1..])
  }

  function ParseItems(f: Labels, s: string): Option<Parsed<seq<RunResult>>>
    decreases |s|
  {
    var r := ParseRecord(f, s);
    if r.None? then None else
    var more := ParseRest(f, r.value.rest);
    if more.None? then None else Some(Parsed([r.value.value] + more.value.value, more.value.rest))
  }

  // Nothing may follow the list.
  function Decode(f: Labels, s: string): Option<seq<RunResult>> {
    if s == "null" then Some([])
    else if s == "" || s[0] != '[' then None
    else
      var items := if |s| > 1 && s[1] == ']' then Some(Parsed([], s[2..])) else ParseItems(f, s[1..]);
      if items.Some? && items.value.rest == "" then Some(items.value.value) else None
  }

  // ----- Round trip -----

  function Clean(r: RunResult): RunResult {
    RunResult(Sanitize(r.key), Sanitize(r.value), Sanitize(r.resourceName), r.resultType)
  }

  function CleanAll(xs: seq<RunResult>): seq<RunResult> {
    if xs == [] then [] else [Clean(xs[0])] + CleanAll(xs[1..])
  }

  lemma KindReadsBack(f: Labels, kind: nat, tail: string)
    requires Coherent(f)
    ensures ParseKind(f, KindText(f, kind) + tail) == Some(Parsed(kind, tail))
  {
    var s := KindText(f, kind) + tail;
    if kind == 0 {
      assert s[0] == '}' && s[1..] == tail;
    } else {
      var d, end := Numeral(kind), ['}'] + tail;
      assert s == f.kind + (d + end);
      PrefixOfConcat(f.kind, d + end);
      DigitsEnd(d, end);
      NumeralRoundTrip(kind);
      assert (d + end)[..|d|] == d && (d + end)[|d|] == '}' && (d + end)[|d| + 1..] == tail;
    }
  }

  lemma SanitizeNonEmpty(v: string)
    ensures Sanitize(v) == "" <==> v == ""
  {
  }

  lemma KindIsNoResource(f: Labels, kind: nat, tail: string)
    requires Coherent(f)
    ensures !HasPrefix(KindText(f, kind) + tail, f.resourceName)
  {
    var s := KindText(f, kind) + tail;
    PrefixAt(s, f.resourceName, 0);
    PrefixAt(s, f.resourceName, 2);
    assert kind != 0 ==> s[2] == f.kind[2];
  }

  lemma ResourceReadsBack(f: Labels, r: RunResult, tail: string)
    requires Coherent(f)
    ensures ParseResource(f, ResourceText(f, r) + tail) ==
            Some(Parsed(Sanitize(r.resourceName), KindText(f, r.resultType) + tail))
  {
    var end := KindText(f, r.resultType) + tail;
    if r.resourceName == "" {
      KindIsNoResource(f, r.resultType, tail);
    } else {
      var q := Quote(r.resourceName);
      Associate(f.resourceName, q, KindText(f, r.resultType), tail);
      PrefixOfConcat(f.resourceName, q + end);
      QuoteReadsBack(r.resourceName, end);
    }
  }

  lemma Associate(a: string, b: string, c: string, tail: string)
    ensures (a + (b + c)) + tail == a + (b + (c + tail))
  {
  }

  lemma FieldReadsBack(name: string, v: string, tail: string)
    ensures ParseField(name, name + (Quote(v) + tail)) == Some(Parsed(Sanitize(v), tail))
  {
    PrefixOfConcat(name, Quote(v) + tail);
    QuoteReadsBack(v, tail);
  }

  lemma RecordSplits(f: Labels, r: RunResult, tail: string)
    ensures RecordText(f, r) + tail ==
            f.key + (Quote(r.key) + (f.value + (Quote(r.value) + (ResourceText(f, r) + tail))))
  {
    var q, v, t := Quote(r.key), Quote(r.value), ResourceText(f, r);
    Associate(f.key, q, f.value + (v + t), tail);
    Associate(f.value, v, t, tail);
  }

  lemma RecordReadsBack(f: Labels, r: RunResult, tail: string)
    requires Coherent(f)
    ensures ParseRecord(f, RecordText(f, r) + tail) == Some(Parsed(Clean(r), tail))
  {
    var afterValue := ResourceText(f, r) + tail;
    var afterKey := f.value + (Quote(r.value) + afterValue);
    RecordSplits(f, r, tail);
    FieldReadsBack(f.key, r.key, afterKey);
    FieldReadsBack(f.value, r.value, afterValue);
    ResourceReadsBack(f, r, tail);
    KindReadsBack(f, r.resultType, tail);
  }

  lemma PrependRecord(f: Labels, r: RunResult, more: string, p: Parsed<seq<RunResult>>)
    requires Coherent(f) && ParseRest(f, more) == Some(p)
    ensures ParseItems(f, RecordText(f, r) + more) == Some(Parsed([Clean(r)] + p.value, p.rest))
  {
    RecordReadsBack(f, r, more);
  }

  lemma {:induction false} RestReadsBack(f: Labels, xs: seq<RunResult>, tail: string)
    requires Coherent(f)
    ensures ParseRest(f, RestText(f, xs) + tail) == Some(Parsed(CleanAll(xs), tail))
  {
    var s := RestText(f, xs) + tail;
    if xs == [] {
      assert s[0] == ']' && s[1..] == tail;
    } else {
      var more := RestText(f, xs[1..]) + tail;
      RestReadsBack(f, xs[1..], tail);
      PrependRecord(f, xs[0], more, Parsed(CleanAll(xs[1..]), tail));
      Associate([','], RecordText(f, xs[0]), RestText(f, xs[1..]), tail);
      assert s[0] == ',' && s[1..] == RecordText(f, xs[0]) + more;
    }
  }

  lemma RecordStartsLikeLabel(f: Labels, r: RunResult)
    requires f.key != ""
    ensures RecordText(f, r) != "" && RecordText(f, r)[0] == f.key[0]
  {
  }

  lemma BracketedItems(f: Labels, body: string, p: Parsed<seq<RunResult>>)
    requires body != "" && body[0] != ']' && ParseItems(f, body) == Some(p)
    ensures Decode(f, ['['] + body) == if p.rest == "" then Some(p.value) else None
  {
    var s := ['['] + body;
    assert s[0] == '[' && s[1] == body[0] && s[1..] == body;
  }

  lemma EmptyReadsBack(f: Labels, tail: string)
    ensures Decode(f, ['[', ']'] + tail) == if tail == "" then Some([]) else None
  {
    var s := ['[', ']'] + tail;
    assert s[0] == '[' && s[1] == ']' && s[2..] == tail;
  }

  /** An encoded list reads back as the list with invalid bytes replaced, if and only if nothing follows it. */
  lemma ListReadsBack(f: Labels, xs: seq<RunResult>, tail: string)
    requires Coherent(f) && f.key != "" && f.key[0] == '{'
    ensures Decode(f, Encode(f, xs) + tail) == if tail == "" then Some(CleanAll(xs)) else None
  {
    if xs == [] {
      assert Encode(f, xs) == ['[', ']'];
      EmptyReadsBack(f, tail);
    } else {
      var first, more := RecordText(f, xs[0]), RestText(f, xs[1..]) + tail;
      RestReadsBack(f, xs[1..], tail);
      PrependRecord(f, xs[0], more, Parsed(CleanAll(xs[1..]), tail));
      RecordStartsLikeLabel(f, xs[0]);
      BracketedItems(f, first + more, Parsed(CleanAll(xs), tail));
      Associate(['['], first, RestText(f, xs[1..]), tail);
    }
  }

  // ----- Lengths -----

  function BadRecord(r: RunResult): nat {
    Bad(r.key) + Bad(r.value) + Bad(r.resourceName)
  }

  function BadAll(xs: seq<RunResult>): nat {
    if xs == [] then 0 else BadRecord(xs[0]) + BadAll(xs[1..])
  }

  // The bytes that further records take up in a list that already has one.
  function Added(f: Labels, xs: seq<RunResult>): nat {
    if xs == [] then 0 else 1 + |RecordText(f, xs[0])| + Added(f, xs[1..])
  }

  lemma RecordShrinks(f: Labels, r: RunResult)
    ensures |RecordText(f, r)| == |RecordText(f, Clean(r))| + 3 * BadRecord(r)
    ensures BadRecord(Clean(r)) == 0
  {
    SanitizeShrinks(r.key);
    SanitizeShrinks(r.value);
    SanitizeShrinks(r.resourceName);
    SanitizeNonEmpty(r.resourceName);
  }

  lemma {:induction false} AddedShrinks(f: Labels, xs: seq<RunResult>)
    ensures Added(f, xs) == Added(f, CleanAll(xs)) + 3 * BadAll(xs)
    ensures |CleanAll(xs)| == |xs| && BadAll(CleanAll(xs)) == 0
  {
    if xs != [] {
      RecordShrinks(f, xs[0]);
      AddedShrinks(f, xs[1..]);
      assert CleanAll(xs)[1..] == CleanAll(xs[1..]);
    }
  }

  lemma {:induction false} AddedConcat(f: Labels, xs: seq<RunResult>, ys: seq<RunResult>)
    ensures Added(f, xs + ys) == Added(f, xs) + Added(f, ys)
    ensures BadAll(xs + ys) == BadAll(xs) + BadAll(ys)
    ensures CleanAll(xs + ys) == CleanAll(xs) + CleanAll(ys)
  {
    if xs == [] {
      assert xs + ys == ys;
    } else {
      assert (xs + ys)[1..] == xs[1..] + ys;
      AddedConcat(f, xs[1..], ys);
    }
  }

  lemma {:induction false} RestLength(f: Labels, xs: seq<RunResult>)
    ensures |RestText(f, xs)| == Added(f, xs) + 1
  {
    if xs != [] {
      RestLength(f, xs[1..]);
    }
  }

  // An encoded list: two brackets, and commas between the records only.
  lemma EncodedLength(f: Labels, xs: seq<RunResult>)
    ensures |Encode(f, xs)| == Added(f, xs) + if xs == [] then 2 else 1
  {
    if xs != [] {
      RestLength(f, xs[1..]);
    }
  }

  lemma {:induction false} CleanAllKept(xs: seq<RunResult>)
    requires BadAll(xs) == 0
    ensures CleanAll(xs) == xs
  {
    if xs != [] {
      CleanIsKept(xs[0].key);
      CleanIsKept(xs[0].value);
      CleanIsKept(xs[0].resourceName);
      CleanAllKept(xs[1..]);
    }
  }

  // ----- The text itself -----

  // Plain text in quotes.
  function InQuotes(v: string): string {
    ['"'] + (v + ['"'])
  }

  /** A result of plain text, as it stands in the message. */
  lemma PlainRecordText(key: string, value: string, kind: nat)
    requires PlainText(key) && PlainText(value) && kind > 0
    ensures Encode(LABELS, [RunResult(key, value, "", kind)]) ==
              "[" + (("{\"key\":" + (InQuotes(key) + (",\"value\":" + (InQuotes(value)
                     + (",\"type\":" + (Numeral(kind) + "}")))))) + "]")
  {
    var r := RunResult(key, value, "", kind);
    PlainIsQuoted(key);
    PlainIsQuoted(value);
    assert RestText(LABELS, []) == [']'] && [r][1..] == [];
    assert Encode(LABELS, [r]) == ['['] + (RecordText(LABELS, r) + [']']);
  }

  // ----- What is accepted -----

  // rest is the end of s, behind a character c.
  predicate LeftBehind(s: string, rest: string, c: char) {
    |rest| < |s| && s[|s| - |rest|..] == rest && s[|s| - |rest| - 1] == c
  }

  predicate EndOf(s: string, rest: string) {
    |rest| <= |s| && s[|s| - |rest|..] == rest
  }

  lemma EndOfEnd(s: string, t: string, rest: string)
    requires EndOf(s, t) && EndOf(t, rest)
    ensures EndOf(s, rest)
  {
    assert s[|s| - |t|..][|t| - |rest|..] == s[|s| - |rest|..];
  }

  lemma Behind(s: string, t: string, rest: string, c: char)
    requires EndOf(s, t) && LeftBehind(t, rest, c)
    ensures LeftBehind(s, rest, c)
  {
    EndOfEnd(s, t, rest);
    assert t[|t| - |rest| - 1] == s[|s| - |t| + |t| - |rest| - 1];
  }

  lemma FieldLeaves(name: string, s: string)
    ensures ParseField(name, s).Some? ==> EndOf(s, ParseField(name, s).value.rest)
  {
    if ParseField(name, s).Some? {
      var t := s[|name|..];
      UnquoteLeavesEnd(t[1..]);
      assert t[1..] == s[|name| + 1..];
      EndOfEnd(s, t[1..], ParseField(name, s).value.rest);
    }
  }

  lemma ResourceLeaves(f: Labels, s: string)
    ensures ParseResource(f, s).Some? ==> EndOf(s, ParseResource(f, s).value.rest)
  {
    if HasPrefix(s, f.resourceName) {
      FieldLeaves(f.resourceName, s);
    }
  }

  lemma KindLeaves(f: Labels, s: string)
    ensures ParseKind(f, s).Some? ==> LeftBehind(s, ParseKind(f, s).value.rest, '}')
  {
    if ParseKind(f, s).Some? && HasPrefix(s, f.kind) {
      var t := s[|f.kind|..];
      var n := DigitsLen(t);
      assert t[n + 1..] == s[|f.kind| + n + 1..] && t[n] == s[|f.kind| + n];
    }
  }

  lemma RecordLeaves(f: Labels, s: string)
    ensures ParseRecord(f, s).Some? ==> LeftBehind(s, ParseRecord(f, s).value.rest, '}')
  {
    if ParseRecord(f, s).Some? {
      var afterKey := ParseField(f.key, s).value.rest;
      var afterValue := ParseField(f.value, afterKey).value.rest;
      var afterResource := ParseResource(f, afterValue).value.rest;
      var rest := ParseKind(f, afterResource).value.rest;
      assert EndOf(s, afterResource) by {
        FieldLeaves(f.key, s);
        FieldLeaves(f.value, afterKey);
        ResourceLeaves(f, afterValue);
        EndOfEnd(s, afterKey, afterValue);
        EndOfEnd(s, afterValue, afterResource);
      }
      KindLeaves(f, afterResource);
      Behind(s, afterResource, rest, '}');
    }
  }

  lemma {:induction false} RestLeaves(f: Labels, s: string)
    ensures ParseRest(f, s).Some? ==> LeftBehind(s, ParseRest(f, s).value.rest, ']')
    decreases |s|
  {
    if s != "" && s[0] == ',' && ParseRest(f, s).Some? {
      ItemsLeave(f, s[1..]);
      Behind(s, s[1..], ParseRest(f, s).value.rest, ']');
    }
  }

  lemma {:induction false} ItemsLeave(f: Labels, s: string)
    ensures ParseItems(f, s).Some? ==> LeftBehind(s, ParseItems(f, s).value.rest, ']')
    decreases |s|
  {
    if ParseItems(f, s).Some? {
      var t := ParseRecord(f, s).value.rest;
      RecordLeaves(f, s);
      RestLeaves(f, t);
      Behind(s, t, ParseItems(f, s).value.rest, ']');
    }
  }

  /** A text that was cut off is not accepted: what decodes to a list is `null`, or stands in brackets, and begins with
      a record where the list has one. */
  lemma DecodedIsBracketed(f: Labels, s: string)
    requires Decode(f, s).Some? && s != "null"
    ensures |s| >= 2 && s[0] == '[' && s[|s| - 1] == ']'
    ensures Decode(f, s).value != [] ==> ParseRecord(f, s[1..]).Some?
  {
    if s[1] != ']' {
      ItemsLeave(f, s[1..]);
      Behind(s, s[1..], "", ']');
    }
  }

  // And `null` is the empty list.
  lemma NullIsEmpty(f: Labels)
    ensures Decode(f, "null") == Some([])
  {
  }
}
