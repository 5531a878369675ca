/** References to results, as in tasks.build.results.digest[2]: parsing what is printed. */
module ResultRef {
  import opened Wrappers
  import opened Text

  // ----- Array indexing: a bracket, digits, possibly a star, a bracket -----

  // The length of the index that begins s; 0 when none does.
  function IndexLen(s: string): (n: nat)
    ensures n <= |s|
  {
    if s == "" || s[0] != '[' then 0
    else
      var d := 1 + DigitsLen(s[1..]);
      var e := if d < |s| && s[d] == '*' then d + 1 else d;
      if e < |s| && s[e] == ']' then e + 1 else 0
  }

  // The inside of the first index in s, without its brackets; empty when there is none.
  function FirstIndex(s: string): string {
    if s == "" then ""
    else if IndexLen(s) > 0 then s[1..IndexLen(s) - 1]
    else FirstIndex(s[1..])
  }

  // s without its indexes.
  function TrimIndexes(s: string): string {
    if s == "" then ""
    else if IndexLen(s) > 0 then TrimIndexes(s[IndexLen(s)..])
    else [s[0]] + TrimIndexes(s[1..])
  }

  // No index stands anywhere in s.
  predicate NoIndex(s: string) {
    s == "" || (IndexLen(s) == 0 && NoIndex(s[1..]))
  }

  const MAX_INT := 0x7FFF_FFFF_FFFF_FFFF

  // strconv.Atoi with its error dropped, on text without a sign: zero for what is no number, the largest int for too
  // large a one.
  function Atoi(s: string): nat {
    if s == "" || !AllDigits(s) then 0
    else if NumeralValue(s) <= MAX_INT then NumeralValue(s)
    else MAX_INT
  }

  // ----- References -----

  datatype Selector = Whole | Star | At(index: nat) | Key(key: string)

  // Whole: a string result; Star: a whole array; At: an element; Key: an attribute of an object.
  datatype Reference = Reference(resource: string, result: string, selector: Selector)

  predicate IsHead(s: string) {
    s == "tasks" || s == "finally" || s == "steps"
  }

  predicate LooksLikeResultRef(expression: string) {
    var parts := Split(expression, '.');
    |parts| >= 4 && IsHead(parts[0]) && parts[2] == "results"
  }

  function ParseLast(resource: string, last: string): Reference {
    var name, index := TrimIndexes(last), FirstIndex(last);
    if index == "" then Reference(resource, name, Whole)
    else if index == "*" then Reference(resource, name, Star)
    else Reference(resource, name, At(Atoi(index)))
  }

  function ParseExpression(expression: string): Option<Reference> {
    var parts := Split(expression, '.');
    if !LooksLikeResultRef(expression) then None
    else if |parts| == 4 then Some(ParseLast(parts[1], parts[3]))
    else if |parts| == 5 then Some(Reference(parts[1], parts[3], Key(parts[4])))
    else None
  }

  function Suffix(s: Selector): string {
    match s
    case Whole => ""
    case Star => ['[', '*', ']']
    case At(i) => ['['] + Numeral(i) + [']']
    case Key(_) => ""
  }

  function Parts(head: string, r: Reference): seq<string> {
    [head, r.resource, "results", r.result + Suffix(r.selector)] + if r.selector.Key? then [r.selector.key] else []
  }

  function Print(head: string, r: Reference): string {
    Join(Parts(head, r), '.')
  }

  predicate DotFree(r: Reference) {
    Free(r.resource, '.') && Free(r.result, '.') && (r.selector.Key? ==> Free(r.selector.key, '.'))
  }

  // ----- Indexes of printed names -----

  // A run of digits that stops inside s stops there whatever follows; one that does not, stops at the end of s.
  lemma {:induction false} DigitsLenLocal(s: string, t: string)
    requires t != "" && !IsDigit(t[0])
    ensures DigitsLen(s + t) == DigitsLen(s)
  {
    if s == "" {
      assert s + t == t;
    } else {
      assert (s + t)[1..] == s[1..] + t;
      DigitsLenLocal(s[1..], t);
    }
  }

  // What starts with a bracket cannot complete an index begun before it.
  lemma IndexLenLocal(s: string, t: string)
    requires s != "" && (t == "" || t[0] == '[')
    ensures IndexLen(s + t) == IndexLen(s)
  {
    if t == "" {
      assert s + t == s;
    } else if s[0] == '[' {
      assert (s + t)[1..] == s[1..] + t;
      DigitsLenLocal(s[1..], t);
    }
  }

  // The index found is the one behind a name without an index.
  lemma {:induction false} FirstIndexBehind(name: string, t: string)
    requires NoIndex(name) && (t == "" || t[0] == '[')
    ensures FirstIndex(name + t) == FirstIndex(t)
  {
    if name == "" {
      assert name + t == t;
    } else {
      IndexLenLocal(name, t);
      assert (name + t)[1..] == name[1..] + t;
      FirstIndexBehind(name[1..], t);
    }
  }

  lemma {:induction false} TrimKeeps(name: string)
    requires NoIndex(name)
    ensures TrimIndexes(name) == name
  {
    if name != "" {
      TrimKeeps(name[1..]);
      assert name == [name[0]] + name[1..];
    }
  }

  lemma {:induction false} TrimConcat(name: string, t: string)
    requires t == "" || t[0] == '['
    ensures TrimIndexes(name + t) == TrimIndexes(name) + TrimIndexes(t)
  {
    if name == "" {
      assert name + t == t;
    } else {
      IndexLenLocal(name, t);
      var n := if IndexLen(name) > 0 then IndexLen(name) else 1;
      assert (name + t)[n..] == name[n..] + t;
      TrimConcat(name[n..], t);
    }
  }

  lemma {:induction false} TrimAtMost(s: string)
    ensures |TrimIndexes(s)| <= |s|
  {
    if s != "" {
      TrimAtMost(s[if IndexLen(s) > 0 then IndexLen(s) else 1..]);
    }
  }

  lemma {:induction false} TrimShorter(s: string)
    requires !NoIndex(s)
    ensures |TrimIndexes(s)| < |s|
  {
    if IndexLen(s) > 0 {
      TrimAtMost(s[IndexLen(s)..]);
    } else {
      TrimShorter(s[1..]);
    }
  }

  lemma SuffixParsed(s: Selector)
    requires !s.Key?
    ensures TrimIndexes(Suffix(s)) == ""
    ensures FirstIndex(Suffix(s)) == match s case Whole => "" case Star => ['*'] case At(i) => Numeral(i)
  {
    var t := Suffix(s);
    if s.At? {
      var d := Numeral(s.index);
      assert t[1..] == d + [']'];
      DigitsEnd(d, [']']);
      assert IndexLen(t) == |t| && t[1..|t| - 1] == d && t[|t|..] == "";
    } else if s.Star? {
      assert t[1..] == ['*', ']'] && DigitsLen(t[1..]) == 0;
      assert IndexLen(t) == 3 && t[1..2] == ['*'] && t[3..] == "";
    }
  }

  // The index a reference carries is one that fits an int.
  predicate FitsInt(s: Selector) {
    s.At? ==> s.index <= MAX_INT
  }

  lemma NumeralIsNoStar(i: nat)
    ensures Numeral(i) != "*" && Atoi(Numeral(i)) == if i <= MAX_INT then i else MAX_INT
  {
    NumeralRoundTrip(i);
    assert IsDigit(Numeral(i)[0]);
  }

  lemma LastPartIff(resource: string, name: string, s: Selector)
    requires !s.Key?
    ensures ParseLast(resource, name + Suffix(s)) == Reference(resource, name, s) <==> NoIndex(name) && FitsInt(s)
  {
    SuffixParsed(s);
    if s.At? {
      NumeralIsNoStar(s.index);
    }
    TrimConcat(name, Suffix(s));
    if NoIndex(name) {
      TrimKeeps(name);
      FirstIndexBehind(name, Suffix(s));
    } else {
      TrimShorter(name);
    }
  }

  lemma SuffixDotFree(s: Selector)
    ensures Free(Suffix(s), '.')
  {
  }

  lemma PartsBack(head: string, r: Reference)
    requires IsHead(head) && DotFree(r)
    ensures Split(Print(head, r), '.') == Parts(head, r)
  {
    SuffixDotFree(r.selector);
    assert AllFree(Parts(head, r), '.');
    SplitJoin(Parts(head, r), '.');
  }

  /** A printed reference parses to itself if and only if its result name holds no index of its own and its index
      fits an int; an object attribute always does. */
  lemma RoundTripIff(head: string, r: Reference)
    requires IsHead(head) && DotFree(r)
    ensures ParseExpression(Print(head, r)) == Some(r) <==>
              r.selector.Key? || (NoIndex(r.result) && FitsInt(r.selector))
  {
    PartsBack(head, r);
    if !r.selector.Key? {
      LastPartIff(r.resource, r.result, r.selector);
    } else {
      assert r.result + Suffix(r.selector) == r.result;
    }
  }

  // Names without a bracket, as validation demands them, hold no index.
  lemma {:induction false} BracketFreeHasNoIndex(name: string)
    requires Free(name, '[')
    ensures NoIndex(name)
  {
    if name != "" {
      BracketFreeHasNoIndex(name[1..]);
    }
  }

  lemma RoundTrip(head: string, r: Reference)
    requires IsHead(head) && DotFree(r) && Free(r.result, '[') && FitsInt(r.selector)
    ensures ParseExpression(Print(head, r)) == Some(r)
  {
    BracketFreeHasNoIndex(r.result);
    RoundTripIff(head, r);
  }

  /** Brackets that hold no proper index: empty ones are overlooked, digits with a star count as index 0, and a number
      that is too large as the largest int. */
  lemma OddIndexes(resource: string, name: string, digits: string, i: nat)
    requires NoIndex(name) && AllDigits(digits) && digits != "" && i > 0x7FFF_FFFF_FFFF_FFFF
    ensures ParseLast(resource, name + "[]") == Reference(resource, name, Whole)
    ensures ParseLast(resource, name + (['['] + (digits + ['*', ']']))) == Reference(resource, name, At(0))
    ensures ParseLast(resource, name + (['['] + Numeral(i) + [']'])) ==
              Reference(resource, name, At(0x7FFF_FFFF_FFFF_FFFF))
  {
    var none := "[]";
    TrimKeeps(name);
    assert none[1..] == "]" && IndexLen(none) == 2 && none[2..] == "";
    TrimConcat(name, none);
    FirstIndexBehind(name, none);
    StarredIndex(resource, name, digits);
    LargeIndex(resource, name, i);
  }

  lemma StarredIndex(resource: string, name: string, digits: string)
    requires NoIndex(name) && AllDigits(digits) && digits != ""
    ensures ParseLast(resource, name + (['['] + (digits + ['*', ']']))) == Reference(resource, name, At(0))
  {
    var star := ['['] + (digits + ['*', ']']);
    TrimKeeps(name);
    DigitsEnd(digits, ['*', ']']);
    assert star[1..] == digits + ['*', ']'] && IndexLen(star) == |star| && star[|star|..] == "";
    assert star[1..|star| - 1] == digits + ['*'];
    StarIsNoNumber(digits);
    TrimConcat(name, star);
    FirstIndexBehind(name, star);
  }

  lemma StarIsNoNumber(digits: string)
    requires digits != ""
    ensures Atoi(digits + ['*']) == 0 && digits + ['*'] != "*"
  {
    var s := digits + ['*'];
    assert s[|digits|] == '*' && !IsDigit('*');
  }

  lemma LargeIndex(resource: string, name: string, i: nat)
    requires NoIndex(name) && i > MAX_INT
    ensures ParseLast(resource, name + Suffix(At(i))) == Reference(resource, name, At(MAX_INT))
  {
    SuffixParsed(At(i));
    NumeralIsNoStar(i);
    TrimConcat(name, Suffix(At(i)));
    TrimKeeps(name);
    FirstIndexBehind(name, Suffix(At(i)));
  }

  /** A result named a[0] is not found again: the index in its name is taken for the reference's. */
  lemma IndexedNameMisread(head: string)
    requires IsHead(head)
    ensures ParseExpression(Print(head, Reference("t", "a[0]", Whole))) != Some(Reference("t", "a[0]", Whole))
  {
    var name := "a[0]";
    assert name[1..] == "[0]" && name[1..][1..] == "0]" && name[1..][1..][1..] == "]";
    assert DigitsLen("0]") == 1 by { assert "0]"[1..] == "]"; }
    assert IndexLen(name[1..]) == 3;
    assert IndexLen(name) == 0;
    assert !NoIndex(name);
    RoundTripIff(head, Reference("t", "a[0]", Whole));
  }

  /** Exactly the expressions of four or five parts with the fixed words in their places are accepted, and one of
      five parts is told back by printing what it parsed to. */
  lemma AcceptedIff(expression: string)
    ensures var parts := Split(expression, '.');
      && (ParseExpression(expression).Some? <==>
            4 <= |parts| <= 5 && parts[0] in {"tasks", "finally", "steps"} && parts[2] == "results")
      && (|parts| == 5 && ParseExpression(expression).Some? ==>
            Print(parts[0], ParseExpression(expression).value) == expression)
  {
    var parts := Split(expression, '.');
    JoinSplit(expression, '.');
    if |parts| == 5 && ParseExpression(expression).Some? {
      var r := ParseExpression(expression).value;
      assert r.result + Suffix(r.selector) == r.result;
      assert Parts(parts[0], r) == parts;
    }
  }
}
