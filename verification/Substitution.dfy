/** Variable replacement in one pass over the input, with the replacements in whatever order a map gives them. */
module Substitution {
  import opened Wrappers
  import opened Text

  function Ref(key: string): string {
    ['$', '('] + (key + [')'])
  }

  // ----- The library's replacer: old strings are tried in argument order at each position -----

  function FirstMatch(s: string, order: seq<string>): Option<string> {
    if order == [] then None
    else if HasPrefix(s, Ref(order[0])) then Some(order[0])
    else FirstMatch(s, order[1..])
  }

  predicate Valued(order: seq<string>, values: map<string, string>) {
    forall k :: k in order ==> k in values
  }

  lemma {:induction false} FirstMatchFound(s: string, order: seq<string>)
    ensures var k := FirstMatch(s, order); k.Some? ==> k.value in order && HasPrefix(s, Ref(k.value))
    ensures FirstMatch(s, order).None? ==> forall k :: k in order ==> !HasPrefix(s, Ref(k))
  {
    if order != [] {
      FirstMatchFound(s, order[1..]);
    }
  }

  function Replace(s: string, order: seq<string>, values: map<string, string>): string
    requires Valued(order, values)
  {
    if s == "" then ""
    else
      var k := FirstMatch(s, order);
      FirstMatchFound(s, order);
      if k.None? then [s[0]] + Replace(s[1..], order, values)
      else values[k.value] + Replace(s[|Ref(k.value)|..], order, values)
  }

  // ----- Simultaneous replacement -----

  datatype Piece = Plain(c: char) | Use(key: string)

  // Some reference to a key stands at the front of s.
  ghost predicate Begins(s: string, keys: set<string>) {
    exists k :: k in keys && HasPrefix(s, Ref(k))
  }

  // The input cut into plain characters and references; no replacement value plays a part.
  ghost function Pieces(s: string, keys: set<string>): seq<Piece> {
    if s == "" then []
    else if Begins(s, keys) then
      var k :| k in keys && HasPrefix(s, Ref(k));
      [Use(k)] + Pieces(s[|Ref(k)|..], keys)
    else [Plain(s[0])] + Pieces(s[1..], keys)
  }

  ghost function Render(ps: seq<Piece>, values: map<string, string>): string {
    if ps == [] then ""
    else (match ps[0]
          case Plain(c) => [c]
          case Use(k) => if k in values then values[k] else Ref(k)) + Render(ps[1..], values)
  }

  // The pieces are the input: with no value given, rendering gives it back.
  lemma {:induction false} PiecesAreInput(s: string, keys: set<string>)
    ensures Render(Pieces(s, keys), map[]) == s
  {
    if s != "" {
      var ps := Pieces(s, keys);
      if Begins(s, keys) {
        var k := ps[0].key;
        assert HasPrefix(s, Ref(k)) && ps[1..] == Pieces(s[|Ref(k)|..], keys);
        PiecesAreInput(s[|Ref(k)|..], keys);
        assert s == Ref(k) + s[|Ref(k)|..];
      } else {
        assert ps[1..] == Pieces(s[1..], keys);
        PiecesAreInput(s[1..], keys);
        assert s == [s[0]] + s[1..];
      }
    }
  }

  // ----- When the order does not matter -----

  // No reference is the beginning of another.
  ghost predicate Unambiguous(keys: set<string>) {
    forall k, l :: k in keys && l in keys && k != l ==> !HasPrefix(Ref(l), Ref(k))
  }

  lemma RefLength(k: string)
    ensures |Ref(k)| == |k| + 3 && Ref(k)[2..|k| + 2] == k && Ref(k)[|k| + 2] == ')'
  {
  }

  // One reference begins another exactly when its key and a closing parenthesis begin the other's key.
  lemma BeginsRefIff(k: string, l: string)
    requires k != l
    ensures HasPrefix(Ref(l), Ref(k)) <==> HasPrefix(l, k + [')'])
  {
    RefLength(k);
    RefLength(l);
    if HasPrefix(Ref(l), Ref(k)) {
      assert Ref(l)[2..|k| + 2] == Ref(l)[..|k| + 3][2..|k| + 2] == k;
      assert l[..|k| + 1] == Ref(l)[2..|k| + 3] == k + [')'];
    }
    if HasPrefix(l, k + [')']) {
      assert Ref(l)[..|k| + 3] == ['$', '('] + l[..|k| + 1] == Ref(k);
    }
  }

  // In particular, keys without a closing parenthesis never conflict.
  lemma NoParenIsUnambiguous(keys: set<string>)
    requires forall k :: k in keys ==> ')' !in k
    ensures Unambiguous(keys)
  {
    forall k, l | k in keys && l in keys && k != l
      ensures !HasPrefix(Ref(l), Ref(k))
    {
      BeginsRefIff(k, l);
      PrefixAt(l, k + [')'], |k|);
    }
  }

  lemma OneMatch(s: string, k: string, l: string, keys: set<string>)
    requires Unambiguous(keys) && k in keys && l in keys
    requires HasPrefix(s, Ref(k)) && HasPrefix(s, Ref(l))
    ensures k == l
  {
    PrefixesNest(s, Ref(k), Ref(l));
    PrefixesNest(s, Ref(l), Ref(k));
  }

  /** Without ambiguous keys the one-pass replacer gives the simultaneous replacement, whatever the order. */
  lemma {:induction false} OrderFree(s: string, order: seq<string>, values: map<string, string>)
    requires Valued(order, values) && (forall k :: k in values ==> k in order) && Unambiguous(values.Keys)
    ensures Replace(s, order, values) == Render(Pieces(s, values.Keys), values)
  {
    if s != "" {
      var ps := Pieces(s, values.Keys);
      FirstMatchFound(s, order);
      if Begins(s, values.Keys) {
        var k, l := ps[0].key, FirstMatch(s, order).value;
        assert k in values.Keys && HasPrefix(s, Ref(k));
        OneMatch(s, k, l, values.Keys);
        assert ps[1..] == Pieces(s[|Ref(k)|..], values.Keys);
        OrderFree(s[|Ref(k)|..], order, values);
      } else {
        assert FirstMatch(s, order).None?;
        assert ps[1..] == Pieces(s[1..], values.Keys);
        OrderFree(s[1..], order, values);
      }
    }
  }

  /** With an ambiguous pair among the keys, the order shows: some values and input give two outputs. */
  lemma AmbiguityShows(k: string, l: string, others: seq<string>, values: map<string, string>)
    requires k != l && HasPrefix(Ref(l), Ref(k))
    requires k in values && l in values && Valued(others, values) && values[k] == "a" && values[l] == ""
    ensures Valued([k, l] + others, values) && Valued([l, k] + others, values)
    ensures Replace(Ref(l), [k, l] + others, values) != Replace(Ref(l), [l, k] + others, values)
  {
    var s, o1, o2 := Ref(l), [k, l] + others, [l, k] + others;
    assert FirstMatch(s, o1) == Some(k);
    assert FirstMatch(s, o2) == Some(l);
    assert Replace(s, o2, values) == "" + Replace(s[|s|..], o2, values) == "";
    assert |Replace(s, o1, values)| >= |values[k]|;
  }

  // The order lists the keys, in whatever order and however often.
  ghost predicate Lists(order: seq<string>, keys: set<string>) {
    forall k :: k in order <==> k in keys
  }

  ghost predicate OrderNeverShows(keys: set<string>) {
    forall s: string, values: map<string, string>, o1: seq<string>, o2: seq<string> ::
      values.Keys == keys && Lists(o1, keys) && Lists(o2, keys) ==> Replace(s, o1, values) == Replace(s, o2, values)
  }

  lemma {:induction false} Listing(keys: set<string>) returns (order: seq<string>)
    ensures Lists(order, keys)
  {
    order := [];
    if keys != {} {
      var k :| k in keys;
      order := Listing(keys - {k});
      order := [k] + order;
    }
  }

  lemma AmbiguousKeysShow(keys: set<string>, k: string, l: string)
    returns (values: map<string, string>, o1: seq<string>, o2: seq<string>)
    requires k in keys && l in keys && k != l && HasPrefix(Ref(l), Ref(k))
    ensures values.Keys == keys && Lists(o1, keys) && Lists(o2, keys)
    ensures Replace(Ref(l), o1, values) != Replace(Ref(l), o2, values)
  {
    var others := Listing(keys);
    values := map x | x in keys :: if x == k then "a" else "";
    AmbiguityShows(k, l, others, values);
    o1, o2 := [k, l] + others, [l, k] + others;
  }

  /** For a set of keys: no values and no input let the order of the map show if and only if no reference to a key is
      the beginning of another. */
  lemma OrderFreeIff(keys: set<string>)
    ensures OrderNeverShows(keys) <==> Unambiguous(keys)
  {
    if Unambiguous(keys) {
      forall s: string, values: map<string, string>, o1: seq<string>, o2: seq<string>
        | values.Keys == keys && Lists(o1, keys) && Lists(o2, keys)
        ensures Replace(s, o1, values) == Replace(s, o2, values)
      {
        OrderFree(s, o1, values);
        OrderFree(s, o2, values);
      }
    } else {
      var k, l :| k in keys && l in keys && k != l && HasPrefix(Ref(l), Ref(k));
      var values, o1, o2 := AmbiguousKeysShow(keys, k, l);
    }
  }

  // ----- The code -----

  /** Values are never looked at again: the pieces depend on the input and the keys alone. */
  method ApplyReplacements(s: string, replacements: map<string, string>) returns (out: string)
    ensures Unambiguous(replacements.Keys) ==> out == Render(Pieces(s, replacements.Keys), replacements)
    ensures exists order :: (forall k :: k in order <==> k in replacements) && out == Replace(s, order, replacements)
  {
    var order: seq<string> := [];
    var left := replacements.Keys;
    while left != {}
      invariant left <= replacements.Keys
      invariant forall k :: k in order <==> k in replacements && k !in left
      decreases left
    {
      var k :| k in left;
      order := order + [k];
      left := left - {k};
    }
    out := Replace(s, order, replacements);
    if Unambiguous(replacements.Keys) {
      OrderFree(s, order, replacements);
    }
  }

  function Star(key: string): string {
    key + ['[', '*', ']']
  }

  predicate Matches(s: string, key: string) {
    s == Ref(key) || s == Ref(Star(key))
  }

  /** An input that is one whole array reference becomes the array; any other is replaced as a string. */
  method ApplyArrayReplacements(s: string, strings: map<string, string>, arrays: map<string, seq<string>>)
    returns (out: seq<string>)
    ensures (exists k :: k in arrays && Matches(s, k)) ==> exists k :: k in arrays && Matches(s, k) && out == arrays[k]
    ensures (forall k :: k in arrays ==> !Matches(s, k)) && Unambiguous(strings.Keys) ==>
              out == [Render(Pieces(s, strings.Keys), strings)]
  {
    var left := arrays.Keys;
    while left != {}
      invariant left <= arrays.Keys && forall k :: k in arrays && k !in left ==> !Matches(s, k)
      decreases left
    {
      var k :| k in left;
      if s == Ref(k) {
        return arrays[k];
      }
      if s == Ref(Star(k)) {
        return arrays[k];
      }
      left := left - {k};
    }
    var one := ApplyReplacements(s, strings);
    return [one];
  }

  // A key and the same key with a star are given the same array.
  ghost predicate StarsAgree(arrays: map<string, seq<string>>) {
    forall k :: k in arrays && Star(k) in arrays ==> arrays[k] == arrays[Star(k)]
  }

  ghost predicate ArraysOrderFree(arrays: map<string, seq<string>>) {
    forall s, k, l :: k in arrays && l in arrays && Matches(s, k) && Matches(s, l) ==> arrays[k] == arrays[l]
  }

  lemma RefInjective(k: string, l: string)
    requires Ref(k) == Ref(l)
    ensures k == l
  {
    RefLength(k);
    RefLength(l);
  }

  lemma StarInjective(k: string, l: string)
    requires Star(k) == Star(l)
    ensures k == l
  {
    assert k == Star(k)[..|k|] && l == Star(l)[..|l|];
  }

  /** Array replacement does not depend on the order of the map, on any input, if and only if
      a key and its starred form never carry different arrays. */
  lemma ArrayOrderFreeIff(arrays: map<string, seq<string>>)
    ensures ArraysOrderFree(arrays) <==> StarsAgree(arrays)
  {
    if StarsAgree(arrays) {
      forall s, k, l | k in arrays && l in arrays && Matches(s, k) && Matches(s, l)
        ensures arrays[k] == arrays[l]
      {
        var k', l' := if s == Ref(k) then k else Star(k), if s == Ref(l) then l else Star(l);
        RefInjective(k', l');
        if k' == Star(k) && l' == Star(l) {
          StarInjective(k, l);
        }
      }
    }
    if ArraysOrderFree(arrays) {
      forall k | k in arrays && Star(k) in arrays
        ensures arrays[k] == arrays[Star(k)]
      {
        assert Matches(Ref(Star(k)), k) && Matches(Ref(Star(k)), Star(k));
      }
    }
  }
}
