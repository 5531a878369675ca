/** JSON strings as Go's encoding/json writes and reads them. A string holds bytes, one per character. */
module JsonText {
  import opened Wrappers
  import opened Text

  // ----- UTF-8 -----

  predicate Between(lo: int, c: char, hi: int) {
    lo <= c as int <= hi
  }

  predicate Continues(s: string, i: nat, n: nat) {
    i + n <= |s| && forall k :: i <= k < i + n ==> Between(0x80, s[k], 0xBF)
  }

  // The second byte of a three- or four-byte sequence: no overlong forms, no surrogates, nothing past U+10FFFF.
  predicate SecondByte(lead: char, second: char) {
    match lead as int
    case 0xE0 => Between(0xA0, second, 0xBF)
    case 0xED => Between(0x80, second, 0x9F)
    case 0xF0 => Between(0x90, second, 0xBF)
    case 0xF4 => Between(0x80, second, 0x8F)
    case _ => Between(0x80, second, 0xBF)
  }

  // The length of the valid sequence that s begins with; 0 when its first byte begins none.
  function RuneLen(s: string): nat
    requires s != ""
  {
    if s[0] as int < 0x80 then 1
    else if Between(0xC2, s[0], 0xDF) && Continues(s, 1, 1) then 2
    else if Between(0xE0, s[0], 0xEF) && Continues(s, 1, 2) && SecondByte(s[0], s[1]) then 3
    else if Between(0xF0, s[0], 0xF4) && Continues(s, 1, 3) && SecondByte(s[0], s[1]) then 4
    else 0
  }

  lemma RuneLenBounded(s: string)
    requires s != ""
    ensures RuneLen(s) <= |s|
  {
  }

  // Whether a valid sequence begins s is told by its own bytes.
  lemma RuneLenLocal(s: string, t: string)
    requires s != "" && t != "" && 0 < RuneLen(s) <= |t| && t[..RuneLen(s)] == s[..RuneLen(s)]
    ensures RuneLen(t) == RuneLen(s)
  {
    var n := RuneLen(s);
    assert forall k :: 0 <= k < n ==> t[k] == t[..n][k] && s[k] == s[..n][k];
    if n > 1 {
      assert Continues(t, 1, n - 1);
    }
  }

  const REPLACEMENT: string := [0xEF as char, 0xBF as char, 0xBD as char]

  // What a string is after one trip through the encoder: every byte outside a valid sequence replaced.
  function Sanitize(v: string): string {
    if v == "" then ""
    else if RuneLen(v) == 0 then REPLACEMENT + Sanitize(v[1..])
    else RuneLenBounded(v); v[..RuneLen(v)] + Sanitize(v[RuneLen(v)..])
  }

  // The number of bytes outside valid sequences.
  function Bad(v: string): nat {
    if v == "" then 0
    else if RuneLen(v) == 0 then 1 + Bad(v[1..])
    else RuneLenBounded(v); Bad(v[RuneLen(v)..])
  }

  lemma {:induction false} CleanIsKept(v: string)
    requires Bad(v) == 0
    ensures Sanitize(v) == v
  {
    if v != "" {
      RuneLenBounded(v);
      CleanIsKept(v[RuneLen(v)..]);
      assert v == v[..RuneLen(v)] + v[RuneLen(v)..];
    }
  }

  // ----- Writing -----

  function Hex(d: nat): char
    requires d < 16
  {
    if d < 10 then '0' + d as char else 'a' + (d - 10) as char
  }

  // The letter of a two-character escape.
  function ShortEscape(c: char): Option<char> {
    match c as int
    case 0x22 => Some('"')
    case 0x5C => Some('\\')
    case 0x08 => Some('b')
    case 0x0C => Some('f')
    case 0x0A => Some('n')
    case 0x0D => Some('r')
    case 0x09 => Some('t')
    case _ => None
  }

  // Control characters and the three that matter in HTML.
  predicate LongEscape(c: char) {
    c as int < 0x20 || c as int in {0x3C, 0x3E, 0x26}
  }

  // U+2028 and U+2029.
  predicate LineSeparator(v: string) {
    |v| >= 3 && v[0] as int == 0xE2 && v[1] as int == 0x80 && Between(0xA8, v[2], 0xA9)
  }

  function Unicode(a: char, b: char, c: char, d: char): string {
    ['\\', 'u', a, b, c, d]
  }

  // How the first character of v is written.
  function Written(v: string): string
    requires v != ""
  {
    var c := v[0];
    if c as int < 0x80 then
      if ShortEscape(c).Some? then ['\\', ShortEscape(c).value]
      else if LongEscape(c) then Unicode('0', '0', Hex(c as int / 16), Hex(c as int % 16))
      else [c]
    else if RuneLen(v) == 0 then Unicode('f', 'f', 'f', 'd')
    else if LineSeparator(v) then Unicode('2', '0', '2', Hex(v[2] as int - 0xA0))
    else RuneLenBounded(v); v[..RuneLen(v)]
  }

  // The bytes of v that its first character takes up.
  function Width(v: string): (n: nat)
    requires v != ""
    ensures 0 < n <= |v|
  {
    RuneLenBounded(v);
    if RuneLen(v) == 0 then 1 else RuneLen(v)
  }

  function QuoteBody(v: string): string {
    if v == "" then "" else Written(v) + QuoteBody(v[Width(v)..])
  }

  function Quote(v: string): string {
    ['"'] + (QuoteBody(v) + ['"'])
  }

  // ----- Reading -----

  predicate IsHex(c: char) {
    IsDigit(c) || 'a' <= c <= 'f' || 'A' <= c <= 'F'
  }

  function HexValue(c: char): (d: nat)
    requires IsHex(c)
    ensures d < 16
  {
    if IsDigit(c) then DigitValue(c)
    else if 'a' <= c <= 'f' then c as int - 'a' as int + 10
    else c as int - 'A' as int + 10
  }

  function Utf8(code: nat): string
    requires code < 0x1_0000
  {
    if code < 0x80 then [code as char]
    else if code < 0x800 then [(0xC0 + code / 64) as char, (0x80 + code % 64) as char]
    else [(0xE0 + code / 4096) as char, (0x80 + code / 64 % 64) as char, (0x80 + code % 64) as char]
  }

  function FromShort(e: char): Option<char> {
    match e
    case '"' => Some('"')
    case '\\' => Some('\\')
    case '/' => Some('/')
    case 'b' => Some(0x08 as char)
    case 'f' => Some(0x0C as char)
    case 'n' => Some(0x0A as char)
    case 'r' => Some(0x0D as char)
    case 't' => Some(0x09 as char)
    case _ => None
  }

  datatype Token = Token(bytes: string, length: nat)

  // The character that s, the inside of a quoted string, begins with.
  function NextToken(s: string): (r: Option<Token>)
    requires s != ""
    ensures r.Some? ==> 0 < r.value.length <= |s|
  {
    if s[0] == '\\' then
      if |s| < 2 then None
      else if FromShort(s[1]).Some? then Some(Token([FromShort(s[1]).value], 2))
      else if s[1] == 'u' && |s| >= 6 && IsHex(s[2]) && IsHex(s[3]) && IsHex(s[4]) && IsHex(s[5]) then
        var code := ((HexValue(s[2]) * 16 + HexValue(s[3])) * 16 + HexValue(s[4])) * 16 + HexValue(s[5]);
        if 0xD800 <= code < 0xE000 then None else Some(Token(Utf8(code), 6))
      else None
    else if s[0] as int < 0x20 then None
    else if RuneLen(s) == 0 then Some(Token(REPLACEMENT, 1))
    else RuneLenBounded(s); Some(Token(s[..RuneLen(s)], RuneLen(s)))
  }

  datatype Parsed<T> = Parsed(value: T, rest: string)

  // The inside of a quoted string, up to its closing quote.
  function UnquoteBody(s: string): (r: Option<Parsed<string>>)
    ensures r.Some? ==> |r.value.rest| < |s|
  {
    if s == "" then None
    else if s[0] == '"' then Some(Parsed("", s[1..]))
    else
      var t := NextToken(s);
      if t.None? then None
      else
        var more := UnquoteBody(s[t.value.length..]);
        if more.None? then None else Some(Parsed(t.value.bytes + more.value.value, more.value.rest))
  }

  function Unquote(s: string): (r: Option<Parsed<string>>)
    ensures r.Some? ==> |r.value.rest| < |s|
  {
    if s == "" || s[0] != '"' then None else UnquoteBody(s[1..])
  }

  // ----- Round trip -----

  // What the first character of v reads back as.
  function Kept(v: string): string
    requires v != ""
  {
    if RuneLen(v) == 0 then REPLACEMENT else v[..Width(v)]
  }

  lemma ShortReadsBack(c: char)
    requires ShortEscape(c).Some?
    ensures FromShort(ShortEscape(c).value) == Some(c)
  {
  }

  lemma HexReadsBack(d: nat)
    requires d < 16
    ensures IsHex(Hex(d)) && HexValue(Hex(d)) == d
  {
  }

  lemma AsciiReadsBack(v: string, tail: string)
    requires v != "" && v[0] as int < 0x80
    ensures var s := Written(v) + tail; s != "" && s[0] != '"' && NextToken(s) == Some(Token(v[..1], |Written(v)|))
  {
    var c := v[0];
    var s := Written(v) + tail;
    if ShortEscape(c).Some? {
      ShortReadsBack(c);
      assert s[0] == '\\' && s[1] == ShortEscape(c).value;
      assert v[..1] == [c];
    } else if LongEscape(c) {
      HexReadsBack(c as int / 16);
      HexReadsBack(c as int % 16);
      assert v[..1] == [c] == Utf8(c as int);
      assert s[0] == '\\' && s[1] == 'u' && s[2] == '0' && s[3] == '0' && s[4] == Hex(c as int / 16)
          && s[5] == Hex(c as int % 16);
    } else {
      assert c != '\\' && c != '"' && c as int >= 0x20;
      assert s[0] == c && RuneLen(s) == 1 && s[..1] == v[..1];
    }
  }

  lemma OthersReadBack(v: string, tail: string)
    requires v != "" && v[0] as int >= 0x80
    ensures var s := Written(v) + tail; s != "" && s[0] != '"' && NextToken(s) == Some(Token(Kept(v), |Written(v)|))
  {
    var s := Written(v) + tail;
    if RuneLen(v) == 0 {
      assert s[0] == '\\' && s[1] == 'u' && s[2] == 'f' && s[3] == 'f' && s[4] == 'f' && s[5] == 'd';
      assert HexValue('f') == 15 && HexValue('d') == 13;
    } else if LineSeparator(v) {
      assert s[0] == '\\' && s[1] == 'u' && s[2] == '2' && s[3] == '0' && s[4] == '2'
          && s[5] == Hex(v[2] as int - 0xA0);
      assert v[..3] == [v[0], v[1], v[2]];
    } else {
      var n := RuneLen(v);
      RuneLenBounded(v);
      assert s[..n] == v[..n];
      RuneLenLocal(v, s);
      assert s[0] == v[0];
    }
  }

  lemma CharacterReadsBack(v: string, tail: string)
    requires v != ""
    ensures var s := Written(v) + tail; s != "" && s[0] != '"' && NextToken(s) == Some(Token(Kept(v), |Written(v)|))
  {
    if v[0] as int < 0x80 {
      AsciiReadsBack(v, tail);
    } else {
      OthersReadBack(v, tail);
    }
  }

  // A written character in front of text that reads back.
  lemma PrependCharacter(v: string, tail: string, p: Parsed<string>)
    requires v != "" && UnquoteBody(tail) == Some(p)
    ensures UnquoteBody(Written(v) + tail) == Some(Parsed(Kept(v) + p.value, p.rest))
  {
    CharacterReadsBack(v, tail);
    assert (Written(v) + tail)[|Written(v)|..] == tail;
  }

  lemma SanitizeStep(v: string)
    requires v != ""
    ensures Sanitize(v) == Kept(v) + Sanitize(v[Width(v)..])
  {
  }

  lemma QuoteStep(v: string, end: string)
    requires v != ""
    ensures QuoteBody(v) + end == Written(v) + (QuoteBody(v[Width(v)..]) + end)
  {
  }

  lemma {:induction false} BodyReadsBack(v: string, tail: string)
    ensures UnquoteBody(QuoteBody(v) + (['"'] + tail)) == Some(Parsed(Sanitize(v), tail))
  {
    var end := ['"'] + tail;
    if v == "" {
      assert QuoteBody(v) + end == end && end[1..] == tail;
    } else {
      var more := v[Width(v)..];
      BodyReadsBack(more, tail);
      PrependCharacter(v, QuoteBody(more) + end, Parsed(Sanitize(more), tail));
      QuoteStep(v, end);
      SanitizeStep(v);
    }
  }

  /** A quoted string reads back as itself with every invalid byte replaced, and reading stops at its end. */
  lemma QuoteReadsBack(v: string, tail: string)
    ensures Unquote(Quote(v) + tail) == Some(Parsed(Sanitize(v), tail))
  {
    BodyReadsBack(v, tail);
    assert (Quote(v) + tail)[1..] == QuoteBody(v) + (['"'] + tail);
  }

  // ----- Lengths: an invalid byte costs six bytes, its replacement three -----

  lemma KeptWidth(v: string, tail: string)
    requires v != ""
    ensures var s := Kept(v) + tail; s != "" && RuneLen(s) != 0 && Width(s) == |Kept(v)|
    ensures |Written(Kept(v) + tail)| == |Written(v)| - (if RuneLen(v) == 0 then 3 else 0)
  {
    var s := Kept(v) + tail;
    if RuneLen(v) == 0 {
      assert s[0] as int == 0xEF && s[1] as int == 0xBF && s[2] as int == 0xBD && Continues(s, 1, 2);
      assert RuneLen(s) == 3 && !LineSeparator(s);
    } else {
      var n := RuneLen(v);
      assert s[..n] == v[..n];
      RuneLenLocal(v, s);
      assert s[0] == v[0] && (n == 3 ==> s[1] == v[1] && s[2] == v[2]);
    }
  }

  lemma {:induction false} SanitizeShrinks(v: string)
    ensures |QuoteBody(v)| == |QuoteBody(Sanitize(v))| + 3 * Bad(v)
    ensures Bad(Sanitize(v)) == 0
  {
    if v != "" {
      var w := Width(v);
      var tail := Sanitize(v[w..]);
      assert Sanitize(v) == Kept(v) + tail;
      KeptWidth(v, tail);
      assert Sanitize(v)[|Kept(v)|..] == tail;
      SanitizeShrinks(v[w..]);
    }
  }

  // ----- The text itself -----

  // A character that stands for itself.
  predicate PlainChar(c: char) {
    0x20 <= c as int < 0x7F && c !in {'"', '\\', '<', '>', '&'}
  }

  predicate PlainText(v: string) {
    forall i :: 0 <= i < |v| ==> PlainChar(v[i])
  }

  /** Plain text is written as it is, between quotes. */
  lemma {:induction false} PlainIsQuoted(v: string)
    requires PlainText(v)
    ensures QuoteBody(v) == v && Quote(v) == ['"'] + (v + ['"'])
  {
    if v != "" {
      assert PlainChar(v[0]);
      assert RuneLen(v) == 1 && Written(v) == [v[0]];
      PlainIsQuoted(v[1..]);
      assert v == [v[0]] + v[1..];
    }
  }

  /** The escapes of encoding/json, in front of any text. */
  lemma EscapesAre(rest: string)
    ensures Written("\"" + rest) == "\\\"" && Written("\\" + rest) == "\\\\"
    ensures Written([0x08 as char] + rest) == "\\b" && Written([0x0C as char] + rest) == "\\f"
    ensures Written("\n" + rest) == "\\n" && Written("\r" + rest) == "\\r" && Written("\t" + rest) == "\\t"
    ensures Written("<" + rest) == "\\u003c" && Written(">" + rest) == "\\u003e" && Written("&" + rest) == "\\u0026"
    ensures Written([0x00 as char] + rest) == "\\u0000" && Written([0x1F as char] + rest) == "\\u001f"
    ensures Written([0xE2 as char, 0x80 as char, 0xA8 as char] + rest) == "\\u2028"
    ensures Written([0xE2 as char, 0x80 as char, 0xA9 as char] + rest) == "\\u2029"
    ensures Written([0xFF as char] + rest) == "\\ufffd"
  {
    Separators(rest);
    assert ([0xFF as char] + rest)[0] == 0xFF as char && RuneLen([0xFF as char] + rest) == 0;
    assert forall c: char :: ([c] + rest)[0] == c;
  }

  lemma Separators(rest: string)
    ensures Written([0xE2 as char, 0x80 as char, 0xA8 as char] + rest) == "\\u2028"
    ensures Written([0xE2 as char, 0x80 as char, 0xA9 as char] + rest) == "\\u2029"
  {
    var a, b := [0xE2 as char, 0x80 as char, 0xA8 as char] + rest, [0xE2 as char, 0x80 as char, 0xA9 as char] + rest;
    assert a[0] as int == 0xE2 && a[1] as int == 0x80 && a[2] as int == 0xA8;
    assert b[0] as int == 0xE2 && b[1] as int == 0x80 && b[2] as int == 0xA9;
  }

  // What is left after reading is an end of what was there, and a quote stands before it.
  lemma {:induction false} UnquoteLeavesEnd(s: string)
    ensures UnquoteBody(s).Some? ==>
              var rest := UnquoteBody(s).value.rest;
              s[|s| - |rest|..] == rest && s[|s| - |rest| - 1] == '"'
  {
    if s != "" && s[0] != '"' && NextToken(s).Some? {
      var t := NextToken(s).value;
      UnquoteLeavesEnd(s[t.length..]);
      if UnquoteBody(s).Some? {
        var rest := UnquoteBody(s).value.rest;
        var m := |s[t.length..]| - |rest|;
        assert s[t.length..][m..] == s[t.length + m..] && s[t.length..][m - 1] == s[t.length + m - 1];
      }
    }
  }

  // ----- Which bytes are characters -----

  // A code point that is no surrogate.
  predicate IsRune(code: nat) {
    code < 0xD800 || 0xE000 <= code < 0x11_0000
  }

  // Its bytes, as section 3 of RFC 3629 gives them.
  function RuneBytes(code: nat): string
    requires IsRune(code)
  {
    if code < 0x1_0000 then Utf8(code)
    else [(0xF0 + code / 262144) as char, (0x80 + code / 4096 % 64) as char, (0x80 + code / 64 % 64) as char,
          (0x80 + code % 64) as char]
  }

  /** The bytes of every code point that is no surrogate are read as one character. */
  lemma RunesAreRead(code: nat, rest: string)
    requires IsRune(code)
    ensures RuneLen(RuneBytes(code) + rest) == |RuneBytes(code)|
  {
    var s := RuneBytes(code) + rest;
    if code < 0x80 {
      assert s[0] as int == code;
    } else if code < 0x800 {
      assert s[0] as int == 0xC0 + code / 64 && s[1] as int == 0x80 + code % 64;
      assert Continues(s, 1, 1);
    } else if code < 0x1_0000 {
      ThreeBytes(code, rest);
    } else {
      FourBytes(code, rest);
    }
  }

  lemma ThreeBytes(code: nat, rest: string)
    requires IsRune(code) && 0x800 <= code < 0x1_0000
    ensures RuneLen(RuneBytes(code) + rest) == 3
  {
    var s := RuneBytes(code) + rest;
    var a, b, c := code / 4096, code / 64 % 64, code % 64;
    assert s[0] as int == 0xE0 + a && s[1] as int == 0x80 + b && s[2] as int == 0x80 + c;
    assert code == a * 4096 + b * 64 + c;
    assert Continues(s, 1, 2);
    assert SecondByte(s[0], s[1]);
  }

  lemma FourBytes(code: nat, rest: string)
    requires IsRune(code) && 0x1_0000 <= code
    ensures RuneLen(RuneBytes(code) + rest) == 4
  {
    var s := RuneBytes(code) + rest;
    var a, b, c, d := code / 262144, code / 4096 % 64, code / 64 % 64, code % 64;
    assert s[0] as int == 0xF0 + a && s[1] as int == 0x80 + b && s[2] as int == 0x80 + c && s[3] as int == 0x80 + d;
    assert Continues(s, 1, 3);
    FourthLead(code, a, b);
  }

  // The lead byte is in range, and tells the range of the second.
  lemma FourthLead(code: nat, a: nat, b: nat)
    requires 0x1_0000 <= code < 0x11_0000 && a == code / 262144 && b == code / 4096 % 64
    ensures a <= 4 && (a == 0 ==> b >= 16) && (a == 4 ==> b < 16)
  {
    assert code / 4096 == a * 64 + b;
  }

  /** And nothing else is: what is read as one character is the bytes of such a code point. */
  lemma ReadIsRune(s: string) returns (code: nat)
    requires s != "" && RuneLen(s) > 0
    ensures RuneLen(s) <= |s| && IsRune(code) && RuneBytes(code) == s[..RuneLen(s)]
  {
    var n := RuneLen(s);
    RuneLenBounded(s);
    if n == 1 {
      code := s[0] as int;
    } else if n == 2 {
      var a, b := s[0] as int - 0xC0, s[1] as int - 0x80;
      code := a * 64 + b;
      assert code / 64 == a && code % 64 == b;
    } else if n == 3 {
      code := ReadThree(s);
    } else {
      code := ReadFour(s);
    }
  }

  lemma ReadThree(s: string) returns (code: nat)
    requires s != "" && RuneLen(s) == 3
    ensures |s| >= 3 && IsRune(code) && RuneBytes(code) == s[..3]
  {
    var a, b, c := s[0] as int - 0xE0, s[1] as int - 0x80, s[2] as int - 0x80;
    code := a * 4096 + b * 64 + c;
    assert code / 4096 == a && code / 64 == a * 64 + b && code / 64 % 64 == b && code % 64 == c;
  }

  lemma ReadFour(s: string) returns (code: nat)
    requires s != "" && RuneLen(s) == 4
    ensures |s| >= 4 && IsRune(code) && RuneBytes(code) == s[..4]
  {
    var a, b, c, d := s[0] as int - 0xF0, s[1] as int - 0x80, s[2] as int - 0x80, s[3] as int - 0x80;
    code := a * 262144 + b * 4096 + c * 64 + d;
    assert code / 262144 == a && code / 4096 == a * 64 + b && code / 4096 % 64 == b;
    assert code / 64 == a * 4096 + b * 64 + c && code / 64 % 64 == c && code % 64 == d;
  }
}
