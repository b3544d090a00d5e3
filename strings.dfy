/**
 * The parts of JavaScript's string semantics the two stores rely on:
 * truthiness, the `<` ordering, ASCII lower-casing, `Array.prototype.join`
 * and the quoting `JSON.stringify` applies to a string.
 */
module Strings {
  import opened Wrappers

  /** `if (x)` on a property that is a string or undefined: defined and not empty. */
  predicate Truthy(s: Option<string>) {
    s.Some? && s.value != ""
  }

  /** JavaScript's `a < b` on strings: lexicographic by character code, a proper prefix first. */
  predicate LexLess(a: string, b: string)
    decreases |a|
  {
    if a == [] then b != []
    else b != [] && (a[0] < b[0] || (a[0] == b[0] && LexLess(a[1..], b[1..])))
  }

  lemma {:induction false} LexLessIrreflexive(a: string)
    ensures !LexLess(a, a)
    decreases |a|
  {
    if a != [] {
      LexLessIrreflexive(a[1..]);
    }
  }

  lemma {:induction false} LexLessTransitive(a: string, b: string, c: string)
    requires LexLess(a, b) && LexLess(b, c)
    ensures LexLess(a, c)
    decreases |a|
  {
    if a != [] && a[0] == b[0] && b[0] == c[0] {
      LexLessTransitive(a[1..], b[1..], c[1..]);
    }
  }

  lemma {:induction false} LexLessTotal(a: string, b: string)
    ensures a == b || LexLess(a, b) || LexLess(b, a)
    decreases |a|
  {
    if a != [] && b != [] && a[0] == b[0] {
      LexLessTotal(a[1..], b[1..]);
      if a[1..] == b[1..] {
        assert a == [a[0]] + a[1..] && b == [b[0]] + b[1..];
      }
    }
  }

  lemma LexLessAsymmetric(a: string, b: string)
    requires LexLess(a, b)
    ensures !LexLess(b, a)
  {
    if LexLess(b, a) {
      LexLessTransitive(a, b, a);
      LexLessIrreflexive(a);
    }
  }

  /** A common prefix does not change how two strings compare. */
  lemma {:induction false} LexLessCommonPrefix(p: string, a: string, b: string)
    ensures LexLess(p + a, p + b) <==> LexLess(a, b)
    decreases |p|
  {
    if p != [] {
      assert (p + a)[0] == p[0] && (p + b)[0] == p[0];
      assert (p + a)[1..] == p[1..] + a && (p + b)[1..] == p[1..] + b;
      LexLessCommonPrefix(p[1..], a, b);
    } else {
      assert p + a == a && p + b == b;
    }
  }

  predicate IsAsciiUpper(c: char) {
    'A' <= c <= 'Z'
  }

  function LowerChar(c: char): (r: char)
    ensures !IsAsciiUpper(r)
    ensures IsAsciiUpper(c) ==> r as int == c as int + 32
    ensures !IsAsciiUpper(c) ==> r == c
  {
    if IsAsciiUpper(c) then (c as int + 32) as char else c
  }

  /** `toLowerCase`, restricted to the ASCII letters. */
  function Lower(s: string): (r: string)
    ensures |r| == |s|
    ensures forall i :: 0 <= i < |r| ==> !IsAsciiUpper(r[i])
    ensures forall i :: 0 <= i < |s| && IsAsciiUpper(s[i]) ==> r[i] as int == s[i] as int + 32
    ensures forall i :: 0 <= i < |s| && !IsAsciiUpper(s[i]) ==> r[i] == s[i]
  {
    seq(|s|, i requires 0 <= i < |s| => LowerChar(s[i]))
  }

  /** Lower-casing a lower-cased name changes nothing. */
  lemma LowerIdempotent(s: string)
    ensures Lower(Lower(s)) == Lower(s)
  {
  }

  /** `parts.join(sep)`; `String(array)` is the join with ",". */
  function Join(parts: seq<string>, sep: string): (r: string)
    ensures |parts| == 1 ==> r == parts[0]
    decreases |parts|
  {
    if |parts| == 0 then ""
    else if |parts| == 1 then parts[0]
    else Join(parts[..|parts| - 1], sep) + sep + parts[|parts| - 1]
  }

  // `JSON.stringify` of a string (QuoteJSONString, section 25.5.2.3 of ECMA-262)

  const HexDigits := "0123456789abcdef"

  /** The escape of one character: the short escapes, `\u00xx` for other control characters, else itself. */
  function EscapeChar(c: char): (r: string)
    ensures |r| >= 1 && (|r| == 1 <==> r == [c])
    ensures r == [c] <==> PlainJsonChar(c)
  {
    if c == '"' then ['\\', '"']
    else if c == '\\' then ['\\', '\\']
    else if c as int == 8 then ['\\', 'b']
    else if c == '\t' then ['\\', 't']
    else if c == '\n' then ['\\', 'n']
    else if c as int == 12 then ['\\', 'f']
    else if c == '\r' then ['\\', 'r']
    else if c as int < 0x20 then ['\\', 'u', '0', '0', HexDigits[c as int / 16], HexDigits[c as int % 16]]
    else [c]
  }

  /** Whether `JSON.stringify` leaves a character as it is. */
  predicate PlainJsonChar(c: char) {
    c != '"' && c != '\\' && c as int >= 0x20
  }

  /** The characters of a string, each escaped. */
  function Escaped(t: string): (r: string)
    ensures |r| >= |t|
    decreases |t|
  {
    if t == [] then [] else EscapeChar(t[0]) + Escaped(t[1..])
  }

  /** `JSON.stringify(t)` for a string `t`: its escaped characters between double quotes. */
  function JsonQuote(t: string): (r: string)
    ensures |r| >= |t| + 2 && r[0] == '"' && r[|r| - 1] == '"'
  {
    "\"" + Escaped(t) + "\""
  }

  /** A string without quotes, backslashes or control characters is only put between quotes. */
  lemma {:induction false} EscapedPlain(t: string)
    requires forall i :: 0 <= i < |t| ==> PlainJsonChar(t[i])
    ensures Escaped(t) == t
    decreases |t|
  {
    if t != [] {
      EscapedPlain(t[1..]);
    }
  }

  /** The value of a hexadecimal digit, if it is one. */
  function HexValue(c: char): Option<nat> {
    if '0' <= c <= '9' then Some(c as int - '0' as int)
    else if 'a' <= c <= 'f' then Some(c as int - 'a' as int + 10)
    else if 'A' <= c <= 'F' then Some(c as int - 'A' as int + 10)
    else None
  }

  /** The code of four hexadecimal digits. */
  function Hex4(s: string): Option<nat>
    requires |s| == 4
  {
    match (HexValue(s[0]), HexValue(s[1]), HexValue(s[2]), HexValue(s[3]))
    case (Some(a), Some(b), Some(c), Some(d)) => Some(((a * 16 + b) * 16 + c) * 16 + d)
    case _ => None
  }

  /** The inside of a JSON string literal, read back as `JSON.parse` reads it; None when malformed. */
  function Unescaped(s: string): Option<string>
    decreases |s|
  {
    if s == [] then Some([])
    else if s[0] == '\\' then
      if |s| < 2 then None
      else
        var short :=
          if s[1] == '"' then Some('"')
          else if s[1] == '\\' then Some('\\')
          else if s[1] == '/' then Some('/')
          else if s[1] == 'b' then Some(8 as char)
          else if s[1] == 't' then Some('\t')
          else if s[1] == 'n' then Some('\n')
          else if s[1] == 'f' then Some(12 as char)
          else if s[1] == 'r' then Some('\r')
          else None;
        if short.Some? then Prepend(short.value, Unescaped(s[2..]))
        else if s[1] == 'u' && |s| >= 6 && Hex4(s[2..6]).Some? && Hex4(s[2..6]).value < 0xD800 then
          Prepend(Hex4(s[2..6]).value as char, Unescaped(s[6..]))
        else None
    else if PlainJsonChar(s[0]) then Prepend(s[0], Unescaped(s[1..]))
    else None
  }

  function Prepend(c: char, rest: Option<string>): Option<string> {
    if rest.Some? then Some([c] + rest.value) else None
  }

  lemma HexDigitValue(n: nat)
    requires n < 16
    ensures HexValue(HexDigits[n]) == Some(n)
  {
  }

  /** One escaped character reads back as that character. */
  lemma UnescapedChar(c: char, rest: string)
    ensures Unescaped(EscapeChar(c) + rest) == Prepend(c, Unescaped(rest))
  {
    var e := EscapeChar(c);
    if |e| == 1 {
      assert (e + rest)[1..] == rest;
    } else if |e| == 2 {
      assert (e + rest)[2..] == rest;
    } else {
      var hi, lo := c as int / 16, c as int % 16;
      HexDigitValue(hi);
      HexDigitValue(lo);
      assert (e + rest)[2..6] == ['0', '0', HexDigits[hi], HexDigits[lo]];
      assert (e + rest)[6..] == rest;
    }
  }

  /** `JSON.parse` undoes the escaping: the inside of `JsonQuote(t)` reads back as `t`. */
  lemma {:induction false} EscapedRoundTrip(t: string)
    ensures Unescaped(Escaped(t)) == Some(t)
    decreases |t|
  {
    if t != [] {
      EscapedRoundTrip(t[1..]);
      UnescapedChar(t[0], Escaped(t[1..]));
      assert [t[0]] + t[1..] == t;
    }
  }

  /** Different strings have different JSON texts. */
  lemma JsonQuoteInjective(a: string, b: string)
    requires JsonQuote(a) == JsonQuote(b)
    ensures a == b
  {
    assert Escaped(a) == JsonQuote(a)[1..|JsonQuote(a)| - 1];
    assert Escaped(b) == JsonQuote(b)[1..|JsonQuote(b)| - 1];
    EscapedRoundTrip(a);
    EscapedRoundTrip(b);
  }
}
