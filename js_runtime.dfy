/** The JavaScript built-ins the server and the client lean on, stated exactly:
    white space and `trim`, `split`/`join` with a one-character separator,
    `parseInt`, number-to-string conversion, `padStart` and `Math.round`.
    Numbers are unbounded integers or exact reals; IEEE-754 doubles are not modelled. */
module JsRuntime {

  datatype Option<+T> = None | Some(value: T)

  // ---------------------------------------------------------------------------
  // White space and trim
  // ---------------------------------------------------------------------------

  /** The characters matched by `\s` and removed by `trim` (WhiteSpace and
      LineTerminator of ECMA-262). */
  predicate IsWhitespace(c: char) {
    c == '\t' || c == '\n' || c == '\U{000B}' || c == '\U{000C}' || c == '\r' || c == ' '
    || c == '\U{00A0}' || c == '\U{1680}' || ('\U{2000}' <= c <= '\U{200A}')
    || c == '\U{2028}' || c == '\U{2029}' || c == '\U{202F}' || c == '\U{205F}'
    || c == '\U{3000}' || c == '\U{FEFF}'
  }

  /** No white space at either end. */
  predicate IsTrimmed(s: string) {
    s == [] || (!IsWhitespace(s[0]) && !IsWhitespace(s[|s| - 1]))
  }

  /** `s.trimStart()`: drops the leading white space and nothing else. */
  function TrimStart(s: string): (r: string)
    ensures |r| <= |s| && r == s[|s| - |r|..]
    ensures forall k :: 0 <= k < |s| - |r| ==> IsWhitespace(s[k])
    ensures r == [] || !IsWhitespace(r[0])
  {
    if |s| > 0 && IsWhitespace(s[0]) then TrimStart(s[1..]) else s
  }

  /** `s.trimEnd()`: drops the trailing white space and nothing else. */
  function TrimEnd(s: string): (r: string)
    ensures |r| <= |s| && r == s[..|r|]
    ensures forall k :: |r| <= k < |s| ==> IsWhitespace(s[k])
    ensures r == [] || !IsWhitespace(r[|r| - 1])
  {
    if |s| > 0 && IsWhitespace(s[|s| - 1]) then TrimEnd(s[..|s| - 1]) else s
  }

  /** Where the trimmed string starts inside the original. */
  function TrimOffset(s: string): nat
  {
    |s| - |TrimStart(s)|
  }

  /** `s.trim()`: the longest infix of `s` without white space at its ends;
      everything cut off is white space. */
  function Trim(s: string): (r: string)
    ensures IsTrimmed(r) && |r| <= |s|
  {
    var t := TrimStart(s);
    TrimEnd(t)
  }

  /** Where `trim` cuts: the result is the infix of `s` at `TrimOffset(s)`, and everything
      cut off on either side is white space. */
  lemma TrimSlice(s: string)
    ensures TrimOffset(s) + |Trim(s)| <= |s| && Trim(s) == s[TrimOffset(s)..TrimOffset(s) + |Trim(s)|]
    ensures forall k :: 0 <= k < TrimOffset(s) ==> IsWhitespace(s[k])
    ensures forall k :: TrimOffset(s) + |Trim(s)| <= k < |s| ==> IsWhitespace(s[k])
  {
  }

  /** Trimming a trimmed string changes nothing, so `trim` is idempotent. */
  lemma TrimOfTrimmed(s: string)
    requires IsTrimmed(s)
    ensures Trim(s) == s
  {
  }

  lemma TrimIdempotent(s: string)
    ensures Trim(Trim(s)) == Trim(s)
  {
    TrimOfTrimmed(Trim(s));
  }

  // ---------------------------------------------------------------------------
  // split and join with a one-character separator
  // ---------------------------------------------------------------------------

  /** `s.split(sep)` for a one-character separator: the pieces between the
      separators, empty pieces included; `"".split(sep)` is `[""]`. */
  function Split(s: string, sep: char): (r: seq<string>)
    ensures |r| >= 1
    ensures forall i :: 0 <= i < |r| ==> sep !in r[i]
  {
    if |s| == 0 then [""]
    else
      var rest := Split(s[1..], sep);
      if s[0] == sep then [""] + rest
      else [[s[0]] + rest[0]] + rest[1..]
  }

  /** `parts.join(sep)` for a one-character separator. */
  function Join(parts: seq<string>, sep: char): string
  {
    if |parts| == 0 then ""
    else if |parts| == 1 then parts[0]
    else parts[0] + [sep] + Join(parts[1..], sep)
  }

  /** Every occurrence of `from` replaced by `to`, every other character kept. */
  function ReplaceChar(s: string, from: char, to: char): (r: string)
    ensures |r| == |s|
    ensures forall k :: 0 <= k < |s| ==> r[k] == if s[k] == from then to else s[k]
  {
    if |s| == 0 then "" else [if s[0] == from then to else s[0]] + ReplaceChar(s[1..], from, to)
  }

  /** `s.split(a).join(b)` replaces each `a` by `b` and leaves the rest alone. */
  lemma {:induction false} JoinSplit(s: string, a: char, b: char)
    ensures Join(Split(s, a), b) == ReplaceChar(s, a, b)
  {
    if |s| > 0 {
      JoinSplit(s[1..], a, b);
      var rest := Split(s[1..], a);
      if s[0] == a {
        assert Split(s, a) == [""] + rest;
        assert ([""] + rest)[1..] == rest;
      } else {
        var head := [s[0]] + rest[0];
        assert Split(s, a) == [head] + rest[1..];
        if |rest| > 1 {
          assert ([head] + rest[1..])[1..] == rest[1..];
          assert Join(rest, b) == rest[0] + [b] + Join(rest[1..], b);
        }
      }
    }
  }

  /** A string without the separator is a single piece. */
  lemma {:induction false} SplitWithoutSeparator(s: string, sep: char)
    requires sep !in s
    ensures Split(s, sep) == [s]
  {
    if |s| > 0 {
      assert sep !in s[1..];
      SplitWithoutSeparator(s[1..], sep);
      assert [s[0]] + s[1..] == s;
    }
  }

  /** Two pieces joined by one separator split back into those two pieces. */
  lemma {:induction false} SplitAtSeparator(a: string, b: string, sep: char)
    requires sep !in a && sep !in b
    ensures Split(a + [sep] + b, sep) == [a, b]
  {
    if |a| == 0 {
      assert a + [sep] + b == [sep] + b;
      assert ([sep] + b)[1..] == b;
      SplitWithoutSeparator(b, sep);
    } else {
      SplitAtSeparator(a[1..], b, sep);
      assert (a + [sep] + b)[1..] == a[1..] + [sep] + b;
      assert [a[0]] + a[1..] == a;
    }
  }

  /** Splitting and joining on the same character gives the string back. */
  lemma SplitJoinRoundTrip(s: string, sep: char)
    ensures Join(Split(s, sep), sep) == s
  {
    JoinSplit(s, sep, sep);
    assert ReplaceChar(s, sep, sep) == s;
  }

  // ---------------------------------------------------------------------------
  // Digits, parseInt and number formatting
  // ---------------------------------------------------------------------------

  /** The value of a character as a digit of radix up to 16; 99 when it is none. */
  function DigitOf(c: char): nat
  {
    if '0' <= c <= '9' then (c as int) - ('0' as int)
    else if 'a' <= c <= 'f' then (c as int) - ('a' as int) + 10
    else if 'A' <= c <= 'F' then (c as int) - ('A' as int) + 10
    else 99
  }

  predicate IsDigitIn(c: char, radix: nat) { DigitOf(c) < radix }

  predicate AllDigitsIn(s: string, radix: nat) {
    forall k :: 0 <= k < |s| ==> IsDigitIn(s[k], radix)
  }

  /** The value of a digit string, most significant digit first. */
  function ValueIn(s: string, radix: nat): nat
    requires AllDigitsIn(s, radix)
  {
    if |s| == 0 then 0 else ValueIn(s[..|s| - 1], radix) * radix + DigitOf(s[|s| - 1])
  }

  /** The longest prefix of `s` made of digits of the radix. */
  function DigitPrefix(s: string, radix: nat): (r: string)
    ensures |r| <= |s| && AllDigitsIn(r, radix)
  {
    if |s| > 0 && IsDigitIn(s[0], radix) then [s[0]] + DigitPrefix(s[1..], radix) else ""
  }

  /** The digit prefix is a prefix, and the character after it, if any, is no digit. */
  lemma {:induction false} DigitPrefixShape(s: string, radix: nat)
    ensures DigitPrefix(s, radix) <= s
    ensures |DigitPrefix(s, radix)| == |s| || !IsDigitIn(s[|DigitPrefix(s, radix)|], radix)
  {
    if |s| > 0 && IsDigitIn(s[0], radix) {
      DigitPrefixShape(s[1..], radix);
    }
  }

  /** The radix argument of `parseInt`: 10, or left out (then a `0x` prefix selects 16). */
  datatype Radix = Decimal | Unspecified

  /** `parseInt(s, radix)`; `None` is NaN. Leading white space is skipped, one sign is
      accepted, and the longest run of digits that follows is read. */
  function ParseInt(s: string, radix: Radix): Option<int>
  {
    var t := TrimStart(s);
    var negative := |t| > 0 && t[0] == '-';
    var u := if |t| > 0 && (t[0] == '-' || t[0] == '+') then t[1..] else t;
    ReadNumeral(u, radix, negative)
  }

  /** The part of `parseInt` after the sign: a `0x` prefix selects base 16 when no radix is
      given, and the longest run of digits is read; none is NaN. */
  function ReadNumeral(u: string, radix: Radix, negative: bool): Option<int>
  {
    var hex := radix == Unspecified && |u| >= 2 && u[0] == '0' && (u[1] == 'x' || u[1] == 'X');
    var base := if hex then 16 else 10;
    var body := if hex then u[2..] else u;
    var digits := DigitPrefix(body, base);
    var value: int := ValueIn(digits, base);
    if |digits| == 0 then None
    else if negative then Some(-value)
    else Some(value)
  }

  /** `parseInt(x, 10) || fallback` for a query parameter that may be absent:
      NaN and 0 are falsy and give the fallback. */
  function ParseIntOr(param: Option<string>, fallback: int): (r: int)
    ensures r != 0 || fallback == 0
    ensures param.Some? && ParseInt(param.value, Decimal).Some? && ParseInt(param.value, Decimal).value != 0
            ==> r == ParseInt(param.value, Decimal).value
    ensures param.Some? && (ParseInt(param.value, Decimal).None? || ParseInt(param.value, Decimal).value == 0)
            ==> r == fallback
    ensures param.None? ==> r == fallback
  {
    match param
    case None => fallback
    case Some(s) =>
      match ParseInt(s, Decimal)
      case None => fallback
      case Some(v) => if v == 0 then fallback else v
  }

  function Digit(d: nat): (c: char)
    requires d < 10
    ensures '0' <= c <= '9' && DigitOf(c) == d
  {
    (('0' as int) + d) as char
  }

  /** The decimal numeral of a natural number, without leading zeros. */
  function NatToString(n: nat): (r: string)
    ensures |r| >= 1 && AllDigitsIn(r, 10)
    ensures (|r| == 1) == (n < 10)
  {
    if n < 10 then [Digit(n)] else NatToString(n / 10) + [Digit(n % 10)]
  }

  /** Reading back the numeral gives the number. */
  lemma {:induction false} NatToStringValue(n: nat)
    ensures ValueIn(NatToString(n), 10) == n
  {
    if n >= 10 {
      NatToStringValue(n / 10);
      var s := NatToString(n);
      assert s[..|s| - 1] == NatToString(n / 10);
    }
  }

  /** `String(x)` for an integer-valued number; `None` (NaN) prints as "NaN". */
  function NumberToString(x: Option<int>): string
  {
    match x
    case None => "NaN"
    case Some(n) => if n < 0 then "-" + NatToString(-n) else NatToString(n)
  }

  function Repeat(c: char, n: nat): (r: string)
    ensures |r| == n && forall k :: 0 <= k < n ==> r[k] == c
  {
    if n == 0 then "" else Repeat(c, n - 1) + [c]
  }

  /** `s.padStart(width, c)` with a one-character fill. */
  function PadStart(s: string, width: nat, c: char): (r: string)
    ensures |s| >= width ==> r == s
    ensures |s| < width ==> |r| == width
    ensures |r| >= |s| && r[|r| - |s|..] == s
    ensures forall k :: 0 <= k < |r| - |s| ==> r[k] == c
  {
    if |s| >= width then s else Repeat(c, width - |s|) + s
  }

  /** Leading zeros do not change the value of a numeral. */
  lemma {:induction false} ValueIgnoresLeadingZeros(zeros: string, s: string)
    requires forall k :: 0 <= k < |zeros| ==> zeros[k] == '0'
    requires AllDigitsIn(s, 10)
    ensures AllDigitsIn(zeros + s, 10)
    ensures ValueIn(zeros + s, 10) == ValueIn(s, 10)
  {
    assert AllDigitsIn(zeros + s, 10) by {
      forall k | 0 <= k < |zeros + s| ensures IsDigitIn((zeros + s)[k], 10) {
        if k < |zeros| { assert (zeros + s)[k] == zeros[k]; } else { assert (zeros + s)[k] == s[k - |zeros|]; }
      }
    }
    if |s| == 0 {
      assert zeros + s == zeros;
      ZerosValue(zeros);
    } else {
      ValueIgnoresLeadingZeros(zeros, s[..|s| - 1]);
      assert (zeros + s)[..|zeros + s| - 1] == zeros + s[..|s| - 1];
    }
  }

  lemma {:induction false} ZerosValue(zeros: string)
    requires forall k :: 0 <= k < |zeros| ==> zeros[k] == '0'
    ensures AllDigitsIn(zeros, 10) && ValueIn(zeros, 10) == 0
  {
    if |zeros| > 0 {
      ZerosValue(zeros[..|zeros| - 1]);
    }
  }

  /** `parseInt` reads a whole digit string (with or without leading zeros) back as its value. */
  lemma ParseIntOfDigits(s: string, radix: Radix)
    requires |s| >= 1 && AllDigitsIn(s, 10)
    requires radix == Unspecified ==> !(|s| >= 2 && s[0] == '0' && (s[1] == 'x' || s[1] == 'X'))
    ensures ParseInt(s, radix) == Some(ValueIn(s, 10))
  {
    assert !IsWhitespace(s[0]) && s[0] != '-' && s[0] != '+' by { assert IsDigitIn(s[0], 10); }
    assert TrimStart(s) == s;
    ReadNumeralOfDigits(s, radix);
  }

  lemma ReadNumeralOfDigits(s: string, radix: Radix)
    requires |s| >= 1 && AllDigitsIn(s, 10)
    requires radix == Unspecified ==> !(|s| >= 2 && s[0] == '0' && (s[1] == 'x' || s[1] == 'X'))
    ensures ReadNumeral(s, radix, false) == Some(ValueIn(s, 10))
  {
    DigitPrefixOfDigits(s, 10);
  }

  lemma {:induction false} DigitPrefixOfDigits(s: string, radix: nat)
    requires AllDigitsIn(s, radix)
    ensures DigitPrefix(s, radix) == s
  {
    if |s| > 0 {
      DigitPrefixOfDigits(s[1..], radix);
    }
  }

  /** A natural number printed and zero-padded to any width parses back to itself. */
  lemma PaddedNumeralParses(n: nat, width: nat, radix: Radix)
    ensures ParseInt(PadStart(NatToString(n), width, '0'), radix) == Some(n)
  {
    NatToStringValue(n);
    PaddedDigitsParse(NatToString(n), width, radix);
  }

  /** A digit string, zero-padded to any width, parses back to its value. */
  lemma PaddedDigitsParse(s: string, width: nat, radix: Radix)
    requires |s| >= 1 && AllDigitsIn(s, 10)
    ensures ParseInt(PadStart(s, width, '0'), radix) == Some(ValueIn(s, 10))
  {
    var p := PadStart(s, width, '0');
    ZeroPaddedValue(s, width);
    assert |p| >= 2 ==> IsDigitIn(p[1], 10);
    ParseIntOfDigits(p, radix);
  }

  /** Zero padding keeps a digit string a digit string of the same value. */
  lemma ZeroPaddedValue(s: string, width: nat)
    requires AllDigitsIn(s, 10)
    ensures AllDigitsIn(PadStart(s, width, '0'), 10)
    ensures ValueIn(PadStart(s, width, '0'), 10) == ValueIn(s, 10)
  {
    var p := PadStart(s, width, '0');
    var zeros := p[..|p| - |s|];
    assert p == zeros + s;
    ValueIgnoresLeadingZeros(zeros, s);
  }

  // ---------------------------------------------------------------------------
  // Math.round and prefixes
  // ---------------------------------------------------------------------------

  /** `Math.round(x)`: the nearest integer, halves rounded up. */
  function MathRound(x: real): (r: int)
    ensures (r as real) - 0.5 <= x < (r as real) + 0.5
  {
    (x + 0.5).Floor
  }

  predicate StartsWith(s: string, prefix: string) {
    |prefix| <= |s| && s[..|prefix|] == prefix
  }
}
