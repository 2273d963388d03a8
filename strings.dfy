/**
 * The JavaScript string primitives the loader relies on: `split` and `join`
 * with a one-character separator, decimal rendering of array indices,
 * ASCII lower-casing and `parseInt` with no radix.
 */
module Strings {
  import opened Wrappers

  /** `s.split(sep)`: the pieces between separators, in order; "" gives [""]. */
  function Split(s: string, sep: char): (parts: seq<string>)
    ensures |parts| >= 1
    ensures forall i :: 0 <= i < |parts| ==> sep !in parts[i]
    decreases |s|
  {
    if s == [] then [""]
    else
      var rest := Split(s[1..], sep);
      if s[0] == sep then [""] + rest
      else [[s[0]] + rest[0]] + rest[1..]
  }

  /** `parts.join(sep)`. */
  function JoinWith(parts: seq<string>, sep: char): string
  {
    if |parts| == 0 then ""
    else if |parts| == 1 then parts[0]
    else parts[0] + [sep] + JoinWith(parts[1..], sep)
  }

  /** Joining the pieces of a split gives back the original string. */
  lemma {:induction false} JoinSplit(s: string, sep: char)
    ensures JoinWith(Split(s, sep), sep) == s
    decreases |s|
  {
    if s != [] {
      var rest := Split(s[1..], sep);
      JoinSplit(s[1..], sep);
      if s[0] == sep {
        assert Split(s, sep) == [""] + rest;
        assert JoinWith([""] + rest, sep) == "" + [sep] + JoinWith(rest, sep);
        assert [sep] + s[1..] == s;
      } else if |rest| == 1 {
        assert Split(s, sep) == [[s[0]] + rest[0]];
        assert [s[0]] + s[1..] == s;
      } else {
        var parts := [[s[0]] + rest[0]] + rest[1..];
        assert Split(s, sep) == parts;
        assert parts[1..] == rest[1..];
        assert JoinWith(rest, sep) == rest[0] + [sep] + JoinWith(rest[1..], sep);
        calc {
          JoinWith(parts, sep);
          ([s[0]] + rest[0]) + [sep] + JoinWith(rest[1..], sep);
          [s[0]] + (rest[0] + [sep] + JoinWith(rest[1..], sep));
          [s[0]] + s[1..];
          s;
        }
      }
    }
  }

  /** Splitting a string that starts with a separator-free word `w`. */
  lemma {:induction false} SplitAfterWord(w: string, t: string, sep: char)
    requires sep !in w
    ensures Split(w + t, sep) == [w + Split(t, sep)[0]] + Split(t, sep)[1..]
    decreases |w|
  {
    if w != [] {
      assert (w + t)[1..] == w[1..] + t;
      assert (w + t)[0] == w[0];
      SplitAfterWord(w[1..], t, sep);
      assert [w[0]] + (w[1..] + Split(t, sep)[0]) == w + Split(t, sep)[0];
    } else {
      assert w + t == t;
      assert w + Split(t, sep)[0] == Split(t, sep)[0];
    }
  }

  /** Splitting the join of separator-free pieces gives back the pieces. */
  lemma {:induction false} SplitJoin(parts: seq<string>, sep: char)
    requires |parts| >= 1
    requires forall i :: 0 <= i < |parts| ==> sep !in parts[i]
    ensures Split(JoinWith(parts, sep), sep) == parts
    decreases |parts|
  {
    if |parts| == 1 {
      SplitAfterWord(parts[0], "", sep);
      assert parts[0] + "" == parts[0];
    } else {
      var tail := JoinWith(parts[1..], sep);
      SplitJoin(parts[1..], sep);
      assert ([sep] + tail)[1..] == tail;
      assert Split([sep] + tail, sep) == [""] + parts[1..];
      assert parts[0] + [sep] + tail == parts[0] + ([sep] + tail);
      SplitAfterWord(parts[0], [sep] + tail, sep);
      assert parts[0] + "" == parts[0];
      assert parts == [parts[0]] + parts[1..];
    }
  }

  // ---------------------------------------------------------------- digits

  predicate IsDigit(c: char) { '0' <= c <= '9' }

  predicate AllDigits(s: string) { forall i :: 0 <= i < |s| ==> IsDigit(s[i]) }

  function DigitValue(c: char): (d: nat)
    requires IsDigit(c)
    ensures d < 10
  {
    c as int - '0' as int
  }

  function DigitChar(d: nat): (c: char)
    requires d < 10
    ensures IsDigit(c) && DigitValue(c) == d
  {
    ('0' as int + d) as char
  }

  /** The value of a string of decimal digits, most significant first. */
  function DecimalValue(s: string): nat
    requires AllDigits(s)
    decreases |s|
  {
    if s == [] then 0 else DecimalValue(s[..|s| - 1]) * 10 + DigitValue(s[|s| - 1])
  }

  /** `String(n)` for a natural number: its canonical decimal form. */
  function NatToString(n: nat): (s: string)
    ensures |s| >= 1 && AllDigits(s)
    ensures s[0] == '0' ==> n == 0
    decreases n
  {
    if n < 10 then [DigitChar(n)] else NatToString(n / 10) + [DigitChar(n % 10)]
  }

  /** A property name that is a canonical array index ("0", "17", but not "07" or ""). */
  function ParseIndex(s: string): Option<nat>
  {
    if s != [] && AllDigits(s) && (s[0] != '0' || |s| == 1) then Some(DecimalValue(s)) else None
  }

  lemma {:induction false} DecimalValueOfNatToString(n: nat)
    ensures DecimalValue(NatToString(n)) == n
    decreases n
  {
    if n >= 10 {
      var s := NatToString(n);
      DecimalValueOfNatToString(n / 10);
      assert s[..|s| - 1] == NatToString(n / 10);
    }
  }

  /** Rendering an index and reading it back gives the index. */
  lemma ParseIndexOfNatToString(n: nat)
    ensures ParseIndex(NatToString(n)) == Some(n)
  {
    DecimalValueOfNatToString(n);
  }

  lemma {:induction false} LeadingNonZero(s: string)
    requires s != [] && AllDigits(s) && s[0] != '0'
    ensures DecimalValue(s) >= 1
    decreases |s|
  {
    if |s| > 1 {
      LeadingNonZero(s[..|s| - 1]);
    }
  }

  /** A canonical index is the rendering of the number it denotes. */
  lemma {:induction false} NatToStringOfParseIndex(s: string)
    requires ParseIndex(s).Some?
    ensures NatToString(ParseIndex(s).value) == s
    decreases |s|
  {
    var n := DecimalValue(s);
    if |s| == 1 {
      assert s[..0] == [];
      assert DecimalValue(s) == DecimalValue(s[..0]) * 10 + DigitValue(s[0]);
      assert [DigitChar(n)] == s;
    } else {
      var front := s[..|s| - 1];
      LeadingNonZero(front);
      assert n / 10 == DecimalValue(front) && n % 10 == DigitValue(s[|s| - 1]);
      assert ParseIndex(front) == Some(DecimalValue(front));
      NatToStringOfParseIndex(front);
      assert front + [s[|s| - 1]] == s;
    }
  }

  /** Different index strings never denote the same index. */
  lemma ParseIndexInjective(s: string, t: string)
    requires ParseIndex(s).Some? && ParseIndex(s) == ParseIndex(t)
    ensures s == t
  {
    NatToStringOfParseIndex(s);
    NatToStringOfParseIndex(t);
  }

  // ---------------------------------------------------------------- case

  function LowerChar(c: char): char
  {
    if 'A' <= c <= 'Z' then (c as int + 32) as char else c
  }

  /**
   * `s.toLowerCase()` restricted to ASCII. No character outside ASCII
   * lower-cases to one of the letters of "true", so comparing the result
   * with "true" gives the same answer as the full Unicode mapping.
   */
  function LowerAscii(s: string): (r: string)
    ensures |r| == |s|
    ensures forall i :: 0 <= i < |s| ==> r[i] == LowerChar(s[i])
  {
    seq(|s|, i requires 0 <= i < |s| => LowerChar(s[i]))
  }

  // ---------------------------------------------------------------- parseInt

  /** The StrWhiteSpaceChar set of ECMAScript: white space and line terminators. */
  predicate IsJsSpace(c: char)
  {
    c == '\t' || c == '\n' || c == '\U{000B}' || c == '\U{000C}' || c == '\r' || c == ' '
    || c == '\U{00A0}' || c == '\U{1680}' || ('\U{2000}' <= c <= '\U{200A}')
    || c == '\U{2028}' || c == '\U{2029}' || c == '\U{202F}' || c == '\U{205F}'
    || c == '\U{3000}' || c == '\U{FEFF}'
  }

  function TrimStart(s: string): (r: string)
    ensures r == [] || !IsJsSpace(r[0])
    decreases |s|
  {
    if s != [] && IsJsSpace(s[0]) then TrimStart(s[1..]) else s
  }

  /** The longest prefix of `s` made of decimal digits. */
  function DigitPrefix(s: string): (d: string)
    ensures d <= s && AllDigits(d)
    ensures |d| < |s| ==> !IsDigit(s[|d|])
    decreases |s|
  {
    if s != [] && IsDigit(s[0]) then [s[0]] + DigitPrefix(s[1..]) else []
  }

  predicate IsHexDigit(c: char)
  {
    IsDigit(c) || 'a' <= c <= 'f' || 'A' <= c <= 'F'
  }

  function HexDigitValue(c: char): (d: nat)
    requires IsHexDigit(c)
    ensures d < 16
  {
    if IsDigit(c) then DigitValue(c)
    else if 'a' <= c <= 'f' then c as int - 'a' as int + 10
    else c as int - 'A' as int + 10
  }

  /** The longest prefix of `s` made of hexadecimal digits. */
  function HexPrefix(s: string): (h: string)
    ensures h <= s && forall i :: 0 <= i < |h| ==> IsHexDigit(h[i])
    decreases |s|
  {
    if s != [] && IsHexDigit(s[0]) then [s[0]] + HexPrefix(s[1..]) else []
  }

  function HexValue(h: string): nat
    requires forall i :: 0 <= i < |h| ==> IsHexDigit(h[i])
    decreases |h|
  {
    if h == [] then 0 else HexValue(h[..|h| - 1]) * 16 + HexDigitValue(h[|h| - 1])
  }

  /**
   * `parseInt(s)` with no radix: leading white space is skipped, one sign is
   * read, a "0x"/"0X" prefix switches to base 16, then the longest run of
   * digits is read. `None` is NaN (no digit at all).
   */
  function ParseInt(s: string): (r: Option<int>)
    ensures r.Some? ==> TrimStart(s) != []
    ensures r.Some? && r.value < 0 ==> TrimStart(s)[0] == '-'
    ensures var t := TrimStart(s);
      var u := if t != [] && (t[0] == '-' || t[0] == '+') then t[1..] else t;
      var sgn := if t != [] && t[0] == '-' then -1 else 1;
      u != [] && IsDigit(u[0]) && !(|u| >= 2 && u[0] == '0' && (u[1] == 'x' || u[1] == 'X')) ==>
        r == Some(sgn * DecimalValue(DigitPrefix(u)))
    ensures var t := TrimStart(s);
      var u := if t != [] && (t[0] == '-' || t[0] == '+') then t[1..] else t;
      u == [] || !IsDigit(u[0]) ==> r.None?
    ensures var t := TrimStart(s);
      var u := if t != [] && (t[0] == '-' || t[0] == '+') then t[1..] else t;
      var sgn := if t != [] && t[0] == '-' then -1 else 1;
      |u| >= 2 && u[0] == '0' && (u[1] == 'x' || u[1] == 'X') ==>
        r == (if HexPrefix(u[2..]) == [] then None else Some(sgn * HexValue(HexPrefix(u[2..]))))
    ensures var t := TrimStart(s);
      r.Some? && t[0] == '-' ==> r.value <= 0
  {
    var t := TrimStart(s);
    var negative := t != [] && t[0] == '-';
    var u := if t != [] && (t[0] == '-' || t[0] == '+') then t[1..] else t;
    match ParseUnsigned(u)
    case None => None
    case Some(m) => Some(if negative then -(m as int) else m)
  }

  /** The digits after the sign: hexadecimal after "0x"/"0X", decimal otherwise. */
  function ParseUnsigned(u: string): Option<nat>
  {
    if |u| >= 2 && u[0] == '0' && (u[1] == 'x' || u[1] == 'X') then
      var h := HexPrefix(u[2..]);
      if h == [] then None else Some(HexValue(h))
    else
      var d := DigitPrefix(u);
      if d == [] then None else Some(DecimalValue(d))
  }

  /** `String(i)` for an integer. */
  function IntToString(i: int): string
  {
    if i < 0 then "-" + NatToString(-i) else NatToString(i)
  }

  lemma {:induction false} DigitPrefixOfDigits(d: string, rest: string)
    requires AllDigits(d)
    requires rest == [] || !IsDigit(rest[0])
    ensures DigitPrefix(d + rest) == d
    decreases |d|
  {
    if d == [] {
      assert d + rest == rest;
    } else {
      assert (d + rest)[1..] == d[1..] + rest;
      DigitPrefixOfDigits(d[1..], rest);
    }
  }

  /**
   * `parseInt` reads back a rendered integer, whatever follows it, unless
   * what follows is another digit or the "x" that would make "0x" a hex prefix.
   */
  lemma ParseUnsignedOfNatToString(n: nat, rest: string)
    requires rest == [] || (!IsDigit(rest[0]) && rest[0] != 'x' && rest[0] != 'X')
    ensures ParseUnsigned(NatToString(n) + rest) == Some(n)
  {
    var digits := NatToString(n);
    var u := digits + rest;
    DigitPrefixOfDigits(digits, rest);
    DecimalValueOfNatToString(n);
    if |u| >= 2 && u[0] == '0' {
      assert |digits| == 1;
      assert u[1] == rest[0];
    }
  }

  lemma ParseIntOfIntToString(i: int, rest: string)
    requires rest == [] || (!IsDigit(rest[0]) && rest[0] != 'x' && rest[0] != 'X')
    ensures ParseInt(IntToString(i) + rest) == Some(i)
  {
    var n: nat := if i < 0 then -i else i;
    var u := NatToString(n) + rest;
    ParseUnsignedOfNatToString(n, rest);
    if i < 0 {
      ParseIntOfSigned(u, n);
      assert IntToString(i) == ['-'] + NatToString(n);
      assert (['-'] + NatToString(n)) + rest == ['-'] + u;
    } else {
      ParseIntOfUnsigned(u, n);
      assert IntToString(i) == NatToString(n);
    }
  }

  lemma ParseIntOfSigned(u: string, n: nat)
    requires ParseUnsigned(u) == Some(n)
    ensures ParseInt(['-'] + u) == Some(-(n as int))
  {
    var s := ['-'] + u;
    assert !IsJsSpace(s[0]);
    assert TrimStart(s) == s;
    assert s[1..] == u;
  }

  lemma ParseIntOfUnsigned(u: string, n: nat)
    requires u != [] && IsDigit(u[0])
    requires ParseUnsigned(u) == Some(n)
    ensures ParseInt(u) == Some(n)
  {
    assert !IsJsSpace(u[0]);
    assert TrimStart(u) == u;
  }
}
