/**
 * The few JavaScript string and number routines the services rely on:
 * `Number.prototype.toString` for integers, `String.prototype.padStart`,
 * `String.prototype.split` with a one-character separator and the global
 * `parseInt` without a radix argument.
 */
module Text {
  import opened Wrappers

  // ---------------------------------------------------------------------
  // Digits in a radix (10, or 16 after a "0x" prefix in parseInt)
  // ---------------------------------------------------------------------

  /** The value of `c` as a digit of `radix`, if it is one (letters in either case). */
  function DigitIn(c: char, radix: nat): (r: Option<nat>)
    ensures r.Some? ==> r.value < radix
  {
    var v: int :=
      if '0' <= c <= '9' then c as int - '0' as int
      else if 'a' <= c <= 'z' then c as int - 'a' as int + 10
      else if 'A' <= c <= 'Z' then c as int - 'A' as int + 10
      else radix;
    if 0 <= v < radix then Some(v) else None
  }

  predicate AllDigitsIn(s: string, radix: nat) {
    forall i :: 0 <= i < |s| ==> DigitIn(s[i], radix).Some?
  }

  /** The value of a string of digits, most significant first. */
  function Value(s: string, radix: nat): nat
    requires AllDigitsIn(s, radix)
  {
    if s == [] then 0
    else Value(s[..|s| - 1], radix) * radix + DigitIn(s[|s| - 1], radix).value
  }

  /** The longest prefix of `s` made of digits of `radix`. */
  function LeadingDigits(s: string, radix: nat): (r: string)
    ensures |r| <= |s| && r == s[..|r|]
    ensures AllDigitsIn(r, radix)
    ensures |r| < |s| ==> DigitIn(s[|r|], radix).None?
  {
    if s == [] || DigitIn(s[0], radix).None? then []
    else [s[0]] + LeadingDigits(s[1..], radix)
  }

  function DigitChar(d: nat): (c: char)
    requires d < 10
    ensures DigitIn(c, 10) == Some(d)
  {
    (d + '0' as int) as char
  }

  /** Decimal rendering of a natural number, without leading zeros. */
  function Digits(n: nat): (s: string)
    ensures |s| >= 1 && AllDigitsIn(s, 10)
    ensures forall i :: 0 <= i < |s| ==> s[i] != '-' && s[i] != ' '
    decreases n
  {
    if n < 10 then [DigitChar(n)] else Digits(n / 10) + [DigitChar(n % 10)]
  }

  /** `Number.prototype.toString()` on an integer. */
  function IntToString(n: int): (r: string)
    ensures r != [] && ('-' in r <==> n < 0)
  {
    if n < 0 then "-" + Digits(-n) else Digits(n)
  }

  lemma {:induction false} ValueOfDigits(n: nat)
    ensures Value(Digits(n), 10) == n
    decreases n
  {
    if n >= 10 {
      var d := Digits(n / 10);
      ValueOfDigits(n / 10);
      assert (d + [DigitChar(n % 10)])[..|d|] == d;
    }
  }

  lemma {:induction false} ValueOfZeros(z: string)
    requires forall i :: 0 <= i < |z| ==> z[i] == '0'
    ensures AllDigitsIn(z, 10) && Value(z, 10) == 0
  {
    if z != [] {
      ValueOfZeros(z[..|z| - 1]);
    }
  }

  /** Leading zeros do not change the value of a decimal string. */
  lemma {:induction false} ValueIgnoresLeadingZeros(z: string, s: string)
    requires forall i :: 0 <= i < |z| ==> z[i] == '0'
    requires AllDigitsIn(s, 10)
    ensures AllDigitsIn(z + s, 10) && Value(z + s, 10) == Value(s, 10)
    decreases |s|
  {
    ValueOfZeros(z);
    if s == [] {
      assert z + s == z;
    } else {
      var init := s[..|s| - 1];
      ValueIgnoresLeadingZeros(z, init);
      assert (z + s)[..|z + s| - 1] == z + init;
    }
  }

  lemma {:induction false} LeadingDigitsOfDigits(s: string, radix: nat)
    requires AllDigitsIn(s, radix)
    ensures LeadingDigits(s, radix) == s
  {
    if s != [] {
      LeadingDigitsOfDigits(s[1..], radix);
    }
  }

  // ---------------------------------------------------------------------
  // parseInt
  // ---------------------------------------------------------------------

  /** The characters ECMAScript's StrWhiteSpaceChar production accepts. */
  predicate IsJsWhitespace(c: char) {
    c == ' ' || c == '\t' || c == '\n' || c == '\r' || c == '\U{000B}' || c == '\U{000C}'
    || c == '\U{00A0}' || c == '\U{FEFF}' || c == '\U{1680}' || ('\U{2000}' <= c <= '\U{200A}')
    || c == '\U{2028}' || c == '\U{2029}' || c == '\U{202F}' || c == '\U{205F}' || c == '\U{3000}'
  }

  function TrimStart(s: string): (r: string)
    ensures |r| <= |s| && r == s[|s| - |r|..]
    ensures r != [] ==> !IsJsWhitespace(r[0])
  {
    if s != [] && IsJsWhitespace(s[0]) then TrimStart(s[1..]) else s
  }

  /**
   * Global `parseInt(s)` with no radix: leading white space is skipped, an
   * optional sign is read, then the digits are read as `ParseUnsigned` says;
   * `None` stands for NaN.
   */
  function ParseInt(s: string): (r: Option<int>)
    ensures r.Some? && r.value < 0 ==> '-' in s
  {
    var t := TrimStart(s);
    var negative := t != [] && t[0] == '-';
    var u := if t != [] && (t[0] == '-' || t[0] == '+') then t[1..] else t;
    match ParseUnsigned(u)
    case None => None
    case Some(m) =>
      var v: int := if negative then 0 - m as int else m;
      Some(v)
  }

  /**
   * The unsigned part of `parseInt`: a "0x"/"0X" prefix switches to radix
   * 16, and the longest run of digits that follows is the value; `None`
   * when there is no digit at all.
   */
  function ParseUnsigned(u: string): (r: Option<nat>)
  {
    var hex := |u| >= 2 && u[0] == '0' && (u[1] == 'x' || u[1] == 'X');
    var radix := if hex then 16 else 10;
    var digits := LeadingDigits(if hex then u[2..] else u, radix);
    if digits == [] then None else Some(Value(digits, radix))
  }

  lemma ParseUnsignedDecimal(p: string)
    requires p != [] && AllDigitsIn(p, 10)
    ensures ParseUnsigned(p) == Some(Value(p, 10))
  {
    assert DigitIn(p[0], 10).Some?;
    assert |p| >= 2 ==> DigitIn(p[1], 10).Some?;
    LeadingDigitsOfDigits(p, 10);
  }

  lemma TrimStartOfDigits(p: string)
    requires p != [] && AllDigitsIn(p, 10)
    ensures TrimStart(p) == p && '0' <= p[0] <= '9'
  {
    assert DigitIn(p[0], 10).Some?;
    assert '0' <= p[0] <= '9';
    assert !IsJsWhitespace(p[0]);
  }

  /** A non-empty string of decimal digits parses to its value. */
  lemma ParseDecimalString(p: string)
    requires p != [] && AllDigitsIn(p, 10)
    ensures ParseInt(p) == Some(Value(p, 10))
  {
    TrimStartOfDigits(p);
    ParseUnsignedDecimal(p);
  }

  // ---------------------------------------------------------------------
  // padStart
  // ---------------------------------------------------------------------

  /** `s.padStart(width, fill)` for a one-character fill string. */
  function PadStart(s: string, width: nat, fill: char): (r: string)
    ensures |r| == if |s| >= width then |s| else width
    ensures r[|r| - |s|..] == s
    ensures forall i :: 0 <= i < |r| - |s| ==> r[i] == fill
  {
    if |s| >= width then s else seq(width - |s|, _ => fill) + s
  }

  /** Parsing a zero-padded rendering of `n` gives `n` back. */
  lemma ParsePaddedDigits(n: nat, width: nat)
    ensures ParseInt(PadStart(Digits(n), width, '0')) == Some(n)
  {
    var d := Digits(n);
    var p := PadStart(d, width, '0');
    var z := p[..|p| - |d|];
    assert p == z + d;
    ValueIgnoresLeadingZeros(z, d);
    ParseDecimalString(p);
    ValueOfDigits(n);
  }

  // ---------------------------------------------------------------------
  // split
  // ---------------------------------------------------------------------

  /** `s.split(sep)` for a one-character separator: never empty, keeps empty fields. */
  function Split(s: string, sep: char): (r: seq<string>)
    ensures |r| >= 1
    ensures forall k :: 0 <= k < |r| ==> sep !in r[k]
  {
    if s == [] then [""]
    else if s[0] == sep then [""] + Split(s[1..], sep)
    else
      var rest := Split(s[1..], sep);
      [[s[0]] + rest[0]] + rest[1..]
  }

  lemma {:induction false} SplitWithoutSeparator(s: string, sep: char)
    requires sep !in s
    ensures Split(s, sep) == [s]
  {
    if s != [] {
      SplitWithoutSeparator(s[1..], sep);
      assert [s[0]] + s[1..] == s;
    }
  }

  /** The first field of `a + [sep] + b` is `a` when `a` has no separator. */
  lemma {:induction false} SplitAtFirst(a: string, sep: char, b: string)
    requires sep !in a
    ensures Split(a + [sep] + b, sep) == [a] + Split(b, sep)
  {
    if a == [] {
      assert a + [sep] + b == [sep] + b;
    } else {
      assert (a + [sep] + b)[1..] == a[1..] + [sep] + b;
      SplitAtFirst(a[1..], sep, b);
      assert [a[0]] + a[1..] == a;
    }
  }

  /** The first field is the separator-free prefix of `s` up to its first separator. */
  lemma {:induction false} SplitFirstField(s: string, sep: char)
    ensures var f := Split(s, sep)[0];
      && sep !in f
      && f <= s
      && (|Split(s, sep)| > 1 <==> sep in s)
      && (|Split(s, sep)| > 1 ==> s[|f|] == sep)
  {
    if s != [] && s[0] != sep {
      SplitFirstField(s[1..], sep);
      assert s == [s[0]] + s[1..];
    }
  }
}
