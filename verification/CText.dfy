/** Zero-terminated text as byte strings, decimal numbers in it, and what the
    C library's atoi/atol/atoll read from it. */
module CText {
  import opened CommonTypes

  const ZERO: byte := 48   // '0'
  const MINUS: byte := 45  // '-'
  const PLUS: byte := 43   // '+'

  const INT64_MIN := -0x8000_0000_0000_0000
  const INT64_MAX := 0x7FFF_FFFF_FFFF_FFFF

  predicate IsDigit(b: byte) { ZERO <= b <= 57 }

  predicate IsSpace(b: byte) { b == 32 || 9 <= b <= 13 }

  /** The contents up to the first NUL. */
  function UpToNul(s: seq<byte>): (r: seq<byte>)
    ensures r <= s && 0 !in r
    ensures |r| < |s| ==> s[|r|] == 0
  {
    if s == [] || s[0] == 0 then [] else [s[0]] + UpToNul(s[1..])
  }

  function LeadingDigits(s: seq<byte>): (r: seq<byte>)
    ensures r <= s && forall k :: 0 <= k < |r| ==> IsDigit(r[k])
  {
    if s == [] || !IsDigit(s[0]) then [] else [s[0]] + LeadingDigits(s[1..])
  }

  /** The number a run of digits denotes. */
  function DigitsValue(s: seq<byte>): (n: nat)
    requires forall k :: 0 <= k < |s| ==> IsDigit(s[k])
  {
    if s == [] then 0 else assert IsDigit(s[|s| - 1]); 10 * DigitsValue(s[..|s| - 1]) + (s[|s| - 1] - ZERO)
  }

  function SkipSpaces(s: seq<byte>): (r: seq<byte>)
    ensures |r| <= |s|
  {
    if s != [] && IsSpace(s[0]) then SkipSpaces(s[1..]) else s
  }

  /** atoi, atol and atoll: spaces, a sign, then digits up to the first byte that
      is not one.  Values that do not fit the C type are undefined there; here
      they are the mathematical number. */
  function ParseInteger(s: seq<byte>): int {
    var t := SkipSpaces(s);
    if t != [] && t[0] == MINUS then 0 - DigitsValue(LeadingDigits(t[1..])) as int
    else if t != [] && t[0] == PLUS then DigitsValue(LeadingDigits(t[1..]))
    else DigitsValue(LeadingDigits(t))
  }

  // ------------------------------------------------------------ canonical text

  function Digits(n: nat): (s: seq<byte>)
    ensures s != [] && forall k :: 0 <= k < |s| ==> IsDigit(s[k])
  {
    if n < 10 then [ZERO + n] else Digits(n / 10) + [ZERO + n % 10]
  }

  function DecimalText(n: int): (s: seq<byte>) {
    if n < 0 then [MINUS] + Digits(-n) else Digits(n)
  }

  lemma {:induction false} DigitsRoundTrip(n: nat)
    ensures DigitsValue(Digits(n)) == n
    ensures Digits(n)[0] == ZERO ==> n == 0
  {
    if n < 10 {
      assert Digits(n)[..0] == [];
    } else {
      DigitsRoundTrip(n / 10);
      var s := Digits(n);
      assert s[..|s| - 1] == Digits(n / 10);
    }
  }

  lemma {:induction false} LeadingDigitsOfText(d: seq<byte>, rest: seq<byte>)
    requires forall k :: 0 <= k < |d| ==> IsDigit(d[k])
    requires rest != [] ==> !IsDigit(rest[0])
    ensures LeadingDigits(d + rest) == d
  {
    if d == [] {
      assert d + rest == rest;
    } else {
      assert (d + rest)[1..] == d[1..] + rest;
      LeadingDigitsOfText(d[1..], rest);
    }
  }

  /** Decimal text is invertible whatever non-digit (the terminating NUL, say)
      follows it, for every integer. */
  lemma {:induction false} DecimalRoundTrip(n: int, rest: seq<byte>)
    requires rest != [] ==> !IsDigit(rest[0])
    ensures ParseInteger(DecimalText(n) + rest) == n
  {
    var m := if n < 0 then -n else n;
    DigitsRoundTrip(m);
    ParseDigits(Digits(m), rest);
    assert ([MINUS] + Digits(m)) + rest == [MINUS] + (Digits(m) + rest);
  }

  lemma ParseDigits(d: seq<byte>, rest: seq<byte>)
    requires d != [] && forall k :: 0 <= k < |d| ==> IsDigit(d[k])
    requires rest != [] ==> !IsDigit(rest[0])
    ensures ParseInteger(d + rest) == DigitsValue(d)
    ensures ParseInteger([MINUS] + (d + rest)) == -(DigitsValue(d) as int)
  {
    LeadingDigitsOfText(d, rest);
    var t := d + rest;
    assert t[0] == d[0];
    NoSpaceInFront(t, d[0]);
    NoSpaceInFront([MINUS] + t, MINUS);
    assert ([MINUS] + t)[1..] == t;
  }

  lemma NoSpaceInFront(s: seq<byte>, b: byte)
    requires s != [] && s[0] == b && !IsSpace(b)
    ensures SkipSpaces(s) == s
  {
  }

  /** A number in text: behind spaces, tabs and line ends comes a sign or none, then digits,
      and it ends at the first byte that is not a digit. */
  lemma {:induction false} NumberInText(spaces: seq<byte>, d: seq<byte>, rest: seq<byte>)
    requires forall k | 0 <= k < |spaces| :: spaces[k] == 32 || 9 <= spaces[k] <= 13
    requires d != [] && forall k | 0 <= k < |d| :: 48 <= d[k] <= 57
    requires rest != [] ==> rest[0] < 48 || rest[0] > 57
    ensures forall k :: 0 <= k < |d| ==> IsDigit(d[k])
    ensures ParseInteger(spaces + (d + rest)) == ParseInteger(spaces + ([43] + (d + rest))) == DigitsValue(d)
    ensures ParseInteger(spaces + ([45] + (d + rest))) == -(DigitsValue(d) as int)
  {
    LeadingDigitsOfText(d, rest);
    var t := d + rest;
    assert t[0] == d[0];
    SpacesAreSkipped(spaces, t);
    SpacesAreSkipped(spaces, [43] + t);
    SpacesAreSkipped(spaces, [45] + t);
    assert ([43] + t)[1..] == t && ([45] + t)[1..] == t;
    hide SkipSpaces, LeadingDigits, DigitsValue;
  }

  lemma {:induction false} SpacesAreSkipped(spaces: seq<byte>, t: seq<byte>)
    requires forall k | 0 <= k < |spaces| :: spaces[k] == 32 || 9 <= spaces[k] <= 13
    requires t != [] && t[0] > 32
    ensures SkipSpaces(spaces + t) == t
  {
    if spaces == [] {
      assert spaces + t == t;
    } else {
      assert (spaces + t)[1..] == spaces[1..] + t;
      SpacesAreSkipped(spaces[1..], t);
    }
  }

  function Power10(k: nat): (p: nat)
    ensures p > 0
  {
    if k == 0 then 1 else 10 * Power10(k - 1)
  }

  lemma {:induction false} DigitsLength(n: nat, k: nat)
    requires k > 0
    ensures |Digits(n)| <= k <==> n < Power10(k)
  {
    if n < 10 || k == 1 {
      Power10AtLeast10(k);
      assert Power10(1) == 10;
    } else {
      DigitsLength(n / 10, k - 1);
    }
  }

  lemma {:induction false} Power10AtLeast10(k: nat)
    requires k > 0
    ensures Power10(k) >= 10
  {
    if k > 1 { Power10AtLeast10(k - 1); }
  }

  /** Every 64-bit integer prints in at most 20 characters. */
  lemma TextFitsBuffer(n: int)
    requires INT64_MIN <= n <= INT64_MAX
    ensures |DecimalText(n)| <= 20
  {
    assert Power10(19) == 10_000_000_000_000_000_000 by {
      assert Power10(5) == 100_000;
      assert Power10(10) == 10_000_000_000;
      assert Power10(15) == 1_000_000_000_000_000;
    }
    DigitsLength(if n < 0 then -n else n, 19);
  }

  lemma {:induction false} DigitsBound(s: seq<byte>)
    requires forall k :: 0 <= k < |s| ==> IsDigit(s[k])
    ensures DigitsValue(s) < Power10(|s|)
  {
    if s != [] {
      assert IsDigit(s[|s| - 1]);
      DigitsBound(s[..|s| - 1]);
    }
  }

  lemma {:induction false} Power10Grows(a: nat, b: nat)
    requires a <= b
    ensures Power10(a) <= Power10(b)
  {
    if a < b {
      Power10Grows(a, b - 1);
    }
  }

  /** Text of k characters stays below 10^k, and is negative only behind spaces or a minus. */
  lemma TextBound(s: seq<byte>, k: nat)
    requires |s| <= k
    ensures -(Power10(k) as int) < ParseInteger(s) < Power10(k)
    ensures ParseInteger(s) < 0 ==> s != [] && (IsSpace(s[0]) || s[0] == MINUS)
  {
    var t := SkipSpaces(s);
    var d := LeadingDigits(if t != [] && (t[0] == MINUS || t[0] == PLUS) then t[1..] else t);
    DigitsBound(d);
    Power10Grows(|d|, k);
  }
}
