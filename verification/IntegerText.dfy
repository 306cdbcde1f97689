/** itoa_c, which prints a 64-bit integer by writing its digits backwards and
    reversing them in place, and what is read back from its text. */
module IntegerText {
  import opened CommonTypes
  import opened CText

  /** Unary minus on int64_t, on a machine where it wraps. */
  function Negated(n: int): int { if n == INT64_MIN then n else -n }

  /** The % and / of C, which truncate toward zero. */
  function CRemainder(n: int, d: int): int
    requires d > 0
  {
    if n < 0 then -(-n % d) else n % d
  }

  function CQuotient(n: int, d: int): int
    requires d > 0
  {
    if n < 0 then -(-n / d) else n / d
  }

  const LEFT_PARENTHESIS: byte := 40

  /** What itoa_c writes: decimal text, except that the smallest integer has no
      negative and leaves a character below '0'. */
  function Printed(n: int): (s: seq<byte>) {
    if n == INT64_MIN then [MINUS, LEFT_PARENTHESIS] else DecimalText(n)
  }

  /** Printing fits the 20 characters its callers reserve, and reading the text back,
      whatever non-digit follows it, gives the number exactly if it is not the smallest. */
  lemma PrintingIsInvertible(n: int, rest: seq<byte>)
    requires INT64_MIN <= n <= INT64_MAX
    requires rest != [] ==> !IsDigit(rest[0])
    ensures |Printed(n)| <= 20
    ensures ParseInteger(Printed(n) + rest) == n <==> n != INT64_MIN
  {
    TextFitsBuffer(n);
    if n == INT64_MIN {
      var t := Printed(n) + rest;
      NoSpaceInFront(t, MINUS);
      assert t[1..][0] == LEFT_PARENTHESIS;
    } else {
      DecimalRoundTrip(n, rest);
    }
  }

  function Reversed(s: seq<byte>): (r: seq<byte>)
    ensures |r| == |s| && forall k :: 0 <= k < |s| ==> r[k] == s[|s| - 1 - k]
  {
    seq(|s|, k requires 0 <= k < |s| => s[|s| - 1 - k])
  }

  lemma ReversedGrows(s: seq<byte>, b: byte)
    ensures Reversed(s + [b]) == [b] + Reversed(s)
  {
  }

  method Reverse(s: array<byte>, length: nat)
    requires 1 <= length <= s.Length
    modifies s
    ensures s[..length] == Reversed(old(s[..length]))
    ensures forall k :: length <= k < s.Length ==> s[k] == old(s[k])
  {
    var i, j := 0, length - 1;
    while i < j
      invariant i + j == length - 1 && i <= j + 1
      invariant forall k :: 0 <= k < i || j < k < length ==> s[k] == old(s[length - 1 - k])
      invariant forall k :: i <= k <= j || length <= k < s.Length ==> s[k] == old(s[k])
    {
      s[i], s[j] := s[j], s[i];
      i := i + 1;
      j := j - 1;
    }
  }

  /** What the digit loop writes, backwards. */
  function DigitsOf(m: int): (d: seq<byte>)
    requires m >= 0 || m == INT64_MIN
    ensures d != []
  {
    if m < 0 then [LEFT_PARENTHESIS] else Digits(m)
  }

  lemma SignAndDigits(n: int)
    ensures var m := if n < 0 then Negated(n) else n;
      && (m >= 0 || m == INT64_MIN)
      && Printed(n) == if n < 0 then [MINUS] + DigitsOf(m) else DigitsOf(m)
  {
  }

  /** The text, its length and a terminating NUL; nothing behind the NUL is touched. */
  method ItoaC(n: int, s: array<byte>) returns (i: nat)
    requires INT64_MIN <= n <= INT64_MAX && |Printed(n)| < s.Length
    modifies s
    ensures i == |Printed(n)| && s[..i] == Printed(n) && s[i] == 0
    ensures forall k :: i < k < s.Length ==> s[k] == old(s[k])
  {
    hide DigitsOf, Printed, Negated;
    SignAndDigits(n);
    var m := if n < 0 then Negated(n) else n;
    i := WriteDigits(m, s);
    ghost var digits := s[..i];
    if n < 0 {
      s[i] := MINUS;
      i := i + 1;
      ReversedGrows(digits, MINUS);
      assert s[..i] == digits + [MINUS];
    }
    s[i] := 0;
    Reverse(s, i);
  }

  lemma NextDigit(m: int)
    requires m >= 0 || m == INT64_MIN
    ensures 0 <= CRemainder(m, 10) + ZERO <= 0xFF
    ensures var d, q := CRemainder(m, 10) + ZERO, CQuotient(m, 10);
      DigitsOf(m) == if q > 0 then DigitsOf(q) + [d] else [d]
  {
  }

  method WriteDigits(n: int, s: array<byte>) returns (i: nat)
    requires n >= 0 || n == INT64_MIN
    requires |DigitsOf(n)| <= s.Length
    modifies s
    ensures i == |DigitsOf(n)| && Reversed(s[..i]) == DigitsOf(n)
    ensures forall k :: i <= k < s.Length ==> s[k] == old(s[k])
  {
    hide DigitsOf, CQuotient, CRemainder;
    i := 0;
    var m, more := n, true;
    while more
      invariant more ==> m >= 0 || m == INT64_MIN
      invariant i <= s.Length
      invariant DigitsOf(n) == (if more then DigitsOf(m) else []) + Reversed(s[..i])
      invariant forall k :: i <= k < s.Length ==> s[k] == old(s[k])
      decreases more, if m < 0 then 0 else m
    {
      NextDigit(m);
      QuotientShrinks(m);
      ghost var before := s[..i];
      var digit := CRemainder(m, 10) + ZERO;
      s[i] := digit;
      i := i + 1;
      ReversedGrows(before, digit);
      assert s[..i] == before + [digit];
      m := CQuotient(m, 10);
      more := m > 0;
      Regroup(if more then DigitsOf(m) else [], [digit], Reversed(before));
    }
    assert [] + Reversed(s[..i]) == Reversed(s[..i]);
  }

  lemma Regroup(a: seq<byte>, b: seq<byte>, c: seq<byte>)
    ensures a + (b + c) == (a + b) + c
  {
  }

  lemma QuotientShrinks(m: int)
    ensures CQuotient(m, 10) > 0 ==> CQuotient(m, 10) < m
  {
  }

  /** M2MResourceBase::set_value(int64_t): what get_value_int later reads from the
      stored bytes and their terminating NUL is the value set, unless it is the smallest. */
  method SetIntegerValue(value: int) returns (stored: seq<byte>)
    requires INT64_MIN <= value <= INT64_MAX
    ensures ParseInteger(stored + [0]) == value <==> value != INT64_MIN
    ensures value != INT64_MIN ==> stored == DecimalText(value)
  {
    PrintingIsInvertible(value, [0]);
    var buffer := new byte[20 + 1];
    var size := ItoaC(value, buffer);
    stored := buffer[..size];
  }
}
