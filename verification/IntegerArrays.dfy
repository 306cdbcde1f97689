/** Conversion between 64-bit integers and byte arrays, most significant byte
    first, as the security object stores its numbers. */
module IntegerArrays {
  import opened Arithmetic
  import opened CommonTypes
  import opened CText

  /** The int64_t with these 64 bits. */
  function Signed(n: int): (r: int)
    ensures INT64_MIN <= r <= INT64_MAX
    ensures INT64_MIN <= n <= INT64_MAX ==> r == n
    ensures (r - n) % TWO_TO_THE_64 == 0
  {
    var m := n % TWO_TO_THE_64;
    if m > INT64_MAX then m - TWO_TO_THE_64 else m
  }

  /** The number of bytes convert_integer_to_array allots. */
  function SizeFor(value: int): (size: nat)
    ensures 1 <= size <= 8
  {
    if value < 0xFF then 1
    else if value < 0xFFFF then 2
    else if value < 0xFF_FFFF then 3
    else if value < 0xFFFF_FFFF then 4
    else if value < 0xFF_FFFF_FFFF then 5
    else if value < 0xFFFF_FFFF_FFFF then 6
    else if value < 0xFF_FFFF_FFFF_FFFF then 7
    else 8
  }

  /** The size is enough for every number that is not negative, and one byte more than
      needed exactly for the numbers whose bytes are all 0xFF, other than the longest. */
  lemma SizeIsNearlyMinimal(value: int)
    requires 0 <= value <= INT64_MAX
    ensures value < Power256(SizeFor(value))
    ensures forall k | 1 <= k < SizeFor(value) :: value < Power256(k) ==> k == SizeFor(value) - 1
    ensures forall k | 1 <= k < 8 :: value == Power256(k) - 1 <==> k < SizeFor(value) && value < Power256(k)
  {
    Powers();
    forall k | 1 <= k < 8
      ensures value < Power256(k) && k < SizeFor(value) ==> k == SizeFor(value) - 1
      ensures value == Power256(k) - 1 <==> k < SizeFor(value) && value < Power256(k)
    {
      assert k in {1, 2, 3, 4, 5, 6, 7};
    }
  }

  /** Writing a number and reading it back returns it exactly if it is not negative. */
  lemma IntegerArrayRoundTrip(value: int)
    requires INT64_MIN <= value <= INT64_MAX
    ensures Signed(BigEndian(ToBigEndian(value % TWO_TO_THE_64, SizeFor(value)))) == value <==> value >= 0
  {
    Powers();
    BigEndianRoundTrip(value % TWO_TO_THE_64, SizeFor(value));
    if value >= 0 {
      SizeIsNearlyMinimal(value);
    } else {
      assert BigEndian(ToBigEndian(value % TWO_TO_THE_64, 1)) == value % TWO_TO_THE_64 % 0x100;
    }
  }

  /** Of a negative number only the last byte is stored. */
  lemma NegativeIsCutToOneByte(value: int)
    requires value < 0
    ensures ToBigEndian(value % TWO_TO_THE_64, SizeFor(value)) == [value % 0x100]
  {
    var n := value % TWO_TO_THE_64;
    assert ToBigEndian(n, 1) == ToBigEndian(n / 256, 0) + [n % 256];
    assert n % 256 == value % 0x100;
  }

  /** So M2MSecurity keeps every number: storing a uint32_t and reading it as one is
      the identity. */
  lemma SecurityNumberRoundTrip(value: int)
    requires 0 <= value < 0x1_0000_0000
    ensures Signed(BigEndian(ToBigEndian(value, SizeFor(value)))) % 0x1_0000_0000 == value
  {
    hide BigEndian, ToBigEndian, Power256, SizeFor, Signed;
    IntegerArrayRoundTrip(value);
    assert value % TWO_TO_THE_64 == value;
  }

  // -------------------------------------------------------------- the loops

  /** Sum the bytes, each shifted to its place, modulo 2^64.  Shifting by 64 bits or
      more is undefined, so the array has at most eight bytes. */
  method ConvertArrayToInteger(value: array<byte>, size: nat) returns (n: int)
    requires size <= value.Length && size <= 8
    ensures n == Signed(BigEndian(value[..size]))
  {
    n := 0;
    var i, at := size, 0;
    while i > 0
      invariant i + at == size
      invariant n == Signed(BigEndian(value[..at]) * Power256(i))
    {
      i := i - 1;
      ghost var sum := BigEndian(value[..at]) * Power256(i + 1);
      BigEndianGrows(value[..at], value[at]);
      assert value[..at + 1] == value[..at] + [value[at]];
      SumSigned(sum, value[at] * Power256(i));
      Factor(BigEndian(value[..at]), value[at], Power256(i));
      n := Signed(n + value[at] * Power256(i));
      at := at + 1;
    }
    assert BigEndian(value[..size]) * Power256(0) == BigEndian(value[..size]);
  }

  lemma BigEndianGrows(s: seq<byte>, b: byte)
    ensures BigEndian(s + [b]) == 256 * BigEndian(s) + b
  {
    assert (s + [b])[..|s|] == s;
  }

  lemma Factor(a: nat, b: nat, p: nat)
    ensures (256 * a + b) * p == a * (256 * p) + b * p
  {
  }

  lemma SumSigned(a: int, b: int)
    ensures Signed(Signed(a) + b) == Signed(a + b)
  {
  }

  /** Shift each byte of the value down to its place.  Given an array, the value is
      read from there first. */
  method ConvertIntegerToArray(value: int, array_: array?<byte>, arraySize: nat) returns (buffer: array<byte>, size: nat)
    requires INT64_MIN <= value <= INT64_MAX
    requires array_ != null ==> arraySize <= array_.Length && arraySize <= 8
    ensures fresh(buffer) && buffer.Length == size
    ensures var v := if array_ == null then value else Signed(BigEndian(array_[..arraySize]));
      size == SizeFor(v) && buffer[..] == ToBigEndian(v % TWO_TO_THE_64, size)
  {
    var v := value;
    if array_ != null {
      v := ConvertArrayToInteger(array_, arraySize);
    }
    size := SizeFor(v);
    buffer := new byte[size];
    for i := 0 to size
      invariant buffer[..i] == ToBigEndian(v % TWO_TO_THE_64, size)[..i]
    {
      ShiftedByte(v, size, i);
      buffer[i] := v / Power256(size - i - 1) % 0x100;
      assert buffer[..i + 1] == buffer[..i] + [buffer[i]];
    }
    assert buffer[..] == buffer[..size];
  }

  /** For a negative number the shift extends the sign; the bytes are those of its
      two's complement. */
  lemma ShiftedByte(v: int, size: nat, i: nat)
    requires i < size <= 8
    ensures ToBigEndian(v % TWO_TO_THE_64, size)[i] == v / Power256(size - i - 1) % 0x100
  {
    var n, q, k := v % TWO_TO_THE_64, v / TWO_TO_THE_64, size - i - 1;
    ByteAt(n, size, i);
    Powers();
    PowersAdd(k, 8 - k);
    hide Power256;
    HighBitsDropOut(v, q, n, Power256(k), Power256(7 - k)) by {
      assert Power256(8 - k) == 256 * Power256(7 - k) by { NextPower(7 - k); }
    }
  }

  /** Whole multiples of 256 p do not reach the byte at p. */
  lemma HighBitsDropOut(v: int, q: int, n: nat, p: nat, r: nat)
    requires p > 0 && v == p * (256 * r) * q + n
    ensures v / p % 256 == n / p % 256
  {
    var c := n / p;
    assert n == p * c + n % p;
    Collect(p, r, q, c);
    ModUnique(v, p, 256 * (r * q) + c, n % p);
    assert 256 * (r * q) + c == 256 * (r * q + c / 256) + c % 256;
    ModUnique(256 * (r * q) + c, 256, r * q + c / 256, c % 256);
  }

  lemma Collect(p: int, r: int, q: int, c: int)
    ensures p * (256 * r) * q + p * c == p * (256 * (r * q) + c)
  {
    assert 256 * r * q == 256 * (r * q);
    assert p * (256 * r) * q == p * (256 * r * q);
  }
}
