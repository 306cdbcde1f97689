/** Division and remainder, and numbers written in base 256. */
module Arithmetic {
  import opened CommonTypes

  lemma ModStep(n: nat, m: nat)
    requires m > 0
    ensures 256 * (n / 256 % m) + n % 256 == n % (256 * m)
    ensures n / 256 / m == n / (256 * m)
  {
    var q, r := n / 256, n % 256;
    var a, b := q / m, q % m;
    assert n == 256 * q + r == 256 * (m * a + b) + r;
    assert n == (256 * m) * a + (256 * b + r);
    assert 0 <= 256 * b + r < 256 * m;
    ModUnique(n, 256 * m, a, 256 * b + r);
  }

  lemma ModUnique(n: int, d: int, q: int, r: int)
    requires d > 0 && 0 <= r < d && n == d * q + r
    ensures n / d == q && n % d == r
  {
    var k := q - n / d;
    assert d * k == n % d - r by {
      assert n == d * (n / d) + n % d;
      assert d * k == d * q - d * (n / d);
    }
    if k >= 1 {
      AtLeastOnce(d, k);
    } else if k <= -1 {
      AtLeastOnce(d, -k);
    }
  }

  lemma StepModulo(n: nat, d: nat)
    requires d > 0
    ensures (n + 1) % d == if n % d == d - 1 then 0 else n % d + 1
  {
    var q := n / d;
    assert n == d * q + n % d;
    if n % d == d - 1 {
      assert n + 1 == d * (q + 1);
      ModUnique(n + 1, d, q + 1, 0);
    } else {
      ModUnique(n + 1, d, q, n % d + 1);
    }
  }

  lemma AtLeastOnce(d: int, k: int)
    requires d > 0 && k >= 1
    ensures d * k >= d
  {
  }

  lemma ModBelow(n: nat, d: nat)
    requires d > 0
    ensures n % d == n <==> n < d
  {
  }

  // --------------------------------------------------------------- big-endian

  /** The number a byte string denotes, most significant byte first. */
  function BigEndian(s: seq<byte>): (n: nat) {
    if s == [] then 0 else 256 * BigEndian(s[..|s| - 1]) + s[|s| - 1]
  }

  /** The low `size` bytes of n, most significant first. */
  function ToBigEndian(n: nat, size: nat): (s: seq<byte>)
    ensures |s| == size
  {
    if size == 0 then [] else ToBigEndian(n / 256, size - 1) + [n % 256]
  }

  function Power256(k: nat): (p: nat)
    ensures p > 0
  {
    if k == 0 then 1 else 256 * Power256(k - 1)
  }

  /** Reading back `size` big-endian bytes of n recovers n modulo 256^size, so
      exactly the numbers below 256^size survive. */
  lemma {:induction false} BigEndianRoundTrip(n: nat, size: nat)
    ensures BigEndian(ToBigEndian(n, size)) == n % Power256(size)
    ensures BigEndian(ToBigEndian(n, size)) == n <==> n < Power256(size)
  {
    if size == 0 {
    } else {
      BigEndianRoundTrip(n / 256, size - 1);
      var s := ToBigEndian(n, size);
      assert s[..|s| - 1] == ToBigEndian(n / 256, size - 1);
      ModStep(n, Power256(size - 1));
      ModBelow(n, Power256(size));
    }
  }

  lemma PowerValues()
    ensures Power256(0) == 1 && Power256(1) == 0x100 && Power256(2) == 0x1_0000 && Power256(3) == 0x100_0000
  {
    assert Power256(1) == 256 * Power256(0);
    assert Power256(2) == 256 * Power256(1);
    assert Power256(3) == 256 * Power256(2);
  }

  lemma Powers()
    ensures Power256(0) == 1 && Power256(1) == 0x100 && Power256(2) == 0x1_0000 && Power256(3) == 0x100_0000
    ensures Power256(4) == 0x1_0000_0000 && Power256(5) == 0x100_0000_0000 && Power256(6) == 0x1_0000_0000_0000
    ensures Power256(7) == 0x100_0000_0000_0000 && Power256(8) == TWO_TO_THE_64
  {
    PowerValues();
    assert Power256(4) == 256 * Power256(3);
    assert Power256(5) == 256 * Power256(4);
    assert Power256(6) == 256 * Power256(5);
    assert Power256(7) == 256 * Power256(6);
    assert Power256(8) == 256 * Power256(7);
  }

  lemma NextPower(k: nat)
    ensures Power256(k + 1) == 256 * Power256(k)
  {
  }

  lemma {:induction false} PowersAdd(a: nat, b: nat)
    ensures Power256(a) * Power256(b) == Power256(a + b)
  {
    if a == 0 {
    } else {
      PowersAdd(a - 1, b);
      assert Power256(a) * Power256(b) == 256 * (Power256(a - 1) * Power256(b));
    }
  }

  /** Byte i of the low `size` bytes of a number, read by shifting. */
  lemma {:induction false} ByteAt(n: nat, size: nat, i: nat)
    requires i < size
    ensures ToBigEndian(n, size)[i] == n / Power256(size - i - 1) % 0x100
  {
    if i == size - 1 {
      assert n / Power256(0) == n;
    } else {
      ByteAt(n / 256, size - 1, i);
      ModStep(n, Power256(size - i - 2));
    }
  }
}
