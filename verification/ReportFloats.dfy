/** An int32_t that was saved in a float comes back as the float nearest to it. */
module ReportFloats {
  import opened ReportSemantics

  function Power2(e: nat): (p: nat)
    ensures p > 0
  {
    if e == 0 then 1 else 2 * Power2(e - 1)
  }

  function Distance(a: int, b: int): nat { if a < b then b - a else a - b }

  /** Floats near m are a power of two apart, with a significand of 24 bits. */
  lemma {:induction false} SpacingIsPower(m: nat) returns (e: nat)
    ensures Spacing(m) == Power2(e)
    ensures m < 0x100_0000 * Spacing(m)
    ensures m >= 0x100_0000 ==> e > 0 && 0x80_0000 * Spacing(m) <= m
  {
    if m < 0x100_0000 {
      e := 0;
    } else {
      var d := SpacingIsPower(m / 2);
      e := d + 1;
    }
  }

  lemma MultiplesApart(q: nat, u: nat, j: nat)
    ensures j <= q ==> j * u <= q * u
    ensures j > q ==> j * u >= q * u + u
  {
    if j <= q {
      assert (q - j) * u >= 0;
      assert q * u == j * u + (q - j) * u;
    } else {
      assert (j - q - 1) * u >= 0;
      assert j * u == (q + 1) * u + (j - q - 1) * u;
    }
  }

  /** The multiple of the spacing that is chosen, by its significand n. */
  lemma NearestSignificand(m: nat) returns (n: nat)
    ensures Nearest(m) == n * Spacing(m) && m / Spacing(m) <= n <= m / Spacing(m) + 1
    ensures 2 * Distance(m, n * Spacing(m)) <= Spacing(m)
    ensures 2 * Distance(m, n * Spacing(m)) == Spacing(m) ==> n % 2 == 0
  {
    var u := Spacing(m);
    var q, r := m / u, m % u;
    hide Spacing;
    Parts(m, u);
    if 2 * r < u || (2 * r == u && q % 2 == 0) {
      n := q;
      assert Nearest(m) == q * u;
      hide Nearest;
    } else {
      n := q + 1;
      assert Nearest(m) == (q + 1) * u;
      hide Nearest;
    }
  }

  lemma Parts(m: nat, u: nat)
    requires u > 0
    ensures m == m / u * u + m % u && (m / u + 1) * u == m / u * u + u && m % u < u
  {
  }

  /** No multiple of the spacing is nearer. */
  lemma NearestMultiple(m: nat, j: nat)
    ensures Distance(m, Nearest(m)) <= Distance(m, j * Spacing(m))
  {
    var n := NearestSignificand(m);
    var u := Spacing(m);
    hide Spacing, Nearest;
    MultiplesApart(n, u, j);
    if j < n {
      MultiplesApart(j, u, n);
    }
  }

  lemma {:induction false} PowersMultiply(a: nat, b: nat)
    ensures Power2(a + b) == Power2(a) * Power2(b)
  {
    if b > 0 {
      PowersMultiply(a, b - 1);
    }
  }

  /** Of all floats k * 2^e none is nearer to m than the one chosen. */
  lemma NearestIsNearest(m: nat, k: nat, e: nat)
    requires k < 0x100_0000
    ensures Distance(m, Nearest(m)) <= Distance(m, k * Power2(e))
  {
    var f := SpacingIsPower(m);
    var u := Spacing(m);
    hide Spacing, Nearest, Power2;
    if e >= f {
      PowersMultiply(f, e - f);
      Regroup(k, Power2(e - f), u);
      NearestMultiple(m, k * Power2(e - f));
    } else {
      assert Power2(f - e) >= 2 by { PowerIsEven(f - e); }
      PowersMultiply(e, f - e);
      AtLeastDouble(Power2(e), Power2(f - e), k);
      NearestMultiple(m, 0x80_0000);
    }
  }

  lemma Regroup(k: nat, p: nat, u: nat)
    ensures k * (u * p) == (k * p) * u
  {
  }

  lemma PowerIsEven(e: nat)
    requires e > 0
    ensures Power2(e) >= 2
  {
  }

  lemma AtLeastDouble(p: nat, q: nat, k: nat)
    requires p > 0 && q >= 2 && k < 0x100_0000
    ensures k * p < 0x80_0000 * (p * q)
  {
    assert k * p < 0x100_0000 * p;
    assert p * q >= p * 2;
  }

  /** And it is a float itself. */
  lemma NearestIsFloat(m: nat) returns (k: nat, e: nat)
    ensures k <= 0x100_0000 && Nearest(m) == k * Power2(e)
  {
    e := SpacingIsPower(m);
    k := NearestSignificand(m);
    var u := Spacing(m);
    hide Spacing, Nearest, Power2;
    BelowLimit(m, u);
  }

  lemma BelowLimit(m: nat, u: nat)
    requires u > 0 && m < 0x100_0000 * u
    ensures m / u < 0x100_0000
  {
    Parts(m, u);
    MultiplesApart(m / u, u, 0x100_0000);
  }
}
