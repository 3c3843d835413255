/** Python's integer bit operations. Python integers are unbounded and its
    `&`, `|`, `~` and `>>` act on their infinite two's-complement form;
    these functions define exactly that, by recursion on the floor halves of
    the operands (Dafny's `/` and `%` by a positive divisor are floor
    division and its never-negative remainder, as in Python). */
module Bits {

  function Abs(a: int): nat { if a < 0 then -a else a }

  function Pow2(k: nat): (r: nat)
    ensures r >= 1
  {
    if k == 0 then 1 else 2 * Pow2(k - 1)
  }

  /** Python's `~a`. */
  function BitNot(a: int): int { -a - 1 }

  /** Python's `a >> k`: floor division by 2^k. */
  function ShiftRight(a: int, k: nat): int { a / Pow2(k) }

  /** Python's `a << k`. */
  function ShiftLeft(a: int, k: nat): int { a * Pow2(k) }

  lemma HalfShrinks(a: int)
    requires a != 0 && a != -1
    ensures Abs(a / 2) < Abs(a)
  {
  }

  /** Python's `a & b`. */
  function BitAnd(a: int, b: int): (r: int)
    ensures 0 <= a ==> 0 <= r <= a
    ensures 0 <= b ==> 0 <= r <= b
    decreases Abs(a) + Abs(b)
  {
    if a == 0 || b == 0 then 0
    else if a == -1 then b
    else if b == -1 then a
    else
      HalfShrinks(a); HalfShrinks(b);
      2 * BitAnd(a / 2, b / 2) + (if a % 2 == 1 && b % 2 == 1 then 1 else 0)
  }

  /** Python's `a | b`. */
  function BitOr(a: int, b: int): (r: int)
    ensures 0 <= a && 0 <= b ==> a <= r && b <= r && r <= a + b
    ensures r < 0 <==> a < 0 || b < 0
    decreases Abs(a) + Abs(b)
  {
    if a == 0 then b
    else if b == 0 then a
    else if a == -1 || b == -1 then -1
    else
      HalfShrinks(a); HalfShrinks(b);
      2 * BitOr(a / 2, b / 2) + (if a % 2 == 1 || b % 2 == 1 then 1 else 0)
  }

  /** Masking with 2^k - 1 keeps the value modulo 2^k, for every integer,
      negative ones included. */
  lemma {:induction false} AndLowMask(a: int, k: nat)
    ensures BitAnd(a, Pow2(k) - 1) == a % Pow2(k)
    decreases k
  {
    var m := Pow2(k) - 1;
    if k == 0 {
      assert m == 0;
    } else if a == 0 {
    } else if a == -1 {
      assert BitAnd(a, m) == m;
      MinusOneMod(Pow2(k));
    } else {
      assert Pow2(k) == 2 * Pow2(k - 1);
      assert m != 0 && m != -1;
      assert m / 2 == Pow2(k - 1) - 1 && m % 2 == 1;
      assert BitAnd(a, m) == 2 * BitAnd(a / 2, m / 2) + a % 2;
      AndLowMask(a / 2, k - 1);
      DivModHalf(a, k);
    }
  }

  lemma MinusOneMod(d: int)
    requires d >= 1
    ensures (-1) % d == d - 1
  {
    ModUnique(-1, d, -1, d - 1);
  }

  /** a mod 2^k splits into the low bit and the upper part. */
  lemma DivModHalf(a: int, k: nat)
    requires k >= 1
    ensures a % Pow2(k) == 2 * ((a / 2) % Pow2(k - 1)) + a % 2
  {
    var p := Pow2(k - 1);
    var q := (a / 2) / p;
    var r := (a / 2) % p;
    assert a / 2 == q * p + r;
    assert a == 2 * (a / 2) + a % 2;
    assert a == q * (2 * p) + (2 * r + a % 2);
    assert 0 <= 2 * r + a % 2 < 2 * p;
    ModUnique(a, 2 * p, q, 2 * r + a % 2);
  }

  lemma ModUnique(a: int, d: int, q: int, r: int)
    requires d > 0 && 0 <= r < d && a == q * d + r
    ensures a / d == q && a % d == r
  {
    var q' := a / d;
    var r' := a % d;
    assert a == q' * d + r';
    assert (q' - q) * d == r - r' by { MulSub(q', q, d); }
    if q' > q {
      MulAtLeast(q' - q, d);
    } else if q' < q {
      assert (q - q') * d == r' - r by { MulSub(q, q', d); }
      MulAtLeast(q - q', d);
    }
  }

  lemma MulSub(x: int, y: int, d: int)
    ensures (x - y) * d == x * d - y * d
  {
  }

  lemma MulAtLeast(x: int, d: int)
    requires x >= 1 && d > 0
    ensures x * d >= d
  {
    assert (x - 1) * d >= 0;
    MulSub(x, 1, d);
  }

  /** Setting a bit that is clear adds its weight: 2^k | v == 2^k + v for
      0 <= v < 2^k. */
  lemma {:induction false} OrHighBit(k: nat, v: int)
    requires 0 <= v < Pow2(k)
    ensures BitOr(Pow2(k), v) == Pow2(k) + v
    decreases k
  {
    if v == 0 {
    } else {
      assert k >= 1;
      OrHighBit(k - 1, v / 2);
      assert Pow2(k) / 2 == Pow2(k - 1) && Pow2(k) % 2 == 0;
    }
  }

  /** Setting a bit that is already set changes nothing: 2^k | v == v for
      2^k <= v < 2^(k+1). */
  lemma {:induction false} OrSetBit(k: nat, v: int)
    requires Pow2(k) <= v < 2 * Pow2(k)
    ensures BitOr(Pow2(k), v) == v
    decreases k
  {
    if k == 0 {
      assert v == 1;
    } else {
      OrSetBit(k - 1, v / 2);
      assert Pow2(k) / 2 == Pow2(k - 1) && Pow2(k) % 2 == 0;
    }
  }

  /** Masking with a single bit 2^k keeps that bit: the result is 2^k when
      bit k of a (its floor quotient by 2^k, taken mod 2) is set, else 0. */
  lemma {:induction false} AndBit(a: int, k: nat)
    ensures BitAnd(a, Pow2(k)) == if (a / Pow2(k)) % 2 == 1 then Pow2(k) else 0
    decreases k
  {
    if k == 0 {
      if a != 0 && a != -1 {
        assert BitAnd(a / 2, 0) == 0;
      }
    } else if a == 0 {
    } else if a == -1 {
      assert BitAnd(a, Pow2(k)) == Pow2(k);
      ModUnique(-1, Pow2(k), -1, Pow2(k) - 1);
    } else {
      var p := Pow2(k - 1);
      assert Pow2(k) == 2 * p;
      assert BitAnd(a, Pow2(k)) == 2 * BitAnd(a / 2, p);
      AndBit(a / 2, k - 1);
      HalfQuotient(a, p);
    }
  }

  /** Dividing by 2p is halving and then dividing by p. */
  lemma HalfQuotient(a: int, p: int)
    requires p >= 1
    ensures a / (2 * p) == (a / 2) / p
  {
    var q := (a / 2) / p;
    var r := (a / 2) % p;
    assert a / 2 == q * p + r;
    assert a == 2 * (a / 2) + a % 2;
    assert a == q * (2 * p) + (2 * r + a % 2);
    ModUnique(a, 2 * p, q, 2 * r + a % 2);
  }

  /** A value shifted left by k has k clear low bits, so or-ing in v below
      2^k adds it: (a << k) | v == (a << k) + v. */
  lemma OrShifted(a: int, k: nat, v: int)
    requires 0 <= a && 0 <= v < Pow2(k)
    ensures BitOr(ShiftLeft(a, k), v) == ShiftLeft(a, k) + v
  {
    ModUnique(ShiftLeft(a, k), Pow2(k), a, 0);
    OrLow(ShiftLeft(a, k), k, v);
  }

  lemma {:induction false} OrLow(m: int, k: nat, v: int)
    requires 0 <= m && m % Pow2(k) == 0 && 0 <= v < Pow2(k)
    ensures BitOr(m, v) == m + v
    decreases k
  {
    if k == 0 {
      assert v == 0;
    } else if m != 0 && v != 0 {
      DivModHalf(m, k);
      assert m % 2 == 0 && (m / 2) % Pow2(k - 1) == 0;
      assert Pow2(k) == 2 * Pow2(k - 1);
      OrLow(m / 2, k - 1, v / 2);
      assert BitOr(m, v) == 2 * BitOr(m / 2, v / 2) + v % 2;
    }
  }

  /** Or-ing two values below 2^k stays below 2^k. */
  lemma {:induction false} OrBelow(a: int, b: int, k: nat)
    requires 0 <= a < Pow2(k) && 0 <= b < Pow2(k)
    ensures BitOr(a, b) < Pow2(k)
    decreases k
  {
    if a != 0 && b != 0 {
      assert k >= 1 && Pow2(k) == 2 * Pow2(k - 1);
      OrBelow(a / 2, b / 2, k - 1);
    }
  }
}
