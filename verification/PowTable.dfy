/**
  The weight table of RED and the fixed-point power it serves: pow_w computes (1 - 1/w)^n with twelve
  fraction bits by repeated squaring, truncating at every step.
 */
module PowTable {

  const ONE: nat := 4096          // 1 << FP_SHIFT
  const TAB_SIZE: nat := 32

  /** The largest weight for which (weight - 1) << FP_SHIFT stays inside a 32-bit int. */
  const MAX_WEIGHT: nat := 0x8_0000

  function Pow2(i: nat): (p: nat)
    ensures p >= 1
  {
    if i == 0 then 1 else 2 * Pow2(i - 1)
  }

  /** x * y >> FP_SHIFT */
  function MulFp(x: nat, y: nat): nat { x * y / ONE }

  /** ((weight - 1) << FP_SHIFT) / weight */
  function FirstEntry(weight: nat): nat
    requires weight > 0
  {
    (weight - 1) * ONE / weight
  }

  /** The table starts from 4096 (1 - 1/weight), rounded down. */
  lemma FirstEntryIsBase(weight: nat)
    requires weight > 0
    ensures weight * Entry(weight, 0) <= ONE * weight - ONE < weight * (Entry(weight, 0) + 1)
  {
    var x := (weight - 1) * ONE;
    assert x == ONE * weight - ONE;
    assert x == weight * (x / weight) + x % weight;
    assert weight * (x / weight + 1) == weight * (x / weight) + weight;
  }

  function Entry(weight: nat, i: nat): (x: nat)
    requires weight > 0
  {
    if i == 0 then FirstEntry(weight) else MulFp(Entry(weight, i - 1), Entry(weight, i - 1))
  }

  /** The base of the power, as the fraction the table starts from. */
  function Base(weight: nat): real
    requires weight > 0
  {
    Entry(weight, 0) as real / 4096.0
  }

  function RPow(q: real, n: nat): real {
    if n == 0 then 1.0 else q * RPow(q, n - 1)
  }

  // ---------------------------------------------------------------- real powers

  lemma {:induction false} RPowBounds(q: real, n: nat)
    requires 0.0 <= q <= 1.0
    ensures 0.0 <= RPow(q, n) <= 1.0
  {
    if n > 0 {
      RPowBounds(q, n - 1);
      MulInUnit(q, RPow(q, n - 1), RPow(q, n));
    }
  }

  lemma MulNonneg(x: real, y: real)
    requires x >= 0.0 && y >= 0.0
    ensures x * y >= 0.0
  {
  }

  lemma MulInUnit(x: real, y: real, z: real)
    requires 0.0 <= x <= 1.0 && 0.0 <= y <= 1.0 && z == x * y
    ensures 0.0 <= z <= x && z <= y
  {
    MulNonneg(x, 1.0 - y);
    MulNonneg(y, 1.0 - x);
    MulNonneg(x, y);
    assert x * (1.0 - y) == x - z && y * (1.0 - x) == y - z;
  }

  lemma {:induction false} RPowAdd(q: real, a: nat, b: nat)
    ensures RPow(q, a + b) == RPow(q, a) * RPow(q, b)
  {
    if a > 0 {
      RPowAdd(q, a - 1, b);
      var x, y := RPow(q, a - 1), RPow(q, b);
      assert q * (x * y) == (q * x) * y;
    }
  }

  lemma {:induction false} RPowFalls(q: real, a: nat, n: nat)
    requires 0.0 <= q <= 1.0 && a <= n
    ensures RPow(q, n) <= RPow(q, a)
  {
    if a < n {
      RPowFalls(q, a, n - 1);
      RPowBounds(q, n - 1);
      MulInUnit(q, RPow(q, n - 1), RPow(q, n));
    }
  }

  // ---------------------------------------------------------------- one truncated product

  /** v approximates 4096 * q^n from below with an error of at most err. */
  ghost predicate Approx(v: nat, q: real, n: nat, err: nat) {
    4096.0 * RPow(q, n) - err as real <= v as real <= 4096.0 * RPow(q, n)
  }

  /** A truncated product loses the sum of the two errors and at most one more unit. */
  lemma MulFpError(x: nat, y: nat, u: real, v: real, w: real, a: nat, b: nat)
    requires 0.0 <= u <= 1.0 && 0.0 <= v <= 1.0 && w == u * v
    requires 4096.0 * u - a as real <= x as real <= 4096.0 * u
    requires 4096.0 * v - b as real <= y as real <= 4096.0 * v
    ensures 4096.0 * w - (a + b + 1) as real <= MulFp(x, y) as real <= 4096.0 * w
  {
    var z := (x * y) as real;
    MulReal(x, y);
    ProductError(x as real, y as real, z, u, v, w, a as real, b as real);
    DivReal(x * y);
  }

  lemma ProductError(x: real, y: real, z: real, u: real, v: real, w: real, a: real, b: real)
    requires 0.0 <= u <= 1.0 && 0.0 <= v <= 1.0 && a >= 0.0 && b >= 0.0
    requires w == u * v && z == x * y
    requires 0.0 <= x && 4096.0 * u - a <= x <= 4096.0 * u
    requires 0.0 <= y && 4096.0 * v - b <= y <= 4096.0 * v
    ensures 4096.0 * w - (a + b) <= z / 4096.0 <= 4096.0 * w
  {
    var p, q := 4096.0 * u, 4096.0 * v;
    ScaledProduct(u, v, w);
    ProductUpper(x, y, p, q);
    MulInUnit(u, v, w);
    if p >= a && q >= b {
      ProductLower(x, y, p, q, a, b);
    } else {
      MulNonneg(x, y);
    }
  }

  lemma ScaledProduct(u: real, v: real, w: real)
    requires w == u * v
    ensures (4096.0 * u) * (4096.0 * v) == 4096.0 * (4096.0 * w)
  {
    assert (4096.0 * u) * (4096.0 * v) == 4096.0 * (u * (4096.0 * v));
    assert u * (4096.0 * v) == 4096.0 * w;
  }

  lemma DivReal(m: nat)
    ensures (m / ONE) as real <= m as real / 4096.0 < (m / ONE) as real + 1.0
  {
    var d, r := m / ONE, m % ONE;
    assert m == 4096 * d + r;
    assert m as real == 4096.0 * d as real + r as real;
  }

  lemma MulReal(x: nat, y: nat)
    ensures (x * y) as real == x as real * y as real
  {
  }

  lemma ProductUpper(x: real, y: real, p: real, q: real)
    requires 0.0 <= x <= p && 0.0 <= y <= q
    ensures x * y <= p * q
  {
    MulNonneg(x, q - y);
    MulNonneg(q, p - x);
  }

  lemma ProductLower(x: real, y: real, p: real, q: real, a: real, b: real)
    requires 0.0 <= p <= 4096.0 && 0.0 <= q <= 4096.0 && a >= 0.0 && b >= 0.0
    requires 0.0 <= p - a <= x && 0.0 <= q - b <= y
    ensures x * y / 4096.0 >= p * q / 4096.0 - a - b
  {
    ProductUpper(p - a, q - b, x, y);
    assert (p - a) * (q - b) == p * q - a * q - b * p + a * b;
    MulNonneg(a, b);
    MulNonneg(a, 4096.0 - q);
    MulNonneg(b, 4096.0 - p);
  }

  // ---------------------------------------------------------------- the table

  lemma QuotientBelow(m: nat, d: nat, bound: nat)
    requires d > 0 && m < bound * d
    ensures m / d < bound
  {
    var k := m / d;
    assert k * d <= m;
    MulKeepsOrder(bound, k, d);
  }

  lemma MulKeepsOrder(x: nat, y: nat, z: nat)
    ensures x <= y ==> x * z <= y * z
  {
    if x <= y {
      assert (y - x) * z >= 0;
    }
  }

  lemma BaseBounds(weight: nat)
    requires weight > 0
    ensures Entry(weight, 0) < ONE && 0.0 <= Base(weight) <= 1.0
  {
    QuotientBelow((weight - 1) * ONE, weight, ONE);
  }

  /** Entry i stands for q^(2^i), short by at most 2^i - 1. */
  lemma {:induction false} EntryApprox(weight: nat, i: nat)
    requires weight > 0
    ensures Approx(Entry(weight, i), Base(weight), Pow2(i), Pow2(i) - 1)
  {
    var q := Base(weight);
    BaseBounds(weight);
    if i == 0 {
      assert RPow(q, 1) == q * RPow(q, 0) == q;
    } else {
      EntryApprox(weight, i - 1);
      var h := Pow2(i - 1);
      RPowBounds(q, h);
      RPowAdd(q, h, h);
      var x := Entry(weight, i - 1);
      MulFpError(x, x, RPow(q, h), RPow(q, h), RPow(q, Pow2(i)), h - 1, h - 1);
    }
  }

  lemma MulFpSmaller(x: nat, y: nat)
    requires x <= y < ONE
    ensures MulFp(x, x) <= MulFp(y, y)
    ensures y > 0 ==> MulFp(y, y) < y
  {
    MulKeepsOrder(x, y, x);
    MulKeepsOrder(x, y, y);
    if y > 0 {
      SquareBelow(y);
    }
  }

  lemma SquareBelow(y: nat)
    requires 0 < y < ONE
    ensures y * y < y * ONE
  {
    MulKeepsOrder(y + 1, ONE, y);
  }

  /** The table falls strictly until it reaches zero, and stays there. */
  lemma {:induction false} EntryFalls(weight: nat, i: nat)
    requires weight > 0
    ensures Entry(weight, i) < ONE
    ensures Entry(weight, i) > 0 ==> Entry(weight, i + 1) < Entry(weight, i)
    ensures Entry(weight, i) == 0 ==> Entry(weight, i + 1) == 0
  {
    BaseBounds(weight);
    if i > 0 {
      EntryFalls(weight, i - 1);
    }
    MulFpSmaller(Entry(weight, i), Entry(weight, i));
  }

  /** What the slowest table, the one that starts at 4095, holds. */
  function Slowest(i: nat): nat {
    if i == 0 then 4095 else MulFp(Slowest(i - 1), Slowest(i - 1))
  }

  lemma {:induction false} EntryUnderSlowest(weight: nat, i: nat)
    requires weight > 0
    ensures Entry(weight, i) <= Slowest(i) < ONE
  {
    BaseBounds(weight);
    if i > 0 {
      EntryUnderSlowest(weight, i - 1);
      MulFpSmaller(Entry(weight, i - 1), Slowest(i - 1));
      MulFpSmaller(Slowest(i - 1), Slowest(i - 1));
    }
  }

  lemma SlowestDies()
    ensures Slowest(16) == 0
  {
    assert Slowest(1) == MulFp(4095, 4095) == 4094;
    assert Slowest(2) == MulFp(4094, 4094) == 4092;
    assert Slowest(3) == MulFp(4092, 4092) == 4088;
    assert Slowest(4) == MulFp(4088, 4088) == 4080;
    assert Slowest(5) == MulFp(4080, 4080) == 4064;
    assert Slowest(6) == MulFp(4064, 4064) == 4032;
    assert Slowest(7) == MulFp(4032, 4032) == 3969;
    assert Slowest(8) == MulFp(3969, 3969) == 3845;
    assert Slowest(9) == MulFp(3845, 3845) == 3609;
    assert Slowest(10) == MulFp(3609, 3609) == 3179;
    assert Slowest(11) == MulFp(3179, 3179) == 2467;
    assert Slowest(12) == MulFp(2467, 2467) == 1485;
    assert Slowest(13) == MulFp(1485, 1485) == 538;
    assert Slowest(14) == MulFp(538, 538) == 70;
    assert Slowest(15) == MulFp(70, 70) == 1;
    assert Slowest(16) == MulFp(1, 1) == 0;
  }

  /** Whatever the weight, entry 16 of the 32 is zero. */
  lemma TableDies(weight: nat)
    requires weight > 0
    ensures Entry(weight, 16) == 0
  {
    EntryUnderSlowest(weight, 16);
    SlowestDies();
  }

  // ---------------------------------------------------------------- the code

  class Wtab {
    var tab: array<nat>
    var paramMax: nat
    const weight: nat

    ghost predicate Valid()
      reads this, tab
    {
      && 0 < weight
      && tab.Length == TAB_SIZE
      && (forall i :: 0 <= i < TAB_SIZE ==> tab[i] == Entry(weight, i))
      && (exists j: nat :: FirstZero(weight, j) && paramMax == Pow2(j))
    }

    /** The table wtab_alloc fills; w_param_max always ends up positive. */
    constructor (weight: nat)
      requires 0 < weight <= MAX_WEIGHT
      ensures Valid() && this.weight == weight && paramMax > 0
    {
      this.weight := weight;
      var t := new nat[TAB_SIZE];
      t[0] := FirstEntry(weight);
      var max := 0;
      ghost var j := 0;
      for i := 1 to TAB_SIZE
        invariant forall k :: 0 <= k < i ==> t[k] == Entry(weight, k)
        invariant max == 0 ==> forall k :: 1 <= k < i ==> Entry(weight, k) != 0
        invariant max != 0 ==> FirstZero(weight, j) && max == Pow2(j)
      {
        t[i] := MulFp(t[i - 1], t[i - 1]);
        if t[i] == 0 && max == 0 {
          max := Pow2(i);
          j := i;
        }
      }
      TableDies(weight);
      tab, paramMax := t, max;
    }

    /** pow_w, with its error bound. */
    method PowW(n: int) returns (val: nat)
      requires Valid()
      ensures n <= 0 ==> val == ONE
      ensures n >= 0 ==> Approx(val, Base(weight), n, n)
    {
      ghost var q := Base(weight);
      ghost var j: nat :| FirstZero(weight, j) && paramMax == Pow2(j);
      BaseBounds(weight);
      if n >= paramMax {
        ZeroIsClose(weight, j, n);
        return 0;
      }
      val := ONE;
      if n <= 0 {
        return;
      }
      var left: nat := n;
      var i, bit := 0, 1;
      ghost var h := left;
      while left != 0
        invariant left <= n < Pow2(j) && i <= j && bit == Pow2(i)
        invariant left == h * bit
        invariant Approx(val, q, n - left, n - left)
        decreases j - i, left
      {
        if h >= 1 {
          MulKeepsOrder(1, h, bit);
        }
        DivExact(h, bit);
        ghost var before := left;
        if left / bit % 2 == 1 {
          left := left - bit;
          EntryApprox(weight, i);
          PowStep(val, tab[i], q, n - before, bit);
          val := MulFp(val, tab[i]);
        }
        BitCleared(before, left, bit, h);
        i := i + 1;
        bit := 2 * bit;
        h := h / 2;
      }
    }
  }

  /** Entry j is the first zero after entry 0. */
  ghost predicate FirstZero(weight: nat, j: nat)
    requires weight > 0
  {
    1 <= j < TAB_SIZE && Entry(weight, j) == 0 && forall k :: 1 <= k < j ==> Entry(weight, k) != 0
  }

  /** After the bit is dealt with, what is left is a multiple of the next one. */
  lemma BitCleared(before: nat, left: nat, bit: nat, h: nat)
    requires bit > 0 && before == h * bit
    requires left == before - if h % 2 == 1 then bit else 0
    ensures left == (h / 2) * (2 * bit)
  {
    var k := h / 2;
    assert h == 2 * k + h % 2;
    assert h * bit == (2 * k) * bit + (h % 2) * bit;
    assert (2 * k) * bit == k * (2 * bit);
  }

  lemma DivExact(h: nat, m: nat)
    requires m > 0
    ensures (h * m) / m == h
  {
    var k := (h * m) / m;
    var r := (h * m) % m;
    assert h * m == k * m + r;
    if k < h {
      MulKeepsOrder(k + 1, h, m);
    } else {
      MulKeepsOrder(h, k, m);
      if h < k {
        MulKeepsOrder(h + 1, k, m);
      }
    }
  }

  /** Multiplying the running value by a table entry. */
  lemma PowStep(val: nat, x: nat, q: real, m: nat, bit: nat)
    requires 0.0 <= q <= 1.0 && bit >= 1
    requires Approx(val, q, m, m) && Approx(x, q, bit, bit - 1)
    ensures Approx(MulFp(val, x), q, m + bit, m + bit)
  {
    RPowBounds(q, m);
    RPowBounds(q, bit);
    RPowAdd(q, m, bit);
    MulFpError(val, x, RPow(q, m), RPow(q, bit), RPow(q, m + bit), m, bit - 1);
  }

  /** The early return: from w_param_max on the power is below the error the bound allows. */
  lemma ZeroIsClose(weight: nat, j: nat, n: nat)
    requires weight > 0 && Entry(weight, j) == 0 && n >= Pow2(j)
    ensures Approx(0, Base(weight), n, n)
  {
    var q := Base(weight);
    BaseBounds(weight);
    EntryApprox(weight, j);
    RPowFalls(q, Pow2(j), n);
    RPowBounds(q, n);
  }
}
