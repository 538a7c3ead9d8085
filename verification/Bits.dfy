/** Bitwise operations on natural numbers, by their binary digits, and what masking with the
    constants of the program means in arithmetic. */
module Bits {

  type Byte = x: int | 0 <= x < 256

  function Pow2(k: nat): (p: nat)
    ensures p >= 1
  {
    if k == 0 then 1 else 2 * Pow2(k - 1)
  }

  function BitAnd(a: nat, b: nat): nat {
    if a == 0 || b == 0 then 0 else 2 * BitAnd(a / 2, b / 2) + (a % 2) * (b % 2)
  }

  function BitOr(a: nat, b: nat): nat {
    if a == 0 then b
    else if b == 0 then a
    else 2 * BitOr(a / 2, b / 2) + (if a % 2 + b % 2 > 0 then 1 else 0)
  }

  lemma NoMultipleBelow(d: int, m: int)
    requires m > 0 && -m < d * m < m
    ensures d == 0
  {
    assert d >= 1 ==> d * m >= m;
    assert d <= -1 ==> d * m <= -m;
  }

  /** The remainder is determined by its bounds. */
  lemma RemainderUnique(x: int, q: int, m: int, r: int)
    requires m > 0 && x == q * m + r && 0 <= r < m
    ensures x % m == r && x / m == q
  {
    var d := x / m - q;
    assert x == (x / m) * m + x % m;
    assert d * m == r - x % m;
    NoMultipleBelow(d, m);
  }

  /** Taking the remainder of a number written in two digits takes it of the high digit. */
  lemma RemainderOfDigits(h: nat, l: nat, base: nat, m: nat)
    requires 0 < m && l < base
    ensures 0 < m * base && (h * base + l) % (m * base) == (h % m) * base + l
  {
    var q, s := h / m, h % m;
    assert h == q * m + s;
    assert h * base + l == q * (m * base) + (s * base + l) by {
      assert (q * m + s) * base == q * (m * base) + s * base;
    }
    assert s * base + l < m * base by {
      assert (s + 1) * base <= m * base;
      assert (s + 1) * base == s * base + base;
    }
    RemainderUnique(h * base + l, q, m * base, s * base + l);
  }

  lemma HalfRemainder(a: nat, k: nat)
    ensures a % Pow2(k + 1) == 2 * ((a / 2) % Pow2(k)) + a % 2
  {
    RemainderOfDigits(a / 2, a % 2, 2, Pow2(k));
    assert a / 2 * 2 + a % 2 == a;
  }

  /** The k lowest digits of a number. */
  function Low(a: nat, k: nat): nat {
    if k == 0 then 0 else 2 * Low(a / 2, k - 1) + a % 2
  }

  lemma {:induction false} LowIsRemainder(a: nat, k: nat)
    ensures Low(a, k) == a % Pow2(k)
  {
    if k > 0 {
      LowIsRemainder(a / 2, k - 1);
      HalfRemainder(a, k - 1);
    }
  }

  lemma {:induction false} LowWhole(a: nat, k: nat)
    requires a < Pow2(k)
    ensures Low(a, k) == a
  {
    if k > 0 {
      LowWhole(a / 2, k - 1);
    }
  }

  /** Digits above the k-th do not show in the lowest ones. */
  lemma {:induction false} LowAbove(h: nat, b: nat, k: nat, z: nat)
    requires z <= k
    ensures h * Pow2(k) >= 0 && Low(h * Pow2(k) + b, z) == Low(b, z)
  {
    if z > 0 {
      var x := h * Pow2(k - 1);
      assert h * Pow2(k) == 2 * x;
      assert (2 * x + b) / 2 == x + b / 2 && (2 * x + b) % 2 == b % 2;
      LowAbove(h, b / 2, k - 1, z - 1);
    }
  }

  lemma AndEven(a: nat, m: nat)
    ensures BitAnd(a, 2 * m) == 2 * BitAnd(a / 2, m)
  {
    assert (2 * m) / 2 == m && (2 * m) % 2 == 0;
  }

  lemma AndOdd(a: nat, m: nat)
    ensures BitAnd(a, 2 * m + 1) == 2 * BitAnd(a / 2, m) + a % 2
  {
    assert (2 * m + 1) / 2 == m && (2 * m + 1) % 2 == 1;
  }

  lemma {:induction false} AndLowDigits(a: nat, k: nat)
    ensures BitAnd(a, Pow2(k) - 1) == Low(a, k)
  {
    if k > 0 {
      var m := Pow2(k - 1) - 1;
      AndLowDigits(a / 2, k - 1);
      AndOdd(a, m);
      assert Pow2(k) - 1 == 2 * m + 1;
    }
  }

  /** A mask of k low ones keeps the remainder. */
  lemma AndLow(a: nat, k: nat)
    ensures BitAnd(a, Pow2(k) - 1) == a % Pow2(k)
  {
    AndLowDigits(a, k);
    LowIsRemainder(a, k);
  }

  lemma Pow2Monotonic(j: nat, n: nat)
    requires j <= n
    ensures Pow2(j) <= Pow2(n)
  {
    if j < n {
      Pow2Monotonic(j, n - 1);
    }
  }

  lemma {:induction false} Pow2Plus(j: nat, k: nat)
    ensures Pow2(j + k) == Pow2(j) * Pow2(k)
  {
    if j > 0 {
      Pow2Plus(j - 1, k);
      assert Pow2(j) * Pow2(k) == 2 * (Pow2(j - 1) * Pow2(k));
    }
  }

  lemma {:induction false} AndHighDigits(a: nat, j: nat, n: nat)
    requires j <= n && a < Pow2(n)
    ensures Pow2(j) <= Pow2(n) && BitAnd(a, Pow2(n) - Pow2(j)) == a - Low(a, j)
  {
    Pow2Monotonic(j, n);
    if j == 0 {
      AndLowDigits(a, n);
      LowWhole(a, n);
    } else {
      AndHighDigits(a / 2, j - 1, n - 1);
      AndEven(a, Pow2(n - 1) - Pow2(j - 1));
    }
  }

  /** A mask of ones above j zeros drops the remainder. */
  lemma AndHigh(a: nat, j: nat, n: nat)
    requires j <= n && a < Pow2(n)
    ensures Pow2(j) <= Pow2(n) && BitAnd(a, Pow2(n) - Pow2(j)) == a - a % Pow2(j)
  {
    AndHighDigits(a, j, n);
    LowIsRemainder(a, j);
  }

  lemma OrEven(a: nat, m: nat)
    ensures BitOr(a, 2 * m) == 2 * BitOr(a / 2, m) + a % 2
  {
    assert (2 * m) / 2 == m && (2 * m) % 2 == 0;
    assert a == 2 * (a / 2) + a % 2;
  }

  lemma {:induction false} OrBitDigits(a: nat, k: nat)
    requires a < Pow2(k + 1)
    ensures BitOr(a, Pow2(k)) == Pow2(k) + Low(a, k)
  {
    if k == 0 {
    } else {
      OrBitDigits(a / 2, k - 1);
      OrEven(a, Pow2(k - 1));
    }
  }

  /** Setting bit k of a number below 2^(k+1). */
  lemma OrBit(a: nat, k: nat)
    requires a < Pow2(k + 1)
    ensures BitOr(a, Pow2(k)) == Pow2(k) + a % Pow2(k)
  {
    OrBitDigits(a, k);
    LowIsRemainder(a, k);
  }
}
