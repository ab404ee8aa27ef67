/** Shifts and bitwise operations on unbounded natural numbers, as Python integers have them. */
module Bits {

  function Pow2(n: nat): (r: nat)
    ensures r > 0
  {
    if n == 0 then 1 else 2 * Pow2(n - 1)
  }

  function ShiftLeft(a: nat, n: nat): nat {
    a * Pow2(n)
  }

  function ShiftRight(a: nat, n: nat): nat {
    if n == 0 then a else ShiftRight(a / 2, n - 1)
  }

  function Or(a: nat, b: nat): nat
    decreases a + b
  {
    if a == 0 && b == 0 then 0
    else (if a % 2 == 1 || b % 2 == 1 then 1 else 0) + 2 * Or(a / 2, b / 2)
  }

  function And(a: nat, b: nat): nat
    decreases a + b
  {
    if a == 0 && b == 0 then 0
    else (if a % 2 == 1 && b % 2 == 1 then 1 else 0) + 2 * And(a / 2, b / 2)
  }

  lemma {:induction false} OrZero(b: nat)
    ensures Or(0, b) == b
  {
    if b > 0 {
      OrZero(b / 2);
    }
  }

  /** Bits that do not overlap are combined by adding. */
  lemma {:induction false} OrIsSum(v: nat, x: nat, s: nat)
    requires v < Pow2(s)
    ensures Or(v, ShiftLeft(x, s)) == v + ShiftLeft(x, s)
  {
    if s == 0 {
      OrZero(x);
    } else {
      var y := ShiftLeft(x, s - 1);
      assert ShiftLeft(x, s) == 2 * y;
      assert v / 2 < Pow2(s - 1);
      OrIsSum(v / 2, x, s - 1);
      assert (2 * y) / 2 == y && (2 * y) % 2 == 0;
    }
  }

  lemma {:induction false} AndZero(a: nat)
    ensures And(a, 0) == 0
  {
    if a > 0 {
      AndZero(a / 2);
    }
  }

  lemma Remainder(a: nat, n: nat, q: nat, r: nat)
    requires n > 0 && a == n * q + r && r < n
    ensures a / n == q && a % n == r
  {
    var d := q - a / n;
    assert a == n * (a / n) + a % n;
    assert n * d == a % n - r by {
      assert n * d == n * q - n * (a / n);
    }
    assert d >= 1 ==> n * d >= n;
    assert d <= -1 ==> n * d <= -(n as int);
  }

  lemma ModDouble(a: nat, n: nat)
    requires n > 0
    ensures a % (2 * n) == a % 2 + 2 * ((a / 2) % n)
    ensures a / (2 * n) == (a / 2) / n
  {
    var h := a / 2;
    var q, r := h / n, a % 2 + 2 * (h % n);
    assert h == n * q + h % n;
    assert a == 2 * h + a % 2 == (2 * n) * q + r;
    Remainder(a, 2 * n, q, r);
  }

  /** A mask of ones keeps the remainder. */
  lemma AndOdd(a: nat, m: nat)
    ensures And(a, 2 * m + 1) == a % 2 + 2 * And(a / 2, m)
  {
    assert (2 * m + 1) / 2 == m;
  }

  lemma {:induction false} AndMask(a: nat, s: nat)
    ensures And(a, Pow2(s) - 1) == a % Pow2(s)
  {
    if s == 0 {
      AndZero(a);
    } else {
      var p := Pow2(s - 1);
      AndMask(a / 2, s - 1);
      ModDouble(a, p);
      AndOdd(a, p - 1);
    }
  }

  /** A single bit picks out one binary digit. */
  lemma {:induction false} AndBit(a: nat, s: nat)
    ensures And(a, Pow2(s)) == Pow2(s) * ((a / Pow2(s)) % 2)
  {
    if s == 0 {
      AndZero(a / 2);
    } else {
      AndBit(a / 2, s - 1);
      ModDouble(a, Pow2(s - 1));
    }
  }

  lemma Pow2Small()
    ensures Pow2(3) == 8 && Pow2(7) == 128 && Pow2(8) == 256
  {
    assert Pow2(3) == 8;
    assert Pow2(6) == 64;
  }

  lemma {:induction false} Pow2Sum(a: nat, b: nat)
    ensures Pow2(a + b) == Pow2(a) * Pow2(b)
  {
    if a > 0 {
      Pow2Sum(a - 1, b);
      assert Pow2(a) * Pow2(b) == 2 * (Pow2(a - 1) * Pow2(b));
    }
  }

  lemma {:induction false} Pow2Monotone(a: nat, b: nat)
    requires a <= b
    ensures Pow2(a) <= Pow2(b)
  {
    if a < b {
      Pow2Monotone(a, b - 1);
    }
  }

  lemma Pow2Square(n: nat, half: nat, p: nat)
    requires n == 2 * half && Pow2(half) == p
    ensures Pow2(n) == p * p
  {
    Pow2Sum(half, half);
  }

  lemma Pow2Of32()
    ensures Pow2(32) == 0x1_0000_0000
  {
    Pow2Small();
    Pow2Square(16, 8, 256);
    Pow2Square(32, 16, 0x1_0000);
  }

  lemma Pow2Of37()
    ensures Pow2(37) == 0x20_0000_0000
  {
    Pow2Of32();
    Pow2Sum(32, 5);
    assert Pow2(5) == 32;
  }

  lemma Pow2Of62()
    ensures Pow2(62) == 0x4000_0000_0000_0000 && Pow2(63) == 0x8000_0000_0000_0000
  {
    Pow2Of32();
    Pow2Square(64, 32, 0x1_0000_0000);
    assert Pow2(64) == 2 * Pow2(63) && Pow2(63) == 2 * Pow2(62);
  }
}
