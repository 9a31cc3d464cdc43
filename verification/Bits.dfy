/** Bitwise operators on natural numbers, digit by digit, and what masks do. */
module Bits {

  function Pow2(n: nat): (r: nat)
    ensures r > 0
  {
    if n == 0 then 1 else 2 * Pow2(n - 1)
  }

  function And(x: nat, y: nat): nat {
    if x == 0 || y == 0 then 0 else 2 * And(x / 2, y / 2) + (if x % 2 == 1 && y % 2 == 1 then 1 else 0)
  }

  function Xor(x: nat, y: nat): nat
    decreases x + y
  {
    if x == 0 then y
    else if y == 0 then x
    else 2 * Xor(x / 2, y / 2) + (if x % 2 != y % 2 then 1 else 0)
  }

  /** Dropping the last `k` binary digits. */
  function ShiftRight(x: nat, k: nat): nat
    decreases k
  {
    if k == 0 then x else ShiftRight(x / 2, k - 1)
  }

  /** Appending `k` zeros. */
  function ShiftLeft(x: nat, k: nat): nat {
    if k == 0 then x else 2 * ShiftLeft(x, k - 1)
  }

  /** Bit `i`, counted from the least significant. */
  function Bit(x: nat, i: nat): nat {
    ShiftRight(x, i) % 2
  }

  lemma {:induction false} Pow2Sum(m: nat, n: nat)
    ensures Pow2(m + n) == Pow2(m) * Pow2(n)
  {
    if m > 0 {
      Pow2Sum(m - 1, n);
      Associate(2, Pow2(m - 1), Pow2(n));
    }
  }

  lemma {:induction false} Pow2Grows(m: nat, n: nat)
    requires m <= n
    ensures Pow2(m) <= Pow2(n)
  {
    if m < n {
      Pow2Grows(m, n - 1);
    }
  }

  // ---------------------------------------------------------------- products and quotients

  lemma Distribute(a: int, b: int, c: int)
    ensures a * (b + c) == a * b + a * c
  {
  }

  lemma Associate(a: int, b: int, c: int)
    ensures a * (b * c) == (a * b) * c
  {
  }

  lemma TimesPositive(d: int, t: int)
    requires d >= 0
    ensures t >= 1 ==> d * t >= d
    ensures t <= -1 ==> d * t <= -d
  {
    Distribute(d, t - 1, 1);
    Distribute(d, t + 1, -1);
  }

  lemma Quotient(x: nat, d: nat, q: nat, r: nat)
    requires d > 0 && x == d * q + r && r < d
    ensures x / d == q && x % d == r
  {
    var q', r' := x / d, x % d;
    assert x == d * q' + r';
    Distribute(d, q, -q');
    TimesPositive(d, q - q');
  }

  lemma LastDigits(x: nat, b: nat)
    requires b > 0
    ensures x % (2 * b) == 2 * ((x / 2) % b) + x % 2
    ensures x / (2 * b) == (x / 2) / b
  {
    var h := x / 2;
    assert h == b * (h / b) + h % b;
    assert x == (2 * b) * (h / b) + (2 * (h % b) + x % 2) by {
      assert 2 * (b * (h / b)) == (2 * b) * (h / b);
    }
    Quotient(x, 2 * b, h / b, 2 * (h % b) + x % 2);
  }

  // ---------------------------------------------------------------- shifts

  /** Shifting right divides by a power of two. */
  lemma {:induction false} ShiftRightDivides(x: nat, k: nat)
    ensures ShiftRight(x, k) == x / Pow2(k)
    decreases k
  {
    if k > 0 {
      ShiftRightDivides(x / 2, k - 1);
      LastDigits(x, Pow2(k - 1));
    }
  }

  lemma {:induction false} ShiftTwice(x: nat, j: nat, k: nat)
    ensures ShiftRight(x, j + k) == ShiftRight(ShiftRight(x, j), k)
    decreases j
  {
    if j > 0 {
      ShiftTwice(x / 2, j - 1, k);
    }
  }

  lemma {:induction false} ShiftOut(x: nat, w: nat)
    requires x < Pow2(w)
    ensures ShiftRight(x, w) == 0
    decreases w
  {
    if w > 0 {
      ShiftOut(x / 2, w - 1);
    }
  }

  lemma NextDigit(x: nat, k: nat)
    ensures ShiftRight(x, k) == 2 * ShiftRight(x, k + 1) + Bit(x, k)
  {
    ShiftTwice(x, k, 1);
  }

  lemma {:induction false} ShiftLeftInjective(x: nat, y: nat, k: nat)
    ensures ShiftLeft(x, k) == ShiftLeft(y, k) <==> x == y
  {
    if k > 0 {
      ShiftLeftInjective(x, y, k - 1);
    }
  }

  lemma {:induction false} ShiftBack(x: nat, k: nat)
    ensures ShiftLeft(ShiftRight(x, k), k) <= x
    decreases k
  {
    if k > 0 {
      ShiftBack(x / 2, k - 1);
    }
  }

  // ---------------------------------------------------------------- masks

  lemma OddMask(x: nat, mask: nat, half: nat)
    requires mask == 2 * half + 1
    ensures And(x, mask) == 2 * And(x / 2, half) + x % 2
  {
    assert mask / 2 == half && mask % 2 == 1;
  }

  /** Masking with n ones keeps the last n digits. */
  lemma {:induction false} AndLowMask(x: nat, n: nat)
    ensures And(x, Pow2(n) - 1) == x % Pow2(n)
  {
    if n > 0 {
      hide And;
      AndLowMask(x / 2, n - 1);
      OddMask(x, Pow2(n) - 1, Pow2(n - 1) - 1);
      LastDigits(x, Pow2(n - 1));
    }
  }

  lemma AllOnes(x: nat, n: nat)
    requires x < Pow2(n)
    ensures And(x, Pow2(n) - 1) == x
  {
    AndLowMask(x, n);
    Quotient(x, Pow2(n), 0, x);
  }

  lemma EvenMask(x: nat, mask: nat, half: nat, k: nat)
    requires k > 0 && mask == 2 * half && And(x / 2, half) == ShiftLeft(ShiftRight(x / 2, k - 1), k - 1)
    ensures And(x, mask) == ShiftLeft(ShiftRight(x, k), k)
  {
    assert mask / 2 == half && mask % 2 == 0;
  }

  /** Masking a number of n + k digits with n ones followed by k zeros clears its last k digits. */
  lemma {:induction false} AndHighMask(x: nat, n: nat, k: nat, mask: nat)
    requires x < Pow2(n + k) && mask == Pow2(n + k) - Pow2(k)
    ensures And(x, mask) == ShiftLeft(ShiftRight(x, k), k)
    decreases k
  {
    if k == 0 {
      AllOnes(x, n);
    } else {
      var half := Pow2(n + k - 1) - Pow2(k - 1);
      AndHighMask(x / 2, n, k - 1, half);
      EvenMask(x, mask, half, k);
    }
  }

  lemma {:induction false} XorMasks(k: nat, w: nat, x: nat, y: nat)
    requires k <= w && x == Pow2(k) - 1 && y == Pow2(w) - 1
    ensures Xor(x, y) == Pow2(w) - Pow2(k)
  {
    if k > 0 {
      var p, q := Pow2(k - 1) - 1, Pow2(w - 1) - 1;
      XorMasks(k - 1, w - 1, p, q);
      OddXor(x, y, p, q);
    }
  }

  lemma OddXor(x: nat, y: nat, p: nat, q: nat)
    requires x == 2 * p + 1 && y == 2 * q + 1
    ensures Xor(x, y) == 2 * Xor(p, q)
  {
    assert x / 2 == p && y / 2 == q && x % 2 == y % 2 == 1;
  }

  // ---------------------------------------------------------------- bits

  /** Two w-digit numbers agree after dropping k digits exactly when they agree on every bit from k on. */
  lemma {:induction false} SameQuotientIffSameBits(x: nat, y: nat, k: nat, w: nat)
    requires k <= w && x < Pow2(w) && y < Pow2(w)
    ensures ShiftRight(x, k) == ShiftRight(y, k) <==> forall i :: k <= i < w ==> Bit(x, i) == Bit(y, i)
    decreases w - k
  {
    if k < w {
      SameQuotientIffSameBits(x, y, k + 1, w);
      NextDigit(x, k);
      NextDigit(y, k);
    } else {
      ShiftOut(x, w);
      ShiftOut(y, w);
    }
  }

  lemma {:induction false} BitOfRemainder(y: nat, g: nat, r: nat)
    requires r < g
    ensures Bit(y % Pow2(g), r) == Bit(y, r)
    decreases r
  {
    LastDigits(y, Pow2(g - 1));
    if r > 0 {
      BitOfRemainder(y / 2, g - 1, r - 1);
    }
  }
}
