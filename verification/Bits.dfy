/** Bitwise operations on naturals, bit by bit, as the agent's `u32` tests use them. */
module Bits {

  function Pow2(k: nat): (p: nat)
    ensures p >= 1
  {
    if k == 0 then 1 else 2 * Pow2(k - 1)
  }

  function And(a: nat, b: nat): nat {
    if a == 0 then 0 else 2 * And(a / 2, b / 2) + (if a % 2 + b % 2 == 2 then 1 else 0)
  }

  function Or(a: nat, b: nat): nat
    decreases a + b
  {
    if a == 0 then b
    else if b == 0 then a
    else 2 * Or(a / 2, b / 2) + (if a % 2 + b % 2 > 0 then 1 else 0)
  }

  function CountOnes(a: nat): nat {
    if a == 0 then 0 else CountOnes(a / 2) + a % 2
  }

  lemma {:induction false} AndSelf(a: nat)
    ensures And(a, a) == a
  {
    if a > 0 {
      AndSelf(a / 2);
    }
  }

  lemma {:induction false} AndZero(a: nat)
    ensures And(a, 0) == 0
  {
    if a > 0 {
      AndZero(a / 2);
    }
  }

  /** Masking with all `n` bits keeps a number below `2^n`. */
  lemma {:induction false} AndAllOnes(x: nat, n: nat)
    requires x < Pow2(n)
    ensures And(x, Pow2(n) - 1) == x
  {
    if x > 0 {
      AndAllOnes(x / 2, n - 1);
      AndStep(x, Pow2(n) - 1, Pow2(n - 1) - 1, 1);
    }
  }

  /** The number formed by the low `k` bits. */
  function LowBits(x: nat, k: nat): nat {
    if k == 0 then 0 else 2 * LowBits(x / 2, k - 1) + x % 2
  }

  lemma {:induction false} LowBitsIsRemainder(x: nat, k: nat)
    ensures LowBits(x, k) == x % Pow2(k)
    decreases k
  {
    if k == 0 {
      ModOne(x);
    } else {
      LowBitsIsRemainder(x / 2, k - 1);
      ModDouble(x, Pow2(k - 1));
    }
  }

  lemma {:induction false} LowBitsOfSmall(x: nat, k: nat)
    requires x < Pow2(k)
    ensures LowBits(x, k) == x
  {
    if k > 0 {
      LowBitsOfSmall(x / 2, k - 1);
    }
  }

  /** Clearing the low `k` of `n` bits. */
  lemma {:induction false} AndHighMask(x: nat, n: nat, k: nat)
    requires k <= n && x < Pow2(n)
    ensures Pow2(k) <= Pow2(n)
    ensures And(x, Pow2(n) - Pow2(k)) == x - LowBits(x, k)
    decreases n
  {
    Pow2Monotonic(k, n);
    if k == n {
      AndZero(x);
      LowBitsOfSmall(x, n);
    } else if k == 0 {
      AndAllOnes(x, n);
    } else {
      Pow2Monotonic(k - 1, n - 1);
      AndHighMask(x / 2, n - 1, k - 1);
      if x > 0 {
        AndStep(x, Pow2(n) - Pow2(k), Pow2(n - 1) - Pow2(k - 1), 0);
      } else {
        LowBitsOfSmall(0, k);
      }
    }
  }

  lemma ModOne(x: nat)
    ensures x % 1 == 0
  {
  }

  lemma AndStep(x: nat, mask: nat, half: nat, bit: nat)
    requires x > 0 && bit <= 1 && mask == 2 * half + bit
    ensures And(x, mask) == 2 * And(x / 2, half) + (if bit == 1 then x % 2 else 0)
  {
    assert mask / 2 == half && mask % 2 == bit;
  }

  lemma ModDouble(x: nat, p: nat)
    requires p >= 1
    ensures x % (2 * p) == 2 * ((x / 2) % p) + x % 2
  {
    var q, r := (x / 2) / p, (x / 2) % p;
    assert x / 2 == q * p + r;
    assert x == 2 * (q * p + r) + x % 2;
    assert x == q * (2 * p) + (2 * r + x % 2);
    ModUnique(x, 2 * p, q, 2 * r + x % 2);
  }

  lemma ModUnique(x: nat, d: nat, q: nat, r: nat)
    requires d >= 1 && r < d && x == q * d + r
    ensures x % d == r && x / d == q
  {
    var q', r' := x / d, x % d;
    assert q' * d + r' == q * d + r;
    if q > q' {
      MulAtLeast(q - q', d);
      assert false;
    } else if q < q' {
      MulAtLeast(q' - q, d);
      assert false;
    }
  }

  lemma MulAtLeast(k: int, d: int)
    requires k >= 1 && d >= 0
    ensures k * d >= d
  {
    assert k * d == (k - 1) * d + d;
    if d > 0 {
      assert (k - 1) * d >= 0;
    }
  }

  lemma {:induction false} Pow2Monotonic(j: nat, k: nat)
    requires j <= k
    ensures Pow2(j) <= Pow2(k)
    decreases k
  {
    if j < k {
      Pow2Monotonic(j, k - 1);
    }
  }

  lemma {:induction false} Pow2StrictlyMonotonic(j: nat, k: nat)
    requires j < k
    ensures Pow2(j) < Pow2(k)
  {
    Pow2Monotonic(j, k - 1);
  }

  /** Setting the low `k` bits of a number whose low `k` bits are clear. */
  lemma {:induction false} OrLowMask(base: nat, k: nat)
    requires base % Pow2(k) == 0
    ensures Or(base, Pow2(k) - 1) == base + Pow2(k) - 1
    decreases k
  {
    if k > 0 && base > 0 {
      ModDouble(base, Pow2(k - 1));
      OrLowMask(base / 2, k - 1);
      var low := Pow2(k) - 1;
      assert low / 2 == Pow2(k - 1) - 1 && low % 2 == 1;
    }
  }

  /** Beyond an odd number's lowest bit the test is that of its half. */
  lemma AndNext(half: nat)
    ensures And(2 * half + 1, 2 * half + 1 + 1) == 2 * And(half, half + 1)
  {
    AndStep(2 * half + 1, 2 * half + 2, half + 1, 0);
  }

  /** `n & (n + 1)` is zero exactly for the numbers whose set bits are the lowest ones. */
  lemma {:induction false} ContiguousLowBits(n: nat)
    ensures And(n, n + 1) == 0 <==> exists k: nat :: n == Pow2(k) - 1
  {
    if n == 0 {
      assert n == Pow2(0) - 1;
    } else if n % 2 == 0 {
      AndSelf(n / 2);
      assert (n + 1) / 2 == n / 2;
      forall k: nat ensures n != Pow2(k) - 1 {
      }
    } else {
      var half := n / 2;
      AndNext(half);
      ContiguousLowBits(half);
      if And(half, half + 1) == 0 {
        var k: nat :| half == Pow2(k) - 1;
        assert n == Pow2(k + 1) - 1;
      } else {
        forall k: nat ensures n != Pow2(k) - 1 {
          if k > 0 {
            assert half != Pow2(k - 1) - 1;
          }
        }
      }
    }
  }

  lemma CountOnesStep(half: nat, bit: nat)
    requires bit <= 1
    ensures CountOnes(2 * half + bit) == CountOnes(half) + bit
  {
    var n := 2 * half + bit;
    assert n / 2 == half && n % 2 == bit;
  }

  lemma CountOnesOfZero()
    ensures CountOnes(0) == 0
  {
  }

  lemma HighMaskHalves(n: nat, k: nat)
    requires k < n
    ensures Pow2(n) - Pow2(k) == if k == 0 then 2 * (Pow2(n - 1) - 1) + 1 else 2 * (Pow2(n - 1) - Pow2(k - 1))
    ensures Pow2(0) == 1
  {
  }

  lemma {:induction false} CountOnesHighMask(n: nat, k: nat)
    requires k <= n
    ensures Pow2(k) <= Pow2(n)
    ensures CountOnes(Pow2(n) - Pow2(k)) == n - k
    decreases n
  {
    hide Pow2, CountOnes;
    Pow2Monotonic(k, n);
    if k == n {
      CountOnesOfZero();
    } else {
      var bit := if k == 0 then 1 else 0;
      var below := if k == 0 then 0 else k - 1;
      CountOnesHighMask(n - 1, below);
      HighMaskHalves(n, k);
      CountOnesStep(Pow2(n - 1) - Pow2(below), bit);
    }
  }

  /** Bit `j`, the lowest being bit 0. */
  function BitAt(x: nat, j: nat): (bit: nat)
    ensures bit <= 1
  {
    if j == 0 then x % 2 else BitAt(x / 2, j - 1)
  }

  /** Clearing the low `k` bits clears those bits and no other. */
  lemma {:induction false} ClearedBits(x: nat, k: nat, j: nat)
    ensures LowBits(x, k) <= x
    ensures BitAt(x - LowBits(x, k), j) == if j < k then 0 else BitAt(x, j)
    decreases j + k
  {
    if k > 0 {
      if j == 0 {
        LowBitsAtMost(x / 2, k - 1);
      } else {
        ClearedBits(x / 2, k - 1, j - 1);
        assert (x - LowBits(x, k)) / 2 == x / 2 - LowBits(x / 2, k - 1);
      }
    }
  }

  lemma {:induction false} LowBitsAtMost(x: nat, k: nat)
    ensures LowBits(x, k) <= x
  {
    if k > 0 {
      LowBitsAtMost(x / 2, k - 1);
    }
  }
}
