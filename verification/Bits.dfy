/**
 Bit operations on natural numbers. Python's integers are unbounded, and every C word here
 is unsigned, so one set of definitions serves both programs; C's truncations are written
 out with `%` where they occur.
 */
module Bits {
  type u8 = x: int | 0 <= x < 0x100
  type u16 = x: int | 0 <= x < 0x1_0000
  type u32 = x: int | 0 <= x < 0x1_0000_0000

  const COUNT_MAX: u16 := 0xffff

  /** One more on a 16-bit counter that stops at its largest value. */
  function Increment(counter: u16): u16
  {
    if counter != COUNT_MAX then counter + 1 else counter
  }

  /** What such a counter shows of a true count. */
  function Saturated(n: nat): u16
  {
    if n < COUNT_MAX then n else COUNT_MAX
  }

  function Pow2(n: nat): (p: nat)
    ensures p > 0
  {
    if n == 0 then 1 else 2 * Pow2(n - 1)
  }

  lemma Powers()
    ensures Pow2(0) == 1 && Pow2(1) == 2 && Pow2(3) == 8 && Pow2(4) == 16 && Pow2(5) == 32 && Pow2(8) == 256
    ensures Pow2(16) == 0x1_0000 && Pow2(21) == 0x20_0000 && Pow2(26) == 0x400_0000
    ensures Pow2(2) == 4 && Pow2(19) == 0x8_0000 && Pow2(24) == 0x100_0000
    ensures Pow2(29) == 0x2000_0000 && Pow2(32) == 0x1_0000_0000
  {
    assert Pow2(8) == 256;
    assert Pow2(16) == 0x1_0000;
    assert Pow2(19) == 0x8_0000;
    assert Pow2(24) == 0x100_0000;
    assert Pow2(29) == 0x2000_0000;
  }

  function Shl(x: nat, n: nat): nat
  {
    if n == 0 then x else 2 * Shl(x, n - 1)
  }

  function Shr(x: nat, n: nat): nat
  {
    if n == 0 then x else Shr(x / 2, n - 1)
  }

  lemma {:induction false} ShlIsMul(x: nat, n: nat)
    ensures Shl(x, n) == x * Pow2(n)
  {
    if n > 0 {
      ShlIsMul(x, n - 1);
      assert x * Pow2(n) == 2 * (x * Pow2(n - 1));
    }
  }

  lemma {:induction false} ShrIsDiv(x: nat, n: nat)
    ensures Shr(x, n) == x / Pow2(n)
    decreases n
  {
    if n > 0 {
      ShrIsDiv(x / 2, n - 1);
      ModDouble(x, Pow2(n - 1));
    }
  }

  function Or(a: nat, b: nat): nat
    decreases a + b
  {
    if a == 0 && b == 0 then 0
    else (if a % 2 == 1 || b % 2 == 1 then 1 else 0) + 2 * Or(a / 2, b / 2)
  }

  function And(a: nat, b: nat): nat
    decreases a + b
  {
    if a == 0 && b == 0 then 0
    else (if a % 2 == 1 && b % 2 == 1 then 1 else 0) + 2 * And(a / 2, b / 2)
  }

  function Xor(a: nat, b: nat): nat
    decreases a + b
  {
    if a == 0 && b == 0 then 0
    else (if a % 2 != b % 2 then 1 else 0) + 2 * Xor(a / 2, b / 2)
  }

  lemma OrZero(a: nat)
    ensures Or(a, 0) == a && Or(0, a) == a
  {
  }

  lemma {:induction false} OrCommutes(a: nat, b: nat)
    ensures Or(a, b) == Or(b, a)
    decreases a + b
  {
    if a != 0 || b != 0 {
      OrCommutes(a / 2, b / 2);
    }
  }

  /** Fields that do not overlap can be joined by `|`: nothing is lost and nothing carries. */
  lemma {:induction false} OrDisjoint(hi: nat, k: nat, lo: nat)
    requires lo < Pow2(k)
    ensures Or(hi * Pow2(k), lo) == hi * Pow2(k) + lo
  {
    if k == 0 {
      OrZero(hi);
    } else {
      var half := hi * Pow2(k - 1);
      assert hi * Pow2(k) == 2 * half;
      OrDisjoint(hi, k - 1, lo / 2);
    }
  }

  /** A mask of `k` ones keeps the remainder modulo 2^k. */
  lemma {:induction false} AndMask(x: nat, k: nat)
    ensures And(x, Pow2(k) - 1) == x % Pow2(k)
    decreases k
  {
    if k == 0 {
      AndZero(x);
    } else {
      var p := Pow2(k - 1);
      assert (Pow2(k) - 1) / 2 == p - 1 && (Pow2(k) - 1) % 2 == 1;
      AndMask(x / 2, k - 1);
      assert And(x, Pow2(k) - 1) == x % 2 + 2 * ((x / 2) % p);
      ModDouble(x, p);
    }
  }

  lemma AndZero(a: nat)
    ensures And(a, 0) == 0 && And(0, a) == 0
  {
  }

  lemma ModDouble(x: nat, p: nat)
    requires p > 0
    ensures x % (2 * p) == x % 2 + 2 * ((x / 2) % p) && x / (2 * p) == x / 2 / p
  {
    var q, r := x / 2 / p, (x / 2) % p;
    assert x / 2 == q * p + r;
    assert x == q * (2 * p) + (x % 2 + 2 * r);
    ModIs(x, q, 2 * p, x % 2 + 2 * r);
  }

  /** Division with remainder is unique. */
  lemma ModIs(x: int, q: int, m: int, r: int)
    requires m > 0 && 0 <= r < m && x == q * m + r
    ensures x % m == r && x / m == q
  {
    var q', r' := x / m, x % m;
    assert x == q' * m + r';
    assert (q - q') * m == r' - r;
    MulIsZeroOrLarge(q - q', m);
  }

  lemma MulIsZeroOrLarge(d: int, m: int)
    requires m > 0
    ensures d == 0 || d * m >= m || d * m <= -m
  {
    if d >= 1 {
      assert d * m == (d - 1) * m + m;
    } else if d <= -1 {
      assert d * m == (d + 1) * m - m;
    }
  }

  /** `&` works field by field. */
  lemma {:induction false} AndFields(ah: nat, al: nat, bh: nat, bl: nat, k: nat)
    requires al < Pow2(k) && bl < Pow2(k)
    ensures And(ah * Pow2(k) + al, bh * Pow2(k) + bl) == And(ah, bh) * Pow2(k) + And(al, bl)
    decreases k
  {
    hide And;
    var a, b := ah * Pow2(k) + al, bh * Pow2(k) + bl;
    var c := And(ah, bh) * Pow2(k) + And(al, bl);
    if k == 0 {
      AndZero(0);
      assert a == ah && b == bh && c == And(ah, bh);
    } else {
      HalveField(ah, al, k);
      HalveField(bh, bl, k);
      HalveField(And(ah, bh), And(al, bl), k);
      AndFields(ah, al / 2, bh, bl / 2, k - 1);
      AndStep(al, bl);
      assert And(a / 2, b / 2) == c / 2;
      AndStep(a, b);
    }
  }

  lemma HalveField(hi: nat, lo: nat, k: nat)
    requires k > 0
    ensures (hi * Pow2(k) + lo) / 2 == hi * Pow2(k - 1) + lo / 2
    ensures (hi * Pow2(k) + lo) % 2 == lo % 2
  {
    assert hi * Pow2(k) == 2 * (hi * Pow2(k - 1));
  }

  lemma AndStep(a: nat, b: nat)
    ensures And(a, b) == (if a % 2 == 1 && b % 2 == 1 then 1 else 0) + 2 * And(a / 2, b / 2)
  {
  }

  /** The hardware's acceptance test: no masked bit of the two words differs. */
  lemma {:induction false} MaskedXorIsZero(a: nat, b: nat, mask: nat)
    ensures And(Xor(a, b), mask) == 0 <==> And(a, mask) == And(b, mask)
    decreases mask
  {
    if mask == 0 {
      AndZero(Xor(a, b));
      AndZero(a);
      AndZero(b);
    } else {
      XorStep(a, b);
      AndStep(Xor(a, b), mask);
      AndStep(a, mask);
      AndStep(b, mask);
      MaskedXorIsZero(a / 2, b / 2, mask / 2);
    }
  }

  lemma XorStep(a: nat, b: nat)
    ensures Xor(a, b) % 2 == (if a % 2 != b % 2 then 1 else 0)
    ensures Xor(a, b) / 2 == Xor(a / 2, b / 2)
  {
  }

  /** `^` works field by field. */
  lemma {:induction false} XorFields(ah: nat, al: nat, bh: nat, bl: nat, k: nat)
    requires al < Pow2(k) && bl < Pow2(k)
    ensures Xor(ah * Pow2(k) + al, bh * Pow2(k) + bl) == Xor(ah, bh) * Pow2(k) + Xor(al, bl)
    decreases k
  {
    hide Xor;
    var a, b := ah * Pow2(k) + al, bh * Pow2(k) + bl;
    var c := Xor(ah, bh) * Pow2(k) + Xor(al, bl);
    if k == 0 {
      XorZero(0);
      assert a == ah && b == bh && c == Xor(ah, bh);
    } else {
      HalveField(ah, al, k);
      HalveField(bh, bl, k);
      HalveField(Xor(ah, bh), Xor(al, bl), k);
      XorFields(ah, al / 2, bh, bl / 2, k - 1);
      XorStep(al, bl);
      XorStep(a, b);
      assert Xor(a, b) / 2 == c / 2 && Xor(a, b) % 2 == c % 2;
    }
  }

  lemma {:induction false} XorZero(a: nat)
    ensures Xor(a, 0) == a
    decreases a
  {
    if a > 0 {
      XorZero(a / 2);
    }
  }

  /** Exclusive or undoes itself, so it loses neither operand. */
  lemma {:induction false} XorUndo(a: nat, b: nat)
    ensures Xor(Xor(a, b), b) == a
    decreases a + b
  {
    if a == 0 && b == 0 {
    } else {
      XorStep(a, b);
      XorUndo(a / 2, b / 2);
      XorStep(Xor(a, b), b);
      var x := Xor(Xor(a, b), b);
      assert x / 2 == a / 2 && x % 2 == a % 2;
    }
  }

  lemma {:induction false} XorCommutes(a: nat, b: nat)
    ensures Xor(a, b) == Xor(b, a)
    decreases a + b
  {
    if a == 0 && b == 0 {
    } else {
      XorCommutes(a / 2, b / 2);
    }
  }

  /** Exclusive or does not widen its operands. */
  lemma {:induction false} XorBound(a: nat, b: nat, k: nat)
    requires a < Pow2(k) && b < Pow2(k)
    ensures Xor(a, b) < Pow2(k)
    decreases k
  {
    if k == 0 {
    } else {
      XorBound(a / 2, b / 2, k - 1);
      XorStep(a, b);
    }
  }
}
