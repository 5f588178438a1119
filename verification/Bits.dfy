/** Machine words as natural numbers: bits, the bitwise operators and the shifts. */
module Bits {

  function Pow2(n: nat): (p: nat)
    ensures p > 0
  {
    if n == 0 then 1 else 2 * Pow2(n - 1)
  }

  /** Bit i of x. */
  function Bit(x: nat, i: nat): bool {
    if i == 0 then x % 2 == 1 else Bit(x / 2, i - 1)
  }

  function And(x: nat, y: nat): nat {
    if x == 0 || y == 0 then 0 else (if x % 2 == 1 && y % 2 == 1 then 1 else 0) + 2 * And(x / 2, y / 2)
  }

  function Or(x: nat, y: nat): nat
    decreases x + y
  {
    if x == 0 then y else if y == 0 then x
    else (if x % 2 == 1 || y % 2 == 1 then 1 else 0) + 2 * Or(x / 2, y / 2)
  }

  /** The complement of a word of the given width. */
  function Not(width: nat, x: nat): nat {
    if width == 0 then 0 else (1 - x % 2) + 2 * Not(width - 1, x / 2)
  }

  /** x >> k: x halved k times. */
  function ShiftRight(x: nat, k: nat): nat {
    if k == 0 then x else ShiftRight(x / 2, k - 1)
  }

  /** The n lowest bits of x: what an unsigned type of n bits keeps of it. */
  function Low(x: nat, n: nat): nat {
    if n == 0 then 0 else x % 2 + 2 * Low(x / 2, n - 1)
  }

  /** x << k in an unsigned type of the given width. */
  function ShiftLeft(width: nat, x: nat, k: nat): nat {
    Low(Pow2(k) * x, width)
  }

  // ---------------------------------------------------------------- arithmetic

  /** Taking x apart: the low bits and the shifted rest. */
  lemma {:induction false} Split(x: nat, n: nat)
    ensures x == Low(x, n) + Pow2(n) * ShiftRight(x, n)
    ensures Low(x, n) < Pow2(n)
  {
    if n > 0 {
      Split(x / 2, n - 1);
      assert x == x % 2 + 2 * (x / 2);
      assert 2 * (Pow2(n - 1) * ShiftRight(x / 2, n - 1)) == Pow2(n) * ShiftRight(x, n);
    }
  }

  lemma NextMultiple(a: nat, b: nat, d: nat)
    requires a < b
    ensures a * d + d <= b * d
  {
    if a + 1 < b {
      NextMultiple(a, b - 1, d);
    }
  }

  lemma DivModUnique(x: nat, d: nat, q: nat, r: nat)
    requires d > 0 && r < d && x == q * d + r
    ensures x / d == q && x % d == r
  {
    var q', r' := x / d, x % d;
    assert x == q' * d + r';
    if q < q' {
      NextMultiple(q, q', d);
    } else if q' < q {
      NextMultiple(q', q, d);
    }
  }

  /** In numbers: the remainder and the quotient by two to the n. */
  lemma LowIsMod(x: nat, n: nat)
    ensures Low(x, n) == x % Pow2(n) && ShiftRight(x, n) == x / Pow2(n)
  {
    Split(x, n);
    DivModUnique(x, Pow2(n), ShiftRight(x, n), Low(x, n));
  }

  lemma LowSmall(x: nat, n: nat)
    requires x < Pow2(n)
    ensures Low(x, n) == x
  {
    if n > 0 {
      LowSmall(x / 2, n - 1);
    }
  }

  lemma Pow2Monotone(a: nat, b: nat)
    requires a <= b
    ensures Pow2(a) <= Pow2(b)
  {
    if a < b {
      Pow2Monotone(a, b - 1);
    }
  }

  // ---------------------------------------------------------------- a word is its bits

  lemma {:induction false} SameBits(width: nat, x: nat, y: nat)
    requires x < Pow2(width) && y < Pow2(width)
    requires forall i :: 0 <= i < width ==> Bit(x, i) == Bit(y, i)
    ensures x == y
  {
    if width > 0 {
      assert Bit(x, 0) == Bit(y, 0);
      forall i | 0 <= i < width - 1
        ensures Bit(x / 2, i) == Bit(y / 2, i)
      {
        assert Bit(x, i + 1) == Bit(y, i + 1);
      }
      SameBits(width - 1, x / 2, y / 2);
    }
  }

  lemma NoHighBits(width: nat, x: nat, i: nat)
    requires x < Pow2(width) && width <= i
    ensures !Bit(x, i)
  {
    if i > 0 && width > 0 {
      NoHighBits(width - 1, x / 2, i - 1);
    } else if i > 0 {
      NoHighBits(0, x / 2, i - 1);
    }
  }

  lemma AndBit(x: nat, y: nat, i: nat)
    ensures Bit(And(x, y), i) == (Bit(x, i) && Bit(y, i))
  {
    if x == 0 || y == 0 {
      NoHighBits(0, 0, i);
    } else if i > 0 {
      AndBit(x / 2, y / 2, i - 1);
      assert And(x, y) / 2 == And(x / 2, y / 2);
    }
  }

  lemma AndSmall(x: nat, y: nat)
    ensures And(x, y) <= x && And(x, y) <= y
  {
  }

  lemma OrBit(x: nat, y: nat, i: nat)
    ensures Bit(Or(x, y), i) == (Bit(x, i) || Bit(y, i))
    decreases i
  {
    if x == 0 || y == 0 {
      NoHighBits(0, 0, i);
    } else if i > 0 {
      OrBit(x / 2, y / 2, i - 1);
      assert Or(x, y) / 2 == Or(x / 2, y / 2);
    }
  }

  lemma OrSmall(width: nat, x: nat, y: nat)
    requires x < Pow2(width) && y < Pow2(width)
    ensures Or(x, y) < Pow2(width)
  {
    if width > 0 && x > 0 && y > 0 {
      OrSmall(width - 1, x / 2, y / 2);
    }
  }

  lemma NotBit(width: nat, x: nat, i: nat)
    ensures Bit(Not(width, x), i) == (i < width && !Bit(x, i))
    ensures Not(width, x) < Pow2(width)
  {
    if width == 0 {
      NoHighBits(0, 0, i);
    } else if i > 0 {
      NotBit(width - 1, x / 2, i - 1);
      assert Not(width, x) / 2 == Not(width - 1, x / 2);
    } else {
      NotBit(width - 1, x / 2, 0);
    }
  }

  lemma {:induction false} LowBit(x: nat, n: nat, i: nat)
    ensures Bit(Low(x, n), i) == (i < n && Bit(x, i))
    ensures Low(x, n) < Pow2(n)
  {
    Split(x, n);
    if n == 0 {
      NoHighBits(0, 0, i);
    } else if i > 0 {
      LowBit(x / 2, n - 1, i - 1);
      assert Low(x, n) / 2 == Low(x / 2, n - 1);
    }
  }

  lemma ShiftRightBit(x: nat, k: nat, i: nat)
    ensures Bit(ShiftRight(x, k), i) == Bit(x, i + k)
    decreases k
  {
    if k > 0 {
      ShiftRightBit(x / 2, k - 1, i);
    }
  }

  /** The bits of a below k, those of b from k on. */
  lemma ConcatBit(a: nat, b: nat, k: nat, i: nat)
    requires a < Pow2(k)
    ensures Bit(a + Pow2(k) * b, i) == if i < k then Bit(a, i) else Bit(b, i - k)
    decreases k
  {
    if k > 0 {
      var x := a + Pow2(k) * b;
      assert x == a % 2 + 2 * (a / 2 + Pow2(k - 1) * b);
      assert x / 2 == a / 2 + Pow2(k - 1) * b && x % 2 == a % 2;
      if i > 0 {
        ConcatBit(a / 2, b, k - 1, i - 1);
      }
    }
  }

  lemma ShiftLeftBit(width: nat, x: nat, k: nat, i: nat)
    ensures Bit(ShiftLeft(width, x, k), i) == (k <= i < width && Bit(x, i - k))
    ensures ShiftLeft(width, x, k) < Pow2(width)
  {
    LowBit(Pow2(k) * x, width, i);
    ConcatBit(0, x, k, i);
    if i < k {
      NoHighBits(0, 0, i);
    }
  }

  lemma MaskBit(n: nat, i: nat)
    ensures Bit(Pow2(n) - 1, i) == (i < n)
  {
    if n == 0 {
      NoHighBits(0, 0, i);
    } else if i > 0 {
      MaskBit(n - 1, i - 1);
      assert (Pow2(n) - 1) / 2 == Pow2(n - 1) - 1;
    }
  }

  /** In numbers: bit i has weight two to the i. */
  lemma BitIsDigit(x: nat, i: nat)
    ensures Bit(x, i) <==> x / Pow2(i) % 2 == 1
  {
    LowIsMod(x, i);
    ShiftRightBit(x, i, 0);
  }

  // ---------------------------------------------------------------- sizes

  lemma ShiftRightSmall(x: nat, k: nat, width: nat)
    requires x < Pow2(width) && k <= width
    ensures ShiftRight(x, k) < Pow2(width - k)
    decreases k
  {
    if k > 0 {
      ShiftRightSmall(x / 2, k - 1, width - 1);
    }
  }

  lemma ConcatSmall(a: nat, b: nat, k: nat, h: nat)
    requires a < Pow2(k) && b < Pow2(h)
    ensures a + Pow2(k) * b < Pow2(k + h)
    decreases k
  {
    if k > 0 {
      assert a + Pow2(k) * b == a % 2 + 2 * (a / 2 + Pow2(k - 1) * b);
      ConcatSmall(a / 2, b, k - 1, h);
    }
  }

  /** The mask of the n lowest bits fits into a word that has them. */
  lemma MaskFits(n: nat, width: nat)
    requires n <= width
    ensures Low(Pow2(n) - 1, width) == Pow2(n) - 1
  {
    Pow2Monotone(n, width);
    LowSmall(Pow2(n) - 1, width);
  }
}
