/** Unsigned machine words as natural numbers, with the bitwise operators the allocator uses.
    `And`, `Or` and `Not` are the usual operators, defined bit by bit; the lemmas say when they
    coincide with arithmetic (masking is a remainder, or-ing disjoint fields is a sum). */
module Bits {

  const WORD64: nat := 0x1_0000_0000_0000_0000

  function Pow2(k: nat): (p: nat)
    ensures p >= 1
  {
    if k == 0 then 1 else 2 * Pow2(k - 1)
  }

  function And(x: nat, y: nat): (z: nat)
    ensures z <= x && z <= y
    decreases x
  {
    if x == 0 || y == 0 then 0
    else 2 * And(x / 2, y / 2) + (if x % 2 == 1 && y % 2 == 1 then 1 else 0)
  }

  function Or(x: nat, y: nat): (z: nat)
    ensures z >= x && z >= y
    decreases x
  {
    if x == 0 then y
    else if y == 0 then x
    else 2 * Or(x / 2, y / 2) + (if x % 2 == 1 || y % 2 == 1 then 1 else 0)
  }

  /** The complement of a `width`-bit word. */
  function Not(width: nat, x: nat): nat
    requires x < Pow2(width)
  {
    Pow2(width) - 1 - x
  }

  function Shl(x: nat, k: nat): nat {
    if k == 0 then x else 2 * Shl(x, k - 1)
  }

  function Shr(x: nat, k: nat): nat {
    if k == 0 then x else Shr(x / 2, k - 1)
  }

  /** The low `k` bits of `x`. */
  function Low(x: nat, k: nat): (r: nat)
    ensures r <= x && r < Pow2(k)
  {
    if k == 0 then 0 else 2 * Low(x / 2, k - 1) + x % 2
  }

  /** Bit `i` of `x`, counted from the least significant. */
  predicate Bit(x: nat, i: nat) {
    if i == 0 then x % 2 == 1 else Bit(x / 2, i - 1)
  }

  lemma {:induction false} Pow2Add(a: nat, b: nat)
    ensures Pow2(a + b) == Pow2(a) * Pow2(b)
  {
    if a == 0 {
    } else {
      Pow2Add(a - 1, b);
      assert 2 * (Pow2(a - 1) * Pow2(b)) == (2 * Pow2(a - 1)) * Pow2(b);
    }
  }

  lemma Pow2Lits()
    ensures Pow2(2) == 4 && Pow2(3) == 8 && Pow2(5) == 32 && Pow2(6) == 64 && Pow2(16) == 0x1_0000
    ensures Pow2(18) == 0x4_0000 && Pow2(23) == 0x80_0000 && Pow2(32) == 0x1_0000_0000 && Pow2(64) == WORD64
  {
    assert Pow2(8) == 256;
    Pow2Add(8, 8);
    Pow2Add(2, 16);
    Pow2Add(5, 18);
    Pow2Add(16, 16);
    Pow2Add(32, 32);
  }

  lemma {:induction false} Pow2Mono(a: nat, b: nat)
    requires a <= b
    ensures Pow2(a) <= Pow2(b)
  {
    if a == b {
    } else {
      Pow2Mono(a, b - 1);
    }
  }

  /** Halving commutes with reducing modulo a power of two. */
  lemma HalfMod(x: nat, p: nat)
    requires p >= 1
    ensures x % (2 * p) == 2 * ((x / 2) % p) + x % 2
    ensures x / (2 * p) == (x / 2) / p
  {
    var h := x / 2;
    var q, r := h / p, h % p;
    assert h == q * p + r;
    assert x == q * (2 * p) + (2 * r + x % 2) by {
      assert x == 2 * h + x % 2;
      assert 2 * (q * p) == q * (2 * p);
    }
    DivModUnique(x, 2 * p, q, 2 * r + x % 2);
  }

  lemma MulStep(a: int, b: int, d: int)
    requires a > b && d > 0
    ensures a * d >= b * d + d
  {
    assert (a - b - 1) * d >= 0;
    assert (a - b - 1) * d == a * d - b * d - d;
  }

  lemma DivModUnique(x: int, d: int, q: int, r: int)
    requires d > 0 && x == q * d + r && 0 <= r < d
    ensures x / d == q && x % d == r
  {
    var q' := x / d;
    assert x == q' * d + x % d;
    if q > q' {
      MulStep(q, q', d);
    } else if q < q' {
      MulStep(q', q, d);
    }
  }

  lemma {:induction false} ShrIsDiv(x: nat, k: nat)
    ensures Shr(x, k) == x / Pow2(k)
  {
    if k == 0 {
    } else {
      ShrIsDiv(x / 2, k - 1);
      HalfMod(x, Pow2(k - 1));
    }
  }

  lemma {:induction false} ShlIsMul(x: nat, k: nat)
    ensures Shl(x, k) == x * Pow2(k)
  {
    if k == 0 {
    } else {
      ShlIsMul(x, k - 1);
      var p := Pow2(k - 1);
      assert x * (2 * p) == 2 * (x * p);
    }
  }

  lemma {:induction false} LowIsMod(x: nat, k: nat)
    ensures Low(x, k) == x % Pow2(k)
  {
    if k == 0 {
    } else {
      LowIsMod(x / 2, k - 1);
      HalfMod(x, Pow2(k - 1));
    }
  }

  lemma {:induction false} LowOfSmall(x: nat, k: nat)
    requires x < Pow2(k)
    ensures Low(x, k) == x
  {
    if k == 0 {
    } else {
      LowOfSmall(x / 2, k - 1);
    }
  }

  /** Masking with k low ones is reduction modulo 2^k. */
  lemma {:induction false} AndLow(x: nat, k: nat)
    ensures And(x, Pow2(k) - 1) == Low(x, k)
    decreases k
  {
    if k == 0 {
    } else {
      var m := Pow2(k) - 1;
      assert m % 2 == 1 && m / 2 == Pow2(k - 1) - 1;
      AndLow(x / 2, k - 1);
      if x == 0 {
        LowOfSmall(0, k);
      }
    }
  }

  lemma AndEven(x: nat, m: nat)
    ensures And(x, 2 * m) == 2 * And(x / 2, m)
  {
    assert (2 * m) / 2 == m;
  }

  lemma AndOdd(x: nat, m: nat)
    ensures And(x, 2 * m + 1) == 2 * And(x / 2, m) + x % 2
  {
    assert (2 * m + 1) / 2 == m && (2 * m + 1) % 2 == 1;
    if x == 0 || x / 2 == 0 || m == 0 {
      assert And(x / 2, m) == 0;
    }
  }

  /** Masking with the ones from bit k up to bit width-1 clears the low k bits. */
  lemma {:induction false} AndHigh(x: nat, k: nat, width: nat)
    requires k <= width && x < Pow2(width)
    ensures Pow2(k) <= Pow2(width)
    ensures And(x, Pow2(width) - Pow2(k)) == x - Low(x, k)
    decreases k
  {
    hide And;
    Pow2Mono(k, width);
    if k == 0 {
      AndLow(x, width);
      LowOfSmall(x, width);
    } else {
      Pow2Mono(k - 1, width - 1);
      var m: nat := Pow2(width - 1) - Pow2(k - 1);
      AndHigh(x / 2, k - 1, width - 1);
      AndEven(x, m);
      assert Pow2(width) - Pow2(k) == 2 * m;
    }
  }

  /** Or-ing a field placed above every bit of x adds it. */
  lemma {:induction false} OrAbove(x: nat, y: nat, k: nat)
    requires x < Pow2(k)
    ensures Or(x, Shl(y, k)) == x + Shl(y, k)
    decreases k
  {
    if k == 0 {
    } else {
      OrAbove(x / 2, y, k - 1);
      var z := Shl(y, k - 1);
      assert (2 * z) / 2 == z && (2 * z) % 2 == 0;
    }
  }

  lemma {:induction false} AndShifted(x: nat, m: nat, k: nat)
    ensures And(x, Shl(m, k)) == Shl(And(Shr(x, k), m), k)
    decreases k
  {
    if k == 0 {
    } else {
      AndShifted(x / 2, m, k - 1);
      AndEven(x, Shl(m, k - 1));
    }
  }

  lemma {:induction false} BitOfAnd(x: nat, y: nat, i: nat)
    ensures Bit(And(x, y), i) == (Bit(x, i) && Bit(y, i))
    decreases i
  {
    if x == 0 || y == 0 {
      BitOfZero(i);
    } else if i > 0 {
      BitOfAnd(x / 2, y / 2, i - 1);
    }
  }

  lemma {:induction false} BitOfOr(x: nat, y: nat, i: nat)
    ensures Bit(Or(x, y), i) == (Bit(x, i) || Bit(y, i))
    decreases i
  {
    if x == 0 || y == 0 {
      BitOfZero(i);
    } else if i > 0 {
      BitOfOr(x / 2, y / 2, i - 1);
    }
  }

  lemma {:induction false} BitOfZero(i: nat)
    ensures !Bit(0, i)
  {
    if i == 0 {
    } else {
      BitOfZero(i - 1);
    }
  }

  lemma {:induction false} BitOfPow2(k: nat, i: nat)
    ensures Bit(Pow2(k), i) == (i == k)
  {
    if i == 0 {
    } else if k == 0 {
      BitOfZero(i - 1);
    } else {
      BitOfPow2(k - 1, i - 1);
    }
  }

  lemma {:induction false} BitOfNot(width: nat, x: nat, i: nat)
    requires x < Pow2(width) && i < width
    ensures Bit(Not(width, x), i) == !Bit(x, i)
  {
    if i == 0 {
    } else {
      assert Not(width, x) / 2 == Not(width - 1, x / 2);
      BitOfNot(width - 1, x / 2, i - 1);
    }
  }

  lemma {:induction false} BitOfLow(x: nat, k: nat, i: nat)
    ensures Bit(Low(x, k), i) == (i < k && Bit(x, i))
    decreases k
  {
    if k == 0 {
      BitOfZero(i);
    } else if i > 0 {
      BitOfLow(x / 2, k - 1, i - 1);
    }
  }

  /** Position of the highest one bit, as a relation. */
  predicate IsTopBit(x: nat, i: nat) {
    Pow2(i) <= x < Pow2(i + 1)
  }

  lemma {:induction false} TopBit(x: nat, i: nat)
    requires IsTopBit(x, i)
    ensures Bit(x, i)
    ensures forall j :: j > i ==> !Bit(x, j)
  {
    forall j | j >= i ensures Bit(x, j) == (j == i) {
      TopBitAt(x, i, j);
    }
  }

  lemma {:induction false} TopBitAt(x: nat, i: nat, j: nat)
    requires IsTopBit(x, i) && i <= j
    ensures Bit(x, j) == (j == i)
  {
    if i == 0 {
      if j > 0 {
        BitOfZero(j - 1);
      }
    } else {
      TopBitAt(x / 2, i - 1, j - 1);
    }
  }

  lemma {:induction false} SomeBit(x: nat, width: nat) returns (i: nat)
    requires 0 < x < Pow2(width)
    ensures i < width && Bit(x, i)
  {
    if x % 2 == 1 {
      i := 0;
    } else {
      i := SomeBit(x / 2, width - 1);
      i := i + 1;
    }
  }

  lemma {:induction false} OrBelow(x: nat, y: nat, width: nat)
    requires x < Pow2(width) && y < Pow2(width)
    ensures Or(x, y) < Pow2(width)
    decreases width
  {
    if x == 0 || y == 0 {
    } else {
      OrBelow(x / 2, y / 2, width - 1);
    }
  }

  // ---- bitwise algebra ----

  function One(b: bool): nat { if b then 1 else 0 }

  lemma AndStep(x: nat, y: nat)
    ensures And(x, y) == 2 * And(x / 2, y / 2) + One(x % 2 == 1 && y % 2 == 1)
    ensures And(x, y) / 2 == And(x / 2, y / 2) && (And(x, y) % 2 == 1 <==> x % 2 == 1 && y % 2 == 1)
  {
  }

  lemma OrStep(x: nat, y: nat)
    ensures Or(x, y) == 2 * Or(x / 2, y / 2) + One(x % 2 == 1 || y % 2 == 1)
    ensures Or(x, y) / 2 == Or(x / 2, y / 2) && (Or(x, y) % 2 == 1 <==> x % 2 == 1 || y % 2 == 1)
  {
  }

  lemma {:induction false} AndAssoc(x: nat, y: nat, z: nat)
    ensures And(And(x, y), z) == And(x, And(y, z))
    decreases z
  {
    if z == 0 {
    } else {
      hide And;
      AndAssoc(x / 2, y / 2, z / 2);
      AndStep(x, y);
      AndStep(y, z);
      AndStep(And(x, y), z);
      AndStep(x, And(y, z));
    }
  }

  lemma {:induction false} AndOverOr(x: nat, y: nat, z: nat)
    ensures And(Or(x, y), z) == Or(And(x, z), And(y, z))
    decreases z
  {
    if z == 0 {
    } else {
      hide And, Or;
      AndOverOr(x / 2, y / 2, z / 2);
      OrStep(x, y);
      AndStep(Or(x, y), z);
      AndStep(x, z);
      AndStep(y, z);
      OrStep(And(x, z), And(y, z));
    }
  }

  lemma {:induction false} ShrOfAnd(x: nat, y: nat, k: nat)
    ensures Shr(And(x, y), k) == And(Shr(x, k), Shr(y, k))
    decreases k
  {
    if k == 0 {
    } else {
      ShrOfAnd(x / 2, y / 2, k - 1);
      if x == 0 || y == 0 {
        ShrOfZero(k);
      }
    }
  }

  lemma {:induction false} ShrOfOr(x: nat, y: nat, k: nat)
    ensures Shr(Or(x, y), k) == Or(Shr(x, k), Shr(y, k))
    decreases k
  {
    if k == 0 {
    } else {
      ShrOfOr(x / 2, y / 2, k - 1);
      if x == 0 || y == 0 {
        ShrOfZero(k);
      }
    }
  }

  lemma {:induction false} ShrOfZero(k: nat)
    ensures Shr(0, k) == 0
  {
    if k > 0 {
      ShrOfZero(k - 1);
    }
  }

  lemma {:induction false} ShrOfShl(x: nat, k: nat)
    ensures Shr(Shl(x, k), k) == x
  {
    if k > 0 {
      ShrOfShl(x, k - 1);
    }
  }

  lemma {:induction false} ShrSmall(x: nat, k: nat)
    requires x < Pow2(k)
    ensures Shr(x, k) == 0
  {
    if k > 0 {
      ShrSmall(x / 2, k - 1);
    }
  }

  lemma {:induction false} AndShlLow(x: nat, m: nat, k: nat)
    requires m < Pow2(k)
    ensures And(Shl(x, k), m) == 0
  {
    if k > 0 {
      AndShlLow(x, m / 2, k - 1);
      assert (2 * Shl(x, k - 1)) / 2 == Shl(x, k - 1);
    }
  }

  /** A field s placed above the low k bits of x: both parts read back unchanged. */
  lemma Packed(x: nat, s: nat, k: nat, m: nat)
    requires m < Pow2(k)
    ensures var w := Or(And(x, Pow2(k) - 1), Shl(s, k));
      && And(w, m) == And(x, m)
      && Shr(w, k) == s
      && w == Low(x, k) + s * Pow2(k)
  {
    hide And, Or, Shl, Shr, Low, Pow2;
    var low := And(x, Pow2(k) - 1);
    AndOverOr(low, Shl(s, k), m);
    AndShlLow(s, m, k);
    OrZero(And(low, m));
    AndAssoc(x, Pow2(k) - 1, m);
    AndSubmask(m, k);
    ShrOfOr(low, Shl(s, k), k);
    ShrOfShl(s, k);
    AndLow(x, k);
    ShrSmall(low, k);
    OrZero(s);
    OrAbove(low, s, k);
    ShlIsMul(s, k);
  }

  lemma OrZero(x: nat)
    ensures Or(x, 0) == x && Or(0, x) == x
  {
  }

  lemma {:induction false} AndSubmask(m: nat, k: nat)
    requires m < Pow2(k)
    ensures And(Pow2(k) - 1, m) == m
    decreases k
  {
    if k == 0 {
    } else {
      assert (Pow2(k) - 1) / 2 == Pow2(k - 1) - 1 && (Pow2(k) - 1) % 2 == 1;
      AndSubmask(m / 2, k - 1);
    }
  }
}
