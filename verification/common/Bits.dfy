// Shifts and ORs of the C code on natural numbers.
module Bits {
  // Left shift.
  function Shl(v: nat, n: nat): nat {
    if n == 0 then v else 2 * Shl(v, n - 1)
  }

  // Bitwise OR.
  function Or(a: nat, b: nat): nat
    decreases a + b
  {
    if a == 0 then b else if b == 0 then a
    else (if a % 2 == 1 || b % 2 == 1 then 1 else 0) + 2 * Or(a / 2, b / 2)
  }

  lemma {:induction false} ShlSum(a: nat, b: nat, n: nat)
    ensures Shl(a + b, n) == Shl(a, n) + Shl(b, n)
  {
    if n > 0 { ShlSum(a, b, n - 1); }
  }

  lemma {:induction false} ShlTwice(v: nat, m: nat, n: nat)
    ensures Shl(Shl(v, m), n) == Shl(v, m + n)
  {
    if n > 0 { ShlTwice(v, m, n - 1); }
  }

  lemma ShlSeven(v: nat, n: nat)
    ensures Shl(v, n + 7) == Shl(128 * v, n)
  {
    ShlTwice(v, 7, n);
    assert Shl(v, 1) == 2 * v;
    assert Shl(v, 3) == 4 * Shl(v, 1);
    assert Shl(v, 5) == 4 * Shl(v, 3);
  }

  lemma {:induction false} ShlMonotone(a: nat, b: nat, m: nat, n: nat)
    requires a <= b && m <= n
    ensures Shl(a, m) <= Shl(b, n)
    decreases n
  {
    if m > 0 { ShlMonotone(a, b, m - 1, n - 1); }
    else if n > 0 { ShlMonotone(a, b, 0, n - 1); }
  }

  // ORing a number below 2^k with a multiple of 2^k adds them.
  lemma {:induction false} OrDisjoint(a: nat, c: nat, k: nat)
    requires a < Shl(1, k)
    ensures Or(a, Shl(c, k)) == a + Shl(c, k)
  {
    if k > 0 { OrDisjoint(a / 2, c, k - 1); }
  }

  lemma ModDouble(x: nat, m: nat)
    requires m > 0
    ensures (2 * x) % (2 * m) == 2 * (x % m)
  {
    var q, r := x / m, x % m;
    assert 2 * x == q * (2 * m) + 2 * r;
    ModUnique(2 * x, q, 2 * r, 2 * m);
  }

  lemma MulSign(k: int, d: int)
    requires d >= 0
    ensures k >= 1 ==> k * d >= d
    ensures k <= -1 ==> k * d <= -d
  {
  }

  lemma ModUnique(x: nat, q: nat, r: nat, d: nat)
    requires d > 0 && r < d && x == q * d + r
    ensures x % d == r && x / d == q
  {
    var k := x / d - q;
    assert k * d == (x / d) * d - q * d;
    MulSign(k, d);
  }

  // A shifted value truncated to w bits keeps the low w - k bits.
  lemma {:induction false} ShlTruncated(c: nat, k: nat, w: nat)
    requires k <= w
    ensures Shl(1, w) > 0 && Shl(1, w - k) > 0
    ensures Shl(c, k) % Shl(1, w) == Shl(c % Shl(1, w - k), k)
  {
    ShlMonotone(1, 1, 0, w);
    ShlMonotone(1, 1, 0, w - k);
    if k > 0 {
      ShlTruncated(c, k - 1, w - 1);
      ModDouble(Shl(c, k - 1), Shl(1, w - 1));
    }
  }

  // --- Single bits ---

  function Shr(v: nat, n: nat): nat
    decreases n
  {
    if n == 0 then v else Shr(v / 2, n - 1)
  }

  predicate Bit(w: nat, n: nat) { Shr(w, n) % 2 == 1 }

  lemma {:induction false} NoBits(n: nat)
    ensures !Bit(0, n)
  {
    if n > 0 { NoBits(n - 1); }
  }

  lemma {:induction false} OrBit(a: nat, b: nat, n: nat)
    ensures Bit(Or(a, b), n) == (Bit(a, n) || Bit(b, n))
    decreases n
  {
    NoBits(n);
    if n > 0 {
      assert Or(a, b) / 2 == Or(a / 2, b / 2);
      OrBit(a / 2, b / 2, n - 1);
    }
  }

  lemma {:induction false} ShlBit(k: nat, n: nat)
    ensures Bit(Shl(1, k), n) == (n == k)
    decreases n
  {
    if k == 0 {
      if n > 0 { NoBits(n - 1); }
    } else if n > 0 {
      ShlBit(k - 1, n - 1);
    }
  }

  // The n low bits.
  function Mask(n: nat): nat {
    if n == 0 then 0 else 1 + 2 * Mask(n - 1)
  }

  lemma {:induction false} MaskBit(m: nat, n: nat)
    ensures Bit(Mask(m), n) == (n < m)
    decreases n
  {
    if m == 0 { NoBits(n); }
    else if n > 0 { MaskBit(m - 1, n - 1); }
  }

  // A number is determined by its bits.
  lemma {:induction false} SameBits(a: nat, b: nat)
    requires forall n: nat :: Bit(a, n) == Bit(b, n)
    ensures a == b
    decreases a + b
  {
    assert Bit(a, 0) == Bit(b, 0);
    if a + b > 0 {
      forall n: nat
        ensures Bit(a / 2, n) == Bit(b / 2, n)
      {
        assert Bit(a, n + 1) == Bit(b, n + 1);
      }
      SameBits(a / 2, b / 2);
    }
  }

  // Words of a given width.
  ghost predicate Fits(w: nat, width: nat) { forall n :: n >= width ==> !Bit(w, n) }

  lemma {:induction false} SmallFits(w: nat, width: nat)
    requires w < Shl(1, width)
    ensures Fits(w, width)
  {
    forall n | n >= width ensures !Bit(w, n) { NoBitFrom(w, width, n); }
  }

  lemma {:induction false} NoBitFrom(w: nat, width: nat, n: nat)
    requires w < Shl(1, width) && n >= width
    ensures !Bit(w, n)
    decreases n
  {
    if width == 0 { NoBits(n); } else { NoBitFrom(w / 2, width - 1, n - 1); }
  }

  lemma {:induction false} OrFits(a: nat, b: nat, width: nat)
    requires a < Shl(1, width) && b < Shl(1, width)
    ensures Or(a, b) < Shl(1, width)
    decreases width
  {
    if width > 0 { OrFits(a / 2, b / 2, width - 1); }
  }

  lemma {:induction false} MaskFits(m: nat, width: nat)
    requires m <= width
    ensures Mask(m) < Shl(1, width)
  {
    if m > 0 { MaskFits(m - 1, width - 1); } else { ShlMonotone(1, 1, 0, width); }
  }

  // A word is a mask exactly when its low bits are the ones set.
  lemma MaskExact(w: nat, r: nat, width: nat)
    requires Fits(w, width) && r <= width
    ensures w == Mask(r) <==> forall n :: 0 <= n < width ==> Bit(w, n) == (n < r)
  {
    forall n: nat ensures Bit(Mask(r), n) == (n < r) { MaskBit(r, n); }
    if forall n :: 0 <= n < width ==> Bit(w, n) == (n < r) {
      forall n: nat ensures Bit(w, n) == Bit(Mask(r), n) {}
      SameBits(w, Mask(r));
    }
  }

  // The bits of a that are not in b.
  function AndNot(a: nat, b: nat): (r: nat)
    ensures r <= a
  {
    if a == 0 then 0 else (if a % 2 == 1 && b % 2 == 0 then 1 else 0) + 2 * AndNot(a / 2, b / 2)
  }

  lemma {:induction false} AndNotBit(a: nat, b: nat, n: nat)
    ensures Bit(AndNot(a, b), n) == (Bit(a, n) && !Bit(b, n))
    decreases n
  {
    NoBits(n);
    if n > 0 && a > 0 {
      assert AndNot(a, b) / 2 == AndNot(a / 2, b / 2);
      AndNotBit(a / 2, b / 2, n - 1);
    }
  }

  const TWO31 := 0x8000_0000
  const TWO32 := 0x1_0000_0000
  const TWO63 := 0x8000_0000_0000_0000
  const TWO64 := 0x1_0000_0000_0000_0000

  lemma WordSizes()
    ensures Shl(1, 31) == TWO31 && Shl(1, 32) == TWO32
    ensures Shl(1, 63) == TWO63 && Shl(1, 64) == TWO64
  {
    ShlSeven(1, 0); ShlSeven(1, 7); ShlSeven(1, 14); ShlSeven(1, 21);
    ShlSeven(128, 0); ShlSeven(128, 7); ShlSeven(128, 14);
    ShlSeven(16384, 0); ShlSeven(16384, 7); ShlSeven(2097152, 0);
    assert Shl(1, 28) == 268435456;
    assert Shl(1, 30) == 4 * Shl(1, 28);
    assert Shl(1, 32) == 4 * Shl(1, 30);
    ShlTwice(1, 32, 31);
    ShlTwice(1, 31, 32);
    Doubles(TWO31, 32);
  }

  lemma Doubles(v: nat, n: nat)
    requires n == 32
    ensures Shl(v, n) == v * TWO32
  {
    ShlSeven(v, 25); ShlSeven(128 * v, 18); ShlSeven(16384 * v, 11); ShlSeven(2097152 * v, 4);
    assert Shl(268435456 * v, 1) == 2 * (268435456 * v);
    assert Shl(268435456 * v, 3) == 4 * Shl(268435456 * v, 1);
  }
}
