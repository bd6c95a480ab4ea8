/**
  Machine words as natural numbers: powers of two, shifts, and exclusive or
  digit by digit.
 */
module Bits {

  function Pow2(n: nat): (p: nat)
    ensures p > 0
  {
    if n == 0 then 1 else 2 * Pow2(n - 1)
  }

  lemma {:induction false} Pow2Sum(a: nat, b: nat)
    ensures Pow2(a + b) == Pow2(a) * Pow2(b)
  {
    if b > 0 {
      Pow2Sum(a, b - 1);
      assert Pow2(a) * (2 * Pow2(b - 1)) == 2 * (Pow2(a) * Pow2(b - 1));
    }
  }

  lemma {:induction false} Pow2Grows(a: nat, b: nat)
    requires a < b
    ensures 2 * Pow2(a) <= Pow2(b)
  {
    if a + 1 < b {
      Pow2Grows(a, b - 1);
    }
  }

  lemma WordSizes()
    ensures Pow2(4) == 0x10 && Pow2(32) == 0x1_0000_0000 && Pow2(64) == 0x1_0000_0000_0000_0000
  {
    assert Pow2(2) == 4 by {
      assert Pow2(1) == 2;
    }
    Pow2Sum(2, 2);
    Twofold(4, 0x10);
    Twofold(8, 0x100);
    Twofold(16, 0x1_0000);
    Twofold(32, 0x1_0000_0000);
  }

  /** The square of a power of two. */
  lemma Twofold(n: nat, p: nat)
    requires Pow2(n) == p
    ensures Pow2(2 * n) == p * p
  {
    Pow2Sum(n, n);
    assert 2 * n == n + n;
  }

  function Xor(x: nat, y: nat): nat {
    if x == 0 && y == 0 then 0 else (if x % 2 == y % 2 then 0 else 1) + 2 * Xor(x / 2, y / 2)
  }

  /** `x >> k`. */
  function Shr(x: nat, k: nat): nat {
    if k == 0 then x else Shr(x / 2, k - 1)
  }

  lemma {:induction false} XorCommutes(x: nat, y: nat)
    ensures Xor(x, y) == Xor(y, x)
  {
    if x != 0 || y != 0 {
      XorCommutes(x / 2, y / 2);
    }
  }

  lemma {:induction false} XorZero(x: nat)
    ensures Xor(x, 0) == x
  {
    if x != 0 {
      XorZero(x / 2);
    }
  }

  lemma {:induction false} XorSelf(x: nat)
    ensures Xor(x, x) == 0
  {
    if x != 0 {
      XorSelf(x / 2);
    }
  }

  lemma XorDigits(x: nat, y: nat)
    ensures Xor(x, y) / 2 == Xor(x / 2, y / 2) && Xor(x, y) % 2 == if x % 2 == y % 2 then 0 else 1
  {
    var r := Xor(x / 2, y / 2);
    if x != 0 || y != 0 {
      Digits(if x % 2 == y % 2 then 0 else 1, r);
    }
  }

  lemma Digits(b: nat, r: nat)
    requires b < 2
    ensures (b + 2 * r) / 2 == r && (b + 2 * r) % 2 == b
  {
  }

  lemma {:induction false} XorAssociates(x: nat, y: nat, z: nat)
    ensures Xor(Xor(x, y), z) == Xor(x, Xor(y, z))
    decreases x + y + z
  {
    if x != 0 || y != 0 || z != 0 {
      XorAssociates(x / 2, y / 2, z / 2);
      XorDigits(x, y);
      XorDigits(y, z);
      XorDigits(Xor(x, y), z);
      XorDigits(x, Xor(y, z));
      SameDigits(Xor(Xor(x, y), z), Xor(x, Xor(y, z)));
    }
  }

  lemma SameDigits(a: nat, b: nat)
    requires a / 2 == b / 2 && a % 2 == b % 2
    ensures a == b
  {
  }

  lemma Cancels(x: nat, y: nat, z: nat)
    ensures Xor(Xor(x, y), Xor(y, z)) == Xor(x, z)
  {
    XorAssociates(x, y, Xor(y, z));
    XorAssociates(y, y, z);
    XorSelf(y);
    XorCommutes(0, z);
    XorZero(z);
  }

  lemma {:induction false} XorBelow(x: nat, y: nat, n: nat)
    requires x < Pow2(n) && y < Pow2(n)
    ensures Xor(x, y) < Pow2(n)
  {
    if n > 0 {
      XorBelow(x / 2, y / 2, n - 1);
    }
  }

  lemma {:induction false} ShrOfXor(x: nat, y: nat, k: nat)
    ensures Shr(Xor(x, y), k) == Xor(Shr(x, k), Shr(y, k))
  {
    if k > 0 {
      XorDigits(x, y);
      ShrOfXor(x / 2, y / 2, k - 1);
    }
  }

  lemma {:induction false} ShrSum(x: nat, i: nat, j: nat)
    ensures Shr(Shr(x, i), j) == Shr(x, i + j)
  {
    if i > 0 {
      ShrSum(x / 2, i - 1, j);
    }
  }

  lemma {:induction false} ShrBelow(x: nat, n: nat, k: nat)
    requires x < Pow2(n + k)
    ensures Shr(x, k) < Pow2(n)
  {
    if k > 0 {
      ShrBelow(x / 2, n, k - 1);
    }
  }

  lemma {:induction false} ShrAtMost(x: nat, k: nat)
    ensures Shr(x, k) <= x
  {
    if k > 0 {
      ShrAtMost(x / 2, k - 1);
    }
  }

  /** The lowest `n` bits. */
  function Low(x: nat, n: nat): nat {
    if n == 0 then 0 else x % 2 + 2 * Low(x / 2, n - 1)
  }

  lemma LowDigits(x: nat, n: nat)
    requires n > 0
    ensures Low(x, n) / 2 == Low(x / 2, n - 1) && Low(x, n) % 2 == x % 2
  {
    Digits(x % 2, Low(x / 2, n - 1));
  }

  lemma QuotientIs(n: nat, d: nat, q: nat, r: nat)
    requires r < d && n == q * d + r
    ensures n / d == q && n % d == r
  {
    var q', r' := n / d, n % d;
    assert n == q' * d + r';
    assert (q' - q) * d == r - r';
    NoMultiple(d, q' - q);
  }

  lemma NoMultiple(d: nat, k: int)
    ensures k == 0 || k * d >= d || k * d + d <= 0
  {
  }

  lemma HalfThen(x: nat, p: nat)
    requires p > 0
    ensures x / 2 / p == x / (2 * p) && x % (2 * p) == x % 2 + 2 * (x / 2 % p)
  {
    var q, r := x / 2 / p, x / 2 % p;
    assert x / 2 == q * p + r;
    assert x == q * (2 * p) + (2 * r + x % 2);
    QuotientIs(x, 2 * p, q, 2 * r + x % 2);
  }

  /** A shift divides, and what it drops is the remainder. */
  lemma {:induction false} ShrIs(x: nat, k: nat)
    ensures Shr(x, k) == x / Pow2(k) && Low(x, k) == x % Pow2(k)
  {
    if k > 0 {
      ShrIs(x / 2, k - 1);
      HalfThen(x, Pow2(k - 1));
    }
  }

  lemma XorHalves(x: nat, y: nat)
    ensures Xor(x, y) == (if x % 2 == y % 2 then 0 else 1) + 2 * Xor(x / 2, y / 2)
  {
    XorDigits(x, y);
  }

  lemma Regroup(b: nat, p: nat, h: nat, l: nat)
    ensures b + 2 * (p * h + l) == 2 * p * h + (b + 2 * l)
  {
  }

  lemma {:induction false} XorSplit(x: nat, y: nat, n: nat)
    ensures Xor(x, y) == Pow2(n) * Xor(Shr(x, n), Shr(y, n)) + Xor(Low(x, n), Low(y, n))
  {
    if n == 0 {
      assert Low(x, 0) == 0 && Low(y, 0) == 0;
    } else {
      XorSplit(x / 2, y / 2, n - 1);
      XorHalves(x, y);
      XorHalves(Low(x, n), Low(y, n));
      LowDigits(x, n);
      LowDigits(y, n);
      Regroup(if x % 2 == y % 2 then 0 else 1, Pow2(n - 1), Xor(Shr(x / 2, n - 1), Shr(y / 2, n - 1)),
              Xor(Low(x / 2, n - 1), Low(y / 2, n - 1)));
    }
  }

  /** The high and the low parts of two words are xored apart. */
  lemma XorOfParts(g: nat, l: nat, h: nat, m: nat, n: nat, p: nat)
    requires 0 < p == Pow2(n) && l < p && m < p
    ensures p * g + l >= 0 && p * h + m >= 0
    ensures Xor(p * g + l, p * h + m) == p * Xor(g, h) + Xor(l, m)
  {
    var x, y := p * g + l, p * h + m;
    XorSplit(x, y, n);
    ShrIs(x, n);
    ShrIs(y, n);
    QuotientIs(x, p, g, l);
    QuotientIs(y, p, h, m);
  }

  /** Words no digits of which meet. */
  lemma FarApart(h: nat, y: nat, n: nat, p: nat)
    requires 0 < p == Pow2(n) && y < p
    ensures p * h >= 0 && Xor(p * h, y) == p * h + y
  {
    XorOfParts(h, 0, 0, y, n, p);
    XorZero(h);
    XorCommutes(0, y);
    XorZero(y);
  }

  // ------------------------------------------------------------------
  // A word xored with a shift of itself
  // ------------------------------------------------------------------

  function Unfold(x: nat, k: nat): nat {
    Xor(x, Shr(x, k))
  }

  /** Doing it twice doubles the shift that is left. */
  lemma Fold(x: nat, k: nat)
    ensures Unfold(Unfold(x, k), k) == Unfold(x, 2 * k)
  {
    ShrOfXor(x, Shr(x, k), k);
    ShrSum(x, k, k);
    Cancels(x, Shr(x, k), Shr(x, 2 * k));
  }

  lemma UnfoldsCommute(x: nat, i: nat, j: nat)
    ensures Unfold(Unfold(x, i), j) == Unfold(Unfold(x, j), i)
  {
    var a, b, c := Shr(x, i), Shr(x, j), Shr(x, i + j);
    ShrOfXor(x, a, j);
    ShrOfXor(x, b, i);
    ShrSum(x, i, j);
    ShrSum(x, j, i);
    XorAssociates(x, a, Xor(b, c));
    XorAssociates(a, b, c);
    XorCommutes(a, b);
    XorAssociates(b, a, c);
    XorAssociates(x, b, Xor(a, c));
  }

  /** A shift by the width or more leaves nothing. */
  lemma ShiftedOut(x: nat, n: nat, k: nat)
    requires x < Pow2(n) && n <= k
    ensures Shr(x, k) == 0 && Unfold(x, k) == x
  {
    ShrSum(x, n, k - n);
    ShrBelow(x, 0, n);
    ShrAtMost(Shr(x, n), k - n);
    XorZero(x);
  }

  lemma UnfoldBelow(x: nat, n: nat, k: nat)
    requires x < Pow2(n)
    ensures Unfold(x, k) < Pow2(n)
  {
    ShrAtMost(x, k);
    XorBelow(x, Shr(x, k), n);
  }

  /** Bits that nothing is shifted into stay. */
  lemma TopBits(x: nat, n: nat, m: nat, k: nat)
    requires x < Pow2(n) && n <= m + k
    ensures Shr(Unfold(x, k), m) == Shr(x, m)
  {
    ShrOfXor(x, Shr(x, k), m);
    ShrSum(x, k, m);
    ShiftedOut(x, n, k + m);
    XorZero(Shr(x, m));
  }

  /** Where no digits meet, it is the sum. */
  lemma UnfoldApart(x: nat, h: nat, n: nat, p: nat, k: nat, d: nat, shifted: nat)
    requires 0 < p == Pow2(n) && x == p * h && 0 < d == Pow2(k) && x / d == shifted < p
    ensures Unfold(x, k) == x + shifted
  {
    ShrIs(x, k);
    FarApart(h, shifted, n, p);
  }
}
