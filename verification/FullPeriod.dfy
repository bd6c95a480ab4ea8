/**
  A linear congruential generator modulo a power of two, and when it returns to
  where it was.
 */
module FullPeriod {
  import opened Bits

  /** The recurrence on unbounded integers; modulo 2^k it is the generator. */
  function Iter(a: int, c: int, n: nat, x: int): int {
    if n == 0 then x else a * Iter(a, c, n - 1, x) + c
  }

  lemma {:induction false} IterSum(a: int, c: int, m: nat, n: nat, x: int)
    ensures Iter(a, c, m + n, x) == Iter(a, c, n, Iter(a, c, m, x))
  {
    if n > 0 {
      IterSum(a, c, m, n - 1, x);
    }
  }

  /** Iterates of two starting points keep their distance, times a power of the
      multiplier -- and that power is 1 modulo 4 if the multiplier is. */
  lemma {:induction false} IterSpread(a: int, c: int, n: nat, x: int, y: int) returns (p: int)
    requires a % 4 == 1
    ensures Iter(a, c, n, y) - Iter(a, c, n, x) == (4 * p + 1) * (y - x)
  {
    if n == 0 {
      p := 0;
    } else {
      var q := IterSpread(a, c, n - 1, x, y);
      p := 4 * ((a / 4) * q) + a / 4 + q;
      Spread(a, q, p, Iter(a, c, n - 1, x), Iter(a, c, n - 1, y), y - x);
    }
  }

  lemma Spread(a: int, q: int, p: int, x: int, y: int, d: int)
    requires a % 4 == 1 && p == 4 * ((a / 4) * q) + a / 4 + q && y - x == (4 * q + 1) * d
    ensures a * y - a * x == (4 * p + 1) * d
  {
    var b, u := a / 4, 4 * q + 1;
    assert a == 4 * b + 1;
    assert a * u == 4 * p + 1 by {
      assert a * u == 4 * (a * q) + a && a * q == 4 * (b * q) + q;
    }
    assert a * y - a * x == a * (y - x) == a * (u * d) == (a * u) * d;
  }

  /** 2^k steps move by an odd multiple of 2^k. */
  lemma {:induction false} PowerStep(a: int, c: int, k: nat, x: int) returns (q: int)
    requires a % 4 == 1 && c % 2 == 1
    ensures Iter(a, c, Pow2(k), x) == x + Pow2(k) * (2 * q + 1)
  {
    if k == 0 {
      assert Iter(a, c, 1, x) == a * Iter(a, c, 0, x) + c;
      var b, e := a / 4, c / 2;
      assert a == 4 * b + 1 && c == 2 * e + 1;
      q := 2 * (b * x) + e;
      assert a * x == 4 * (b * x) + x;
    } else {
      var h := Pow2(k - 1);
      var r := PowerStep(a, c, k - 1, x);
      var y := x + h * (2 * r + 1);
      IterSum(a, c, h, h, x);
      var p := IterSpread(a, c, h, x, y);
      // Iter(h, y) == y + (4p + 1)(y - x) == x + (4p + 2) h (2r + 1)
      q := 2 * p * r + p + r;
      Expand(h, p, r, q);
    }
  }

  lemma Expand(h: int, p: int, r: int, q: int)
    requires q == 2 * p * r + p + r
    ensures h * (2 * r + 1) + (4 * p + 1) * (h * (2 * r + 1)) == 2 * h * (2 * q + 1)
  {
    var w := h * (2 * r + 1);
    assert w + (4 * p + 1) * w == (4 * p + 2) * w;
    assert (4 * p + 2) * w == 2 * h * ((2 * p + 1) * (2 * r + 1)) by {
      assert (2 * p + 1) * w == h * ((2 * p + 1) * (2 * r + 1));
    }
    assert (2 * p + 1) * (2 * r + 1) == 4 * (p * r) + 2 * p + 2 * r + 1;
  }

  /** m times 2^e steps move by 2^e times a number of m's parity. */
  lemma {:induction false} Jump(a: int, c: int, e: nat, m: nat, x: int) returns (q: int)
    requires a % 4 == 1 && c % 2 == 1
    ensures Iter(a, c, Pow2(e) * m, x) == x + Pow2(e) * (2 * q + m)
  {
    if m == 0 {
      q := 0;
    } else {
      var r := Jump(a, c, e, m - 1, x);
      var y := Iter(a, c, Pow2(e) * (m - 1), x);
      var s := PowerStep(a, c, e, y);
      assert Pow2(e) * m == Pow2(e) * (m - 1) + Pow2(e);
      IterSum(a, c, Pow2(e) * (m - 1), Pow2(e), x);
      q := r + s;
      assert Pow2(e) * (2 * r + (m - 1)) + Pow2(e) * (2 * s + 1) == Pow2(e) * (2 * q + m);
    }
  }

  /** From every x some number of fewer than 2^k steps leads to every y, modulo
      2^k: all residues are visited. */
  lemma {:induction false} Reaches(a: int, c: int, k: nat, x: int, y: int) returns (n: nat, t: int)
    requires a % 4 == 1 && c % 2 == 1
    ensures n < Pow2(k) && Iter(a, c, n, x) == y + Pow2(k) * t
  {
    if k == 0 {
      n, t := 0, x - y;
    } else {
      var h := Pow2(k - 1);
      var s;
      n, s := Reaches(a, c, k - 1, x, y);
      if s % 2 == 0 {
        t := s / 2;
        Halved(h, s, t);
      } else {
        t := StepFurther(a, c, k - 1, n, x, y, s);
        n := n + h;
      }
    }
  }

  lemma StepFurther(a: int, c: int, k: nat, n: nat, x: int, y: int, s: int) returns (t: int)
    requires a % 4 == 1 && c % 2 == 1 && s % 2 == 1 && Iter(a, c, n, x) == y + Pow2(k) * s
    ensures Iter(a, c, n + Pow2(k), x) == y + 2 * Pow2(k) * t
  {
    var h := Pow2(k);
    var q := PowerStep(a, c, k, Iter(a, c, n, x));
    IterSum(a, c, n, h, x);
    t := OddAndOdd(y, h, s, q);
  }

  lemma Halved(h: int, s: int, t: int)
    requires s == 2 * t
    ensures h * s == 2 * h * t
  {
  }

  /** Two odd multiples make an even one. */
  lemma OddAndOdd(y: int, h: int, s: int, q: int) returns (t: int)
    requires s % 2 == 1
    ensures (y + h * s) + h * (2 * q + 1) == y + 2 * h * t
  {
    t := s / 2 + q + 1;
    assert s + (2 * q + 1) == 2 * t;
    assert h * s + h * (2 * q + 1) == h * (s + (2 * q + 1)) == h * (2 * t) == 2 * h * t;
  }

  /** The odd part of a positive number. */
  lemma {:induction false} OddPart(n: nat) returns (e: nat, m: nat)
    requires n > 0
    ensures n == Pow2(e) * m && m % 2 == 1
  {
    if n % 2 == 1 {
      e, m := 0, n;
    } else {
      e, m := OddPart(n / 2);
      e := e + 1;
      assert n == 2 * (Pow2(e - 1) * m);
    }
  }

  lemma FactorOut(a: int, b: int, p: int)
    requires p != 0 && p * a == p * b
    ensures a == b
  {
  }

  /** n steps move by an odd multiple of the largest power of two in n. */
  lemma OddMove(a: int, c: int, n: nat, x: int) returns (e: nat, m: nat, odd: int)
    requires a % 4 == 1 && c % 2 == 1 && n > 0
    ensures n == Pow2(e) * m && m % 2 == 1 && odd % 2 == 1 && Iter(a, c, n, x) == x + Pow2(e) * odd
  {
    e, m := OddPart(n);
    var q := Jump(a, c, e, m, x);
    odd := 2 * q + m;
  }

  /** The generator is back at x, modulo 2^k, after exactly the multiples of 2^k
      steps: its period is full. */
  lemma ReturnsIff(a: int, c: int, k: nat, n: nat, x: int)
    requires a % 4 == 1 && c % 2 == 1
    ensures (exists t: int :: Iter(a, c, n, x) == x + Pow2(k) * t) <==> (exists m: nat :: n == Pow2(k) * m)
  {
    if n == 0 {
      assert Iter(a, c, 0, x) == x + Pow2(k) * 0 && n == Pow2(k) * 0;
    } else {
      var e, m, odd := OddMove(a, c, n, x);
      if e >= k {
        Divisible(k, e, odd);
        Divisible(k, e, m);
      } else {
        forall t: int
          ensures Pow2(k) * t != Pow2(e) * odd && Pow2(k) * t != Pow2(e) * m
        {
          NotDivisible(k, e, t, odd);
          NotDivisible(k, e, t, m);
        }
      }
    }
  }

  lemma Divisible(k: nat, e: nat, odd: int)
    requires e >= k
    ensures Pow2(e) * odd == Pow2(k) * (Pow2(e - k) * odd)
  {
    Pow2Sum(k, e - k);
    Regroup(Pow2(k), Pow2(e - k), odd);
  }

  lemma NotDivisible(k: nat, e: nat, t: int, odd: int)
    requires e < k && odd % 2 == 1
    ensures Pow2(k) * t != Pow2(e) * odd
  {
    Pow2Sum(e + 1, k - e - 1);
    NotOdd(Pow2(e), Pow2(k - e - 1), t, odd);
  }

  lemma Regroup(p: int, f: int, m: int)
    ensures (p * f) * m == p * (f * m)
  {
  }

  lemma NotOdd(p: int, f: int, t: int, odd: int)
    requires p > 0 && odd % 2 == 1
    ensures 2 * p * f * t != p * odd
  {
    if 2 * p * f * t == p * odd {
      assert p * (2 * (f * t)) == p * odd;
      FactorOut(2 * (f * t), odd, p);
    }
  }
}
