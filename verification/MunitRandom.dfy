/**
  The test framework's random numbers: a 32-bit congruential generator, an
  output permutation, and bounded draws by rejection.  Words are naturals below
  2^32.
 */
module MunitRandom {
  import opened Bits
  import opened FullPeriod

  const W: nat := 0x1_0000_0000
  const MULTIPLIER: nat := 747796405
  const INCREMENT: nat := 1729

  type Word = w: nat | w < 0x1_0000_0000

  function NextState(s: Word): Word {
    (s * MULTIPLIER + INCREMENT) % W
  }

  ghost function Steps(n: nat, s: Word): Word {
    if n == 0 then s else NextState(Steps(n - 1, s))
  }

  /** The generator is the recurrence, reduced. */
  lemma {:induction false} StepsAreIter(n: nat, s: Word) returns (t: int)
    ensures Iter(MULTIPLIER, INCREMENT, n, s) == Steps(n, s) + W * t
  {
    if n == 0 {
      t := 0;
    } else {
      var r := StepsAreIter(n - 1, s);
      var v := Steps(n - 1, s) * MULTIPLIER + INCREMENT;
      t := MULTIPLIER * r + v / W;
      assert v == W * (v / W) + v % W;
      assert MULTIPLIER * (W * r) == W * (MULTIPLIER * r);
    }
  }

  lemma SameResidue(a: Word, b: Word, r: int, t: int)
    requires a + W * r == b + W * t
    ensures a == b
  {
  }

  /** Every state comes after every other within 2^32 steps. */
  lemma EveryStateIsReached(s: Word, y: Word) returns (n: nat)
    ensures n < W && Steps(n, s) == y
  {
    WordSizes();
    var t;
    n, t := Reaches(MULTIPLIER, INCREMENT, 32, s, y);
    var r := StepsAreIter(n, s);
    SameResidue(Steps(n, s), y, r, t);
  }

  /** The state recurs after exactly the multiples of 2^32 steps. */
  lemma PeriodIsFull(n: nat, s: Word)
    ensures Steps(n, s) == s <==> n % W == 0
  {
    WordSizes();
    ReturnsIff(MULTIPLIER, INCREMENT, 32, n, s);
    var r := StepsAreIter(n, s);
    if Steps(n, s) == s {
      assert Iter(MULTIPLIER, INCREMENT, n, s) == s + Pow2(32) * r;
      var m: nat :| n == Pow2(32) * m;
      Multiple(n, m);
    } else if n % W == 0 {
      assert n == Pow2(32) * (n / W);
      var t: int :| Iter(MULTIPLIER, INCREMENT, n, s) == s + Pow2(32) * t;
      SameResidue(Steps(n, s), s, r, t);
    }
  }

  lemma Multiple(n: nat, m: nat)
    requires n == W * m
    ensures n % W == 0
  {
  }

  // ------------------------------------------------------------------
  // The output function
  // ------------------------------------------------------------------

  function Scramble(x: nat): Word {
    x * 277803737 % W
  }

  function Unscramble(x: nat): Word {
    x * 2897767785 % W
  }

  /** Which shift the first step makes: the top bits choose it. */
  function Choice(s: nat, top: nat): nat {
    Shr(s, top) + 4
  }

  /** The output function: the word xored with itself shifted, scrambled by a
      product, and xored with itself shifted again. */
  function Mix(s: nat, top: nat, last: nat): nat {
    Unfold(Scramble(Unfold(s, Choice(s, top))), last)
  }

  function FromState(s: Word): nat {
    Mix(s, 28, 22)
  }

  /** Undoes the first step: a word that was xored with itself shifted by k is
      xored again with itself shifted by k, 2k and 4k. */
  function Unshift(t: nat, k: nat): nat {
    Unfold(Unfold(Unfold(t, k), 2 * k), 4 * k)
  }

  /** The state an output came from. */
  function Unmix(y: nat, top: nat, last: nat): nat {
    var t := Unscramble(Unfold(y, last));
    Unshift(t, Choice(t, top))
  }

  function ToState(y: Word): nat {
    Unmix(y, 28, 22)
  }

  /** Multiplying modulo w by m and then by n, where m n is 1 modulo w. */
  lemma InverseProducts(x: nat, m: nat, n: nat, w: nat, q: nat)
    requires x < w && m * n == 1 + w * q
    ensures (x * m % w) * n % w == x
  {
    var a, r := x * m / w, x * m % w;
    assert x * m == w * a + r;
    assert r * n == x * m * n - w * a * n;
    assert x * m * n == x * (m * n) == x + w * (x * q);
    assert w * a * n == w * (a * n);
    RemainderIs(r * n, w, x * q - a * n, x);
  }

  lemma RemainderIs(v: nat, w: nat, k: int, x: nat)
    requires x < w && v == x + w * k
    ensures v % w == x
  {
    var q, r := v / w, v % w;
    assert v == w * q + r;
    Distribute(w, k, q);
    NoMultipleBetween(w, k - q);
  }

  lemma Distribute(w: int, k: int, q: int)
    ensures w * k - w * q == w * (k - q)
  {
  }

  lemma NoMultipleBetween(w: nat, d: int)
    ensures d == 0 || w * d >= w || w * d + w <= 0
  {
  }

  lemma UndoProducts(u: Word)
    ensures Unscramble(Scramble(u)) == u && Scramble(Unscramble(u)) == u
  {
    var q := (277803737 * 2897767785 - 1) / W;
    InverseProducts(u, 277803737, 2897767785, W, q);
    InverseProducts(u, 2897767785, 277803737, W, q);
  }

  /** The sizes the two shifts fit: words of n bits, the top four of which choose
      the first shift; the last step shifts by half a word or more. */
  ghost predicate Layout(n: nat, top: nat, last: nat) {
    Pow2(n) == W && n == top + 4 && n <= 32 && n <= 2 * last
  }

  lemma TheLayout()
    ensures Layout(32, 28, 22)
  {
    WordSizes();
  }

  lemma UnfoldIsWord(x: Word, n: nat, k: nat)
    requires Pow2(n) == W
    ensures Unfold(x, k) < W
  {
    UnfoldBelow(x, n, k);
  }

  /** The choosing bits are never shifted into. */
  lemma ChoiceStays(x: Word, n: nat, top: nat, k: nat)
    requires Pow2(n) == W && n == top + 4 && 4 <= k
    ensures Choice(Unfold(x, k), top) == Choice(x, top)
  {
    TopBits(x, n, top, k);
  }

  lemma UnshiftUndoes(s: Word, n: nat, k: nat)
    requires Pow2(n) == W && n <= 32 && 4 <= k
    ensures Unshift(Unfold(s, k), k) == s
  {
    Fold(s, k);
    Fold(s, 2 * k);
    Fold(s, 4 * k);
    ShiftedOut(s, n, 8 * k);
  }

  lemma UnfoldTwice(r: Word, n: nat, last: nat)
    requires Pow2(n) == W && n <= 2 * last
    ensures Unfold(Unfold(r, last), last) == r
  {
    Fold(r, last);
    ShiftedOut(r, n, 2 * last);
  }

  /** Unshifting keeps the choice, and shifting again undoes it. */
  lemma UnshiftIsUndone(t: Word, n: nat, top: nat, k: nat)
    requires Pow2(n) == W && n == top + 4 && n <= 32 && 4 <= k
    ensures Unshift(t, k) < W && Choice(Unshift(t, k), top) == Choice(t, top)
    ensures Unfold(Unshift(t, k), k) == t
  {
    var a := Unfold(t, k);
    UnfoldIsWord(t, n, k);
    var b := Unfold(a, 2 * k);
    UnfoldIsWord(a, n, 2 * k);
    UnfoldIsWord(b, n, 4 * k);
    ChoiceStays(t, n, top, k);
    ChoiceStays(a, n, top, 2 * k);
    ChoiceStays(b, n, top, 4 * k);
    UnfoldsCommute(b, 4 * k, k);
    UnfoldsCommute(a, 2 * k, k);
    UnshiftUndoes(t, n, k);
  }

  lemma UnmixOfMix(s: Word, n: nat, top: nat, last: nat)
    requires Layout(n, top, last)
    ensures Mix(s, top, last) < W && Unmix(Mix(s, top, last), top, last) == s
  {
    var k := Choice(s, top);
    var u := Unfold(s, k);
    UnfoldIsWord(s, n, k);
    ChoiceStays(s, n, top, k);
    UnshiftUndoes(s, n, k);
    UnfoldIsWord(Scramble(u), n, last);
    UnfoldTwice(Scramble(u), n, last);
    UndoProducts(u);
  }

  lemma MixOfUnmix(y: Word, n: nat, top: nat, last: nat)
    requires Layout(n, top, last)
    ensures Unmix(y, top, last) < W && Mix(Unmix(y, top, last), top, last) == y
  {
    var u := Unfold(y, last);
    UnfoldIsWord(y, n, last);
    UnshiftIsUndone(Unscramble(u), n, top, Choice(Unscramble(u), top));
    UndoProducts(u);
    UnfoldTwice(y, n, last);
  }

  /** Every state can be told from its output ... */
  lemma ToStateOfOutput(s: Word)
    ensures FromState(s) < W && ToState(FromState(s)) == s
  {
    TheLayout();
    UnmixOfMix(s, 32, 28, 22);
  }

  /** ... and every word is some state's output: the output function permutes the
      32-bit words. */
  lemma OutputOfToState(y: Word)
    ensures ToState(y) < W && FromState(ToState(y)) == y
  {
    TheLayout();
    MixOfUnmix(y, 32, 28, 22);
  }

  lemma WordParts()
    ensures Pow2(9) == 0x200 && Pow2(10) == 0x400 && Pow2(12) == 0x1000 && Pow2(16) == 0x1_0000
    ensures Pow2(19) == 0x8_0000 && Pow2(22) == 0x40_0000 && Pow2(28) == 0x1000_0000
  {
    WordSizes();
    assert Pow2(3) == 8 && Pow2(5) == 0x20;
    Pow2Sum(4, 4);
    Pow2Sum(4, 5);
    Pow2Sum(5, 5);
    Pow2Sum(8, 4);
    Pow2Sum(8, 8);
    Pow2Sum(16, 3);
    Pow2Sum(19, 3);
    Pow2Sum(12, 16);
  }

  /** The output function's two steps. */
  lemma MixIs(s: Word, top: nat, last: nat, k: nat, t: nat, z: nat, y: nat)
    requires Choice(s, top) == k && Unfold(s, k) == t && Scramble(t) == z && Unfold(z, last) == y
    ensures Mix(s, top, last) == y
  {
  }

  lemma ChoiceIs(s: Word, top: nat, p: nat)
    requires 0 < p == Pow2(top)
    ensures Choice(s, top) == s / p + 4
  {
    ShrIs(s, top);
  }

  /** What the generator gives, worked out by hand: from a small state ... */
  lemma KnownWord(s: Word)
    requires s == 0x4000
    ensures NextState(s) == 0x9DED_46C1 && FromState(s) == 0xF881_A7E2
  {
    WordParts();
    WordSizes();
    ChoiceIs(s, 28, 0x1000_0000);
    UnfoldApart(s, 0x4, 12, 0x1000, 4, 0x10, 0x400);
    UnfoldApart(0xF881_A400, 0x3E_2069, 10, 0x400, 22, 0x40_0000, 0x3E2);
    MixIs(s, 28, 22, 4, 0x4400, 0xF881_A400, 0xF881_A7E2);
  }

  /** ... and from one whose top bits choose a long shift. */
  lemma KnownLongShift(s: Word)
    requires s == 0xF000_0000
    ensures NextState(s) == 0xB000_06C1 && FromState(s) == 0x3075_6EC1
  {
    WordParts();
    ChoiceIs(s, 28, 0x1000_0000);
    UnfoldApart(s, 0xF000, 16, 0x1_0000, 19, 0x8_0000, 0x1E00);
    UnfoldApart(0x3075_6E00, 0x18_3AB7, 9, 0x200, 22, 0x40_0000, 0xC1);
    MixIs(s, 28, 22, 19, 0xF000_1E00, 0x3075_6E00, 0x3075_6EC1);
  }

  // ------------------------------------------------------------------
  // Bounded draws
  // ------------------------------------------------------------------

  /** What a draw yields in state `s`. */
  function Draw(s: Word, salt: Word): nat {
    Xor(FromState(s), salt)
  }

  /** The salt is xored to what the state gives. */
  lemma SaltIsXored(s: Word, a: Word, b: Word)
    ensures Draw(s, 0) == FromState(s) && Xor(Draw(s, a), Draw(s, b)) == Xor(a, b)
  {
    XorZero(FromState(s));
    XorCommutes(FromState(s), a);
    Cancels(a, FromState(s), b);
  }

  lemma DrawIsWord(s: Word, salt: Word)
    ensures Draw(s, salt) < W
  {
    ToStateOfOutput(s);
    WordSizes();
    XorBelow(FromState(s), salt, 32);
  }

  /** The draws below this are rejected. */
  function Threshold(max: Word): Word
    requires max > 0
  {
    (W - max) % max
  }

  lemma ThresholdIs(max: Word)
    requires max > 0
    ensures Threshold(max) == W % max
  {
    var q := (W - max) / max;
    assert W - max == max * q + Threshold(max);
    RemainderIs(W, max, q + 1, Threshold(max));
  }

  /** Some state draws the largest word, which is never rejected. */
  lemma SomeDrawIsAccepted(salt: Word) returns (s: Word)
    ensures Draw(s, salt) == W - 1
  {
    WordSizes();
    XorBelow(W - 1, salt, 32);
    var y := Xor(W - 1, salt);
    OutputOfToState(y);
    s := ToState(y);
    XorAssociates(W - 1, salt, salt);
    XorSelf(salt);
    XorZero(W - 1);
  }

  /** The first `n` draws fall below the threshold. */
  ghost predicate AllRejected(start: Word, salt: Word, max: Word, n: nat)
    requires max > 0
  {
    forall i :: 0 <= i < n ==> Draw(Steps(i, start), salt) < Threshold(max)
  }

  /** From `start` the `n`-th draw is the first that is accepted, and `x` what it
      gives. */
  ghost predicate FirstAccepted(start: Word, salt: Word, max: Word, state: Word, x: Word, n: nat)
    requires max > 0
  {
    && n > 0 && state == Steps(n, start)
    && var d := Draw(Steps(n - 1, start), salt);
       if max == W - 1 then n == 1 && x == d
       else d >= Threshold(max) && x == d % (max + 1) && AllRejected(start, salt, max, n - 1)
  }

  /** A draw of at most `max`, and the state after it: draws are repeated until
      one is not below the threshold -- within one period that happens. */
  method AtMost(start: Word, salt: Word, max: Word) returns (state: Word, x: Word, ghost n: nat)
    requires max > 0
    ensures x <= max && FirstAccepted(start, salt, max, state, x, n)
  {
    state, n := start, 0;
    var min := Threshold(max);
    if max == W - 1 {
      DrawIsWord(state, salt);
      x := Draw(state, salt);
      state, n := NextState(state), 1;
      return;
    }
    ghost var goal := SomeDrawIsAccepted(salt);
    ghost var last := EveryStateIsReached(start, goal);
    DrawIsWord(state, salt);
    x := Draw(state, salt);
    state, n := NextState(state), 1;
    while x < min
      invariant 0 < n <= last + 1 && state == Steps(n, start) && x == Draw(Steps(n - 1, start), salt)
      invariant AllRejected(start, salt, max, n - 1)
      decreases last + 1 - n
    {
      assert n - 1 != last;
      DrawIsWord(state, salt);
      x := Draw(state, salt);
      state, n := NextState(state), n + 1;
    }
    x := x % (max + 1);
  }

  /** The same on the shared state: `loads` are the states that successive
      attempts find there.  All but the last attempt lose the compare-and-swap to
      another thread; the draw is made from the state it replaces. */
  method RandAtMost(loads: seq<Word>, salt: Word, max: Word) returns (state: Word, x: Word, ghost n: nat)
    requires max > 0 && loads != []
    ensures x <= max && FirstAccepted(loads[|loads| - 1], salt, max, state, x, n)
  {
    state, x, n := AtMost(loads[0], salt, max);
    var i := 1;
    while i < |loads|
      invariant 1 <= i <= |loads|
      invariant x <= max && FirstAccepted(loads[i - 1], salt, max, state, x, n)
    {
      state, x, n := AtMost(loads[i], salt, max);
      i := i + 1;
    }
  }

  predicate IsInt(v: int) {
    -0x8000_0000 <= v < 0x8000_0000
  }

  /** The difference of two ints as 64-bit words, cut to 32 bits. */
  function Range(min: int, max: int): Word {
    var range := (max - min) % 0x1_0000_0000_0000_0000;
    if range > W - 1 then W - 1 else range
  }

  /** The sum of an int and a word, as a 32-bit int. */
  function Offset(min: int, x: Word): int {
    var sum := (min % W + x) % W;
    if sum < 0x8000_0000 then sum else sum - W
  }

  lemma RangeIs(min: int, max: int)
    requires IsInt(min) && IsInt(max) && min < max
    ensures Range(min, max) == max - min
  {
  }

  lemma OffsetIs(min: int, x: Word, max: int)
    requires IsInt(min) && IsInt(max) && min + x <= max
    ensures Offset(min, x) == min + x
  {
  }

  /** A 32-bit int from the range between two bounds, either way round.  Equal
      bounds would divide by zero. */
  method IntRange(loads: seq<Word>, min: int, max: int) returns (state: Word, r: int, ghost n: nat)
    requires IsInt(min) && IsInt(max) && min != max && loads != []
    ensures var lo, hi := if min < max then min else max, if min < max then max else min;
            lo <= r <= hi && FirstAccepted(loads[|loads| - 1], 0, hi - lo, state, r - lo, n)
    decreases if min > max then 1 else 0
  {
    if min > max {
      state, r, n := IntRange(loads, max, min);
      return;
    }
    var x;
    RangeIs(min, max);
    state, x, n := RandAtMost(loads, 0, Range(min, max));
    OffsetIs(min, x, max);
    r := Offset(min, x);
  }

  // ------------------------------------------------------------------
  // Uniformity
  // ------------------------------------------------------------------

  /** How many numbers from `lo` up to `hi` leave the remainder `r`. */
  ghost function Count(lo: nat, hi: nat, m: nat, r: nat): nat
    requires lo <= hi && m > 0
    decreases hi
  {
    if lo == hi then 0 else Count(lo, hi - 1, m, r) + if (hi - 1) % m == r then 1 else 0
  }

  lemma {:induction false} CountSum(lo: nat, mid: nat, hi: nat, m: nat, r: nat)
    requires lo <= mid <= hi && m > 0
    ensures Count(lo, hi, m, r) == Count(lo, mid, m, r) + Count(mid, hi, m, r)
    decreases hi
  {
    if mid < hi {
      CountSum(lo, mid, hi - 1, m, r);
    }
  }

  /** Fewer than m consecutive numbers have different remainders. */
  lemma {:induction false} CountShort(lo: nat, t: nat, m: nat, r: nat)
    requires t <= m && m > 0 && r < m
    ensures Count(lo, lo + t, m, r) == if (exists i :: lo <= i < lo + t && i % m == r) then 1 else 0
    decreases t
  {
    if t > 0 {
      CountShort(lo, t - 1, m, r);
      if (lo + t - 1) % m == r {
        forall i | lo <= i < lo + t - 1
          ensures i % m != r
        {
          Different(i, lo + t - 1, m);
        }
      }
    }
  }

  lemma Different(i: nat, j: nat, m: nat)
    requires m > 0 && i < j < i + m
    ensures i % m != j % m
  {
    var p, q := i / m, j / m;
    assert i == m * p + i % m && j == m * q + j % m;
    Distribute(m, q, p);
    NoMultipleBetween(m, q - p);
  }

  /** m consecutive numbers have every remainder once. */
  lemma CountFull(lo: nat, m: nat, r: nat)
    requires m > 0 && r < m
    ensures Count(lo, lo + m, m, r) == 1
  {
    CountShort(lo, m, m, r);
    var q, s := lo / m, lo % m;
    assert lo == m * q + s;
    var i := if s <= r then m * q + r else m * q + m + r;
    assert i % m == r by {
      RemainderIs(i, m, if s <= r then q else q + 1, r);
    }
    assert lo <= i < lo + m;
  }

  lemma {:induction false} CountMultiple(lo: nat, k: nat, m: nat, r: nat)
    requires m > 0 && r < m
    ensures Count(lo, lo + m * k, m, r) == k
    decreases k
  {
    if k > 0 {
      CountMultiple(lo, k - 1, m, r);
      var mid := lo + m * (k - 1);
      assert mid + m == lo + m * k;
      CountSum(lo, mid, mid + m, m, r);
      CountFull(mid, m, r);
    }
  }

  /** The accepted draws are shared evenly by the results exactly if their number
      is divisible by the number of results. */
  ghost predicate Even(lo: nat, hi: nat, m: nat)
    requires lo <= hi && m > 0
  {
    forall r, s :: 0 <= r < m && 0 <= s < m ==> Count(lo, hi, m, r) == Count(lo, hi, m, s)
  }

  /** Some, but fewer than m numbers leave one remainder and miss another. */
  lemma SomeAreMissed(mid: nat, t: nat, m: nat) returns (r: nat, s: nat)
    requires 0 < t < m
    ensures r < m && s < m && Count(mid, mid + t, m, r) == 1 && Count(mid, mid + t, m, s) == 0
  {
    r, s := mid % m, (mid + t) % m;
    CountShort(mid, t, m, r);
    CountShort(mid, t, m, s);
    forall i | mid <= i < mid + t
      ensures i % m != s
    {
      Different(i, mid + t, m);
    }
  }

  /** `k` full rounds up to `mid`, and a rest. */
  lemma EvenRounds(lo: nat, mid: nat, hi: nat, m: nat, k: nat)
    requires lo <= mid <= hi < mid + m && mid == lo + m * k
    ensures Even(lo, hi, m) <==> mid == hi
  {
    forall r | 0 <= r < m
      ensures Count(lo, hi, m, r) == k + Count(mid, hi, m, r)
    {
      CountMultiple(lo, k, m, r);
      CountSum(lo, mid, hi, m, r);
    }
    if mid < hi {
      var r, s := SomeAreMissed(mid, hi - mid, m);
      assert Count(lo, hi, m, r) == k + 1 && Count(lo, hi, m, s) == k;
    }
  }

  lemma EvenIff(lo: nat, hi: nat, m: nat)
    requires lo <= hi && m > 0
    ensures Even(lo, hi, m) <==> (hi - lo) % m == 0
  {
    var k := (hi - lo) / m;
    assert hi - lo == m * k + (hi - lo) % m;
    EvenRounds(lo, lo + m * k, hi, m, k);
  }

  /** The draw is even if and only if max+1 divides 2^32 - (2^32 mod max).  The
      threshold is taken modulo max, before max is increased, so in general it
      is not. */
  lemma AtMostIsEvenIff(max: Word)
    requires 0 < max < W - 1
    ensures Even(Threshold(max), W, max + 1) <==> (W - W % max) % (max + 1) == 0
  {
    ThresholdIs(max);
    EvenIff(Threshold(max), W, max + 1);
  }

  /** It is not for the results 0, 1 and 2. */
  lemma UnevenForThree()
    ensures !Even(Threshold(2), W, 3)
  {
    AtMostIsEvenIff(2);
  }
}
