/**
  The benchmark's generator and its array shuffle.
 */
module Shuffle {
  import opened Bits

  // ------------------------------------------------------------------
  // The generator
  // ------------------------------------------------------------------

  /** `x << k`, before the bits beyond the width are cut off. */
  function Shl(x: nat, k: nat): nat {
    if k == 0 then x else 2 * Shl(x, k - 1)
  }

  /** `x ^ (x << k)` on words of `n` bits. */
  function UnfoldLeft(x: nat, k: nat, n: nat): nat {
    Low(Xor(x, Shl(x, k)), n)
  }

  lemma {:induction false} LowBelow(x: nat, n: nat)
    ensures Low(x, n) < Pow2(n)
  {
    if n > 0 {
      LowBelow(x / 2, n - 1);
    }
  }

  lemma {:induction false} LowOfWord(x: nat, n: nat)
    requires x < Pow2(n)
    ensures Low(x, n) == x
  {
    if n > 0 {
      LowOfWord(x / 2, n - 1);
    }
  }

  lemma {:induction false} LowOfXor(x: nat, y: nat, n: nat)
    ensures Low(Xor(x, y), n) == Xor(Low(x, n), Low(y, n))
  {
    if n > 0 {
      LowOfXor(x / 2, y / 2, n - 1);
      XorDigits(x, y);
      LowDigits(x, n);
      LowDigits(y, n);
      XorDigits(Low(x, n), Low(y, n));
      Digits(Xor(x, y) % 2, Low(Xor(x / 2, y / 2), n - 1));
      SameDigits(Low(Xor(x, y), n), Xor(Low(x, n), Low(y, n)));
    }
  }

  lemma XorOfDoubles(x: nat, y: nat)
    ensures Xor(2 * x, 2 * y) == 2 * Xor(x, y)
  {
    XorDigits(2 * x, 2 * y);
  }

  lemma {:induction false} ShlOfXor(x: nat, y: nat, k: nat)
    ensures Shl(Xor(x, y), k) == Xor(Shl(x, k), Shl(y, k))
  {
    if k > 0 {
      ShlOfXor(x, y, k - 1);
      XorOfDoubles(Shl(x, k - 1), Shl(y, k - 1));
    }
  }

  lemma {:induction false} ShlSum(x: nat, i: nat, j: nat)
    ensures Shl(Shl(x, i), j) == Shl(x, i + j)
  {
    if j > 0 {
      ShlSum(x, i, j - 1);
    }
  }

  /** What is cut off before a left shift is cut off after it. */
  lemma {:induction false} LowOfShl(x: nat, k: nat, n: nat)
    ensures Low(Shl(Low(x, n), k), n) == Low(Shl(x, k), n)
    decreases k, n
  {
    if k == 0 {
      LowBelow(x, n);
      LowOfWord(Low(x, n), n);
    } else if n > 0 {
      LowOfShl(x, k - 1, n);
      LowOfDouble(Shl(Low(x, n), k - 1), n);
      LowOfDouble(Shl(x, k - 1), n);
      LowPrefix(Shl(Low(x, n), k - 1), Shl(x, k - 1), n - 1);
    }
  }

  lemma LowOfDouble(x: nat, n: nat)
    requires n > 0
    ensures Low(2 * x, n) == 2 * Low(x, n - 1)
  {
    Digits(0, x);
  }

  /** Words that agree in n+1 bits agree in n. */
  lemma {:induction false} LowPrefix(x: nat, y: nat, n: nat)
    requires Low(x, n + 1) == Low(y, n + 1)
    ensures Low(x, n) == Low(y, n)
  {
    LowDigits(x, n + 1);
    LowDigits(y, n + 1);
    if n > 0 {
      LowPrefix(x / 2, y / 2, n - 1);
    }
  }

  lemma {:induction false} LowOfLongShift(x: nat, k: nat, n: nat)
    requires n <= k
    ensures Low(Shl(x, k), n) == 0
  {
    if n > 0 {
      LowOfDouble(Shl(x, k - 1), n);
      LowOfLongShift(x, k - 1, n - 1);
    }
  }

  /** Doing it twice doubles the shift. */
  lemma FoldLeft(x: nat, k: nat, n: nat)
    requires x < Pow2(n)
    ensures UnfoldLeft(UnfoldLeft(x, k, n), k, n) == UnfoldLeft(x, 2 * k, n)
  {
    var y := Shl(x, k);
    var w := Xor(x, y);
    LowOfXor(Low(w, n), Shl(Low(w, n), k), n);
    LowOfShl(w, k, n);
    LowBelow(w, n);
    LowOfWord(Low(w, n), n);
    LowOfXor(w, Shl(w, k), n);
    ShlOfXor(x, y, k);
    ShlSum(x, k, k);
    Cancels(x, y, Shl(x, 2 * k));
  }

  lemma UnfoldLeftOut(x: nat, k: nat, n: nat)
    requires x < Pow2(n) && n <= k
    ensures UnfoldLeft(x, k, n) == x
  {
    LowOfXor(x, Shl(x, k), n);
    LowOfLongShift(x, k, n);
    LowOfWord(x, n);
    XorZero(x);
  }

  const A: nat := 12
  const B: nat := 25
  const C: nat := 27
  const WIDTH: nat := 64

  /** The three steps of the generator, by their shifts, on words of `n` bits. */
  function Next(x: nat, a: nat, b: nat, c: nat, n: nat): nat {
    Unfold(UnfoldLeft(Unfold(x, a), b, n), c)
  }

  /** The state before: each step is undone by steps of the shift, twice and four
      times the shift. */
  function Previous(y: nat, a: nat, b: nat, c: nat, n: nat): nat {
    var u := Unfold(Unfold(Unfold(y, c), 2 * c), 4 * c);
    var v := UnfoldLeft(UnfoldLeft(UnfoldLeft(u, b, n), 2 * b, n), 4 * b, n);
    Unfold(Unfold(Unfold(v, a), 2 * a), 4 * a)
  }

  lemma UndoRight(x: nat, k: nat, n: nat)
    requires x < Pow2(n) && n <= 8 * k
    ensures Unfold(Unfold(Unfold(Unfold(x, k), k), 2 * k), 4 * k) == x
    ensures Unfold(x, k) < Pow2(n)
  {
    Fold(x, k);
    Fold(x, 2 * k);
    Fold(x, 4 * k);
    ShiftedOut(x, n, 8 * k);
    UnfoldBelow(x, n, k);
  }

  lemma UndoLeft(x: nat, k: nat, n: nat)
    requires x < Pow2(n) && n <= 8 * k
    ensures UnfoldLeft(UnfoldLeft(UnfoldLeft(UnfoldLeft(x, k, n), k, n), 2 * k, n), 4 * k, n) == x
    ensures UnfoldLeft(x, k, n) < Pow2(n)
  {
    FoldLeft(x, k, n);
    FoldLeft(x, 2 * k, n);
    FoldLeft(x, 4 * k, n);
    UnfoldLeftOut(x, 8 * k, n);
    LowBelow(Xor(x, Shl(x, k)), n);
  }

  /** The update can be undone: it maps words one to one to words. */
  lemma PreviousOfNext(x: nat, a: nat, b: nat, c: nat, n: nat)
    requires x < Pow2(n) && n <= 8 * a && n <= 8 * b && n <= 8 * c
    ensures Next(x, a, b, c, n) < Pow2(n) && Previous(Next(x, a, b, c, n), a, b, c, n) == x
  {
    UndoRight(x, a, n);
    UndoLeft(Unfold(x, a), b, n);
    UndoRight(UnfoldLeft(Unfold(x, a), b, n), c, n);
  }

  lemma {:induction false} ZeroStays(k: nat, n: nat)
    ensures Unfold(0, k) == 0 && UnfoldLeft(0, k, n) == 0
  {
    if k > 0 {
      ZeroStays(k - 1, n);
    }
    ShrAtMost(0, k);
    ShlZero(k);
    LowZero(n);
  }

  lemma {:induction false} ShlZero(k: nat)
    ensures Shl(0, k) == 0
  {
    if k > 0 {
      ShlZero(k - 1);
    }
  }

  lemma {:induction false} LowZero(n: nat)
    ensures Low(0, n) == 0
  {
    if n > 0 {
      LowZero(n - 1);
    }
  }

  /** Only state zero leads to state zero. */
  lemma NextIsZeroIff(x: nat, a: nat, b: nat, c: nat, n: nat)
    requires x < Pow2(n) && n <= 8 * a && n <= 8 * b && n <= 8 * c
    ensures Next(x, a, b, c, n) == 0 <==> x == 0
  {
    ZeroStays(a, n);
    ZeroStays(b, n);
    ZeroStays(c, n);
    PreviousOfNext(x, a, b, c, n);
    PreviousOfNext(0, a, b, c, n);
  }

  lemma {:induction false} ShlIs(x: nat, k: nat)
    ensures Shl(x, k) == Pow2(k) * x
  {
    if k > 0 {
      ShlIs(x, k - 1);
    }
  }

  lemma NextIs(x: nat, a: nat, b: nat, c: nat, n: nat, u: nat, v: nat, w: nat)
    requires Unfold(x, a) == u && UnfoldLeft(u, b, n) == v && Unfold(v, c) == w
    ensures Next(x, a, b, c, n) == w
  {
  }

  lemma Powers()
    ensures Pow2(A) == 0x1000 && Pow2(B) == 0x200_0000 && Pow2(C) == 0x800_0000 && Pow2(WIDTH) == 0x1_0000_0000_0000_0000
    ensures Pow2(48) == 0x1_0000_0000_0000 && Pow2(52) == 0x10_0000_0000_0000
  {
    WordSizes();
    assert Pow2(1) == 2 && Pow2(3) == 8;
    Pow2Sum(4, 4);
    Pow2Sum(8, 4);
    Pow2Sum(12, 12);
    Pow2Sum(24, 1);
    Pow2Sum(24, 3);
    Pow2Sum(24, 24);
    Pow2Sum(48, 4);
  }

  /** What the generator gives, worked out by hand: a bit at the bottom moves up ... */
  lemma KnownLow(x: nat)
    requires x == 1
    ensures Next(x, A, B, C, WIDTH) == 0x200_0001
  {
    ShiftsOut(x, A, 0x1000);
    ComesIn(x, 0x200_0001);
    ShiftsOut(0x200_0001, C, 0x800_0000);
    NextIs(x, A, B, C, WIDTH, x, 0x200_0001, 0x200_0001);
  }

  lemma ShiftsOut(x: nat, k: nat, p: nat)
    requires k == A || k == C
    requires p == (if k == A then 0x1000 else 0x800_0000) && x < p
    ensures Unfold(x, k) == x
  {
    Powers();
    ShrIs(x, k);
    XorZero(x);
  }

  lemma ComesIn(x: nat, y: nat)
    requires x == 1 && y == 0x200_0001
    ensures UnfoldLeft(x, B, WIDTH) == y
  {
    Powers();
    ShlIs(x, B);
    FarApart(1, x, B, 0x200_0000);
    XorCommutes(x, 0x200_0000);
    ShrIs(y, WIDTH);
  }

  /** ... and one at the top moves down. */
  lemma KnownHigh(x: nat)
    requires x == 0x8000_0000_0000_0000
    ensures Next(x, A, B, C, WIDTH) == 0x8008_0010_0100_0000
  {
    var u := 0x8008_0000_0000_0000;
    Powers();
    UnfoldApart(x, 0x800, 52, 0x10_0000_0000_0000, A, 0x1000, 0x8_0000_0000_0000);
    NothingComesIn(u, 0x10010000000000000000000);
    UnfoldApart(u, 0x8008, 48, 0x1_0000_0000_0000, C, 0x800_0000, 0x10_0100_0000);
    NextIs(x, A, B, C, WIDTH, u, u, 0x8008_0010_0100_0000);
  }

  lemma NothingComesIn(u: nat, z: nat)
    requires u < 0x1_0000_0000_0000_0000 && z == 0x200_0000 * u && z % 0x1_0000_0000_0000_0000 == 0
    ensures UnfoldLeft(u, B, WIDTH) == u
  {
    Shifted(u);
    LowIs(u);
    LowIs(z);
    LowOfXor(u, z, WIDTH);
    XorZero(u);
  }

  lemma Shifted(u: nat)
    ensures Shl(u, B) == 0x200_0000 * u
  {
    Powers();
    ShlIs(u, B);
  }

  lemma LowIs(x: nat)
    ensures Low(x, WIDTH) == x % 0x1_0000_0000_0000_0000
  {
    Powers();
    ShrIs(x, WIDTH);
  }

  /** What the generator gives in a state. */
  function Output(x: nat): nat {
    x * 0x2545F4914F6CDD1D % 0x1_0000_0000_0000_0000
  }

  class Rng {
    var state: nat

    ghost predicate Valid()
      reads this
    {
      0 < state < Pow2(WIDTH)
    }

    /** State zero would never change: the seed zero is replaced by one. */
    constructor (seed: nat)
      requires seed < Pow2(WIDTH)
      ensures Valid() && (seed != 0 ==> state == seed) && (seed == 0 ==> state == 1)
    {
      state := if seed != 0 then seed else 1;
    }

    method Draw() returns (r: nat)
      requires Valid()
      modifies this
      ensures Valid() && state == Next(old(state), A, B, C, WIDTH)
      ensures r == Output(state)
    {
      var x := state;
      x := Unfold(x, 12);
      x := UnfoldLeft(x, 25, 64);
      x := Unfold(x, 27);
      NextIsZeroIff(state, A, B, C, WIDTH);
      PreviousOfNext(state, A, B, C, WIDTH);
      state := x;
      r := Output(x);
    }
  }

  // ------------------------------------------------------------------
  // The shuffle
  // ------------------------------------------------------------------

  ghost function Swap<T>(a: seq<T>, i: nat, j: nat): (b: seq<T>)
    requires i < |a| && j < |a|
    ensures |b| == |a|
  {
    a[i := a[j]][j := a[i]]
  }

  /** One choice for each position but the first: `choices[i - 1]`, at most i, for
      position i. */
  ghost predicate Choices(choices: seq<nat>, n: nat) {
    |choices| == (if n == 0 then 0 else n - 1) && forall i :: 0 <= i < |choices| ==> choices[i] <= i + 1
  }

  /** The array after the exchanges, made from the last position down. */
  ghost function Shuffled<T>(a: seq<T>, choices: seq<nat>): (r: seq<T>)
    requires Choices(choices, |a|)
    ensures |r| == |a|
    decreases |a|
  {
    if |a| <= 1 then a
    else
      var i := |a| - 1;
      var b := Swap(a, i, choices[i - 1]);
      Shuffled(b[..i], choices[..i - 1]) + [b[i]]
  }

  /** The choices the generator makes from a state: for the last of `n` positions
      first, by the remainder of its next output. */
  ghost function Drawn(state: nat, n: nat): seq<nat>
    decreases n
  {
    if n <= 1 then [] else
      var next := Next(state, A, B, C, WIDTH);
      Drawn(next, n - 1) + [Output(next) % n]
  }

  lemma {:induction false} DrawnAreChoices(state: nat, n: nat)
    ensures Choices(Drawn(state, n), n)
    decreases n
  {
    if n > 1 {
      DrawnAreChoices(Next(state, A, B, C, WIDTH), n - 1);
    }
  }

  /** What is drawn from `start` for `n` positions is what is drawn from `state` for
      the first `left` of them, and then `choices`. */
  ghost predicate LeftToDraw(start: nat, n: nat, state: nat, left: nat, choices: seq<nat>) {
    Drawn(start, n) == Drawn(state, left) + choices
  }

  lemma DrawOne(start: nat, n: nat, state: nat, left: nat, choices: seq<nat>, next: nat)
    requires LeftToDraw(start, n, state, left, choices) && left > 1 && next == Next(state, A, B, C, WIDTH)
    ensures LeftToDraw(start, n, next, left - 1, [Output(next) % left] + choices)
  {
  }

  lemma AllLeft(start: nat, n: nat)
    ensures LeftToDraw(start, n, start, n, [])
  {
  }

  lemma NoneLeft(start: nat, n: nat, state: nat, choices: seq<nat>)
    requires LeftToDraw(start, n, state, 1, choices)
    ensures choices == Drawn(start, n)
  {
    assert Drawn(state, 1) == [];
  }

  /** One draw, reduced to one of `n` positions. */
  method Pick(rng: Rng, n: nat, ghost start: nat, ghost all: nat, ghost choices: seq<nat>) returns (j: nat)
    requires rng.Valid() && n > 1 && LeftToDraw(start, all, rng.state, n, choices)
    modifies rng
    ensures rng.Valid() && j < n && LeftToDraw(start, all, rng.state, n - 1, [j] + choices)
  {
    ghost var s := rng.state;
    var r := rng.Draw();
    j := r % n;
    DrawOne(start, all, s, n, choices, rng.state);
  }

  /** One position is exchanged with its partner. */
  method Turn(arr: array<int>, i: nat, j: nat, ghost a: seq<int>, ghost choices: seq<nat>)
    requires j <= i && 0 < i < arr.Length && AllComposed(a, choices, arr[..i + 1], arr[i + 1..])
    modifies arr
    ensures AllComposed(a, [j] + choices, arr[..i], arr[i..])
  {
    ComposeOne(a, choices, arr[..i + 1], arr[i + 1..], j);
    Exchange(arr, i, j);
  }

  /** Picks a partner for each position from the last down, and exchanges. */
  method ShuffleArray(arr: array<int>, rng: Rng) returns (ghost choices: seq<nat>)
    requires rng.Valid()
    modifies arr, rng
    ensures rng.Valid() && Choices(choices, arr.Length) && choices == Drawn(old(rng.state), arr.Length)
    ensures arr[..] == Shuffled(old(arr[..]), choices)
  {
    choices := [];
    ghost var start := rng.state;
    if arr.Length == 0 {
      return;
    }
    ghost var a := arr[..];
    var i := arr.Length - 1;
    assert arr[..i + 1] == a && arr[i + 1..] == [];
    Whole(a);
    AllLeft(start, arr.Length);
    while i > 0
      invariant 0 <= i < arr.Length && rng.Valid() && AllComposed(a, choices, arr[..i + 1], arr[i + 1..])
      invariant LeftToDraw(start, arr.Length, rng.state, i + 1, choices)
    {
      var j := Pick(rng, i + 1, start, arr.Length, choices);
      Turn(arr, i, j, a, choices);
      choices := [j] + choices;
      i := i - 1;
    }
    NoneLeft(start, arr.Length, rng.state, choices);
    assert Choices([], |arr[..1]|);
    assert Composed(a, [], choices, arr[..1], arr[1..]);
    assert [] + choices == choices && arr[..1] + arr[1..] == arr[..];
  }

  method Exchange(arr: array<int>, i: nat, j: nat)
    requires j <= i < arr.Length
    modifies arr
    ensures var b := Swap(old(arr[..i + 1]), i, j);
            arr[..i] == b[..i] && arr[i..] == [b[i]] + old(arr[i + 1..])
  {
    arr[i], arr[j] := arr[j], arr[i];
  }

  /** Whatever is chosen for the front, the whole comes out as the shuffled front
      and the finished back. */
  ghost predicate Composed<T(!new)>(a: seq<T>, cs: seq<nat>, choices: seq<nat>, front: seq<T>, back: seq<T>)
    requires Choices(cs, |front|)
  {
    Choices(cs + choices, |a|) && Shuffled(a, cs + choices) == Shuffled(front, cs) + back
  }

  ghost predicate AllComposed<T(!new)>(a: seq<T>, choices: seq<nat>, front: seq<T>, back: seq<T>) {
    forall cs :: Choices(cs, |front|) ==> Composed(a, cs, choices, front, back)
  }

  lemma Whole<T(!new)>(a: seq<T>)
    ensures AllComposed(a, [], a, [])
  {
    forall cs | Choices(cs, |a|)
      ensures Composed(a, cs, [], a, [])
    {
      assert cs + [] == cs && Shuffled(a, cs) + [] == Shuffled(a, cs);
    }
  }

  lemma ComposeOne<T(!new)>(a: seq<T>, choices: seq<nat>, front: seq<T>, back: seq<T>, j: nat)
    requires |front| > 1 && j < |front|
    requires AllComposed(a, choices, front, back)
    ensures var b := Swap(front, |front| - 1, j);
            AllComposed(a, [j] + choices, b[..|front| - 1], [b[|front| - 1]] + back)
  {
    var i := |front| - 1;
    var b := Swap(front, i, j);
    forall cs | Choices(cs, i)
      ensures Composed(a, cs, [j] + choices, b[..i], [b[i]] + back)
    {
      var all := cs + [j];
      assert Composed(a, all, choices, front, back);
      assert all + choices == cs + ([j] + choices) && all[..i - 1] == cs;
      assert Shuffled(front, all) == Shuffled(b[..i], cs) + [b[i]];
      assert (Shuffled(b[..i], cs) + [b[i]]) + back == Shuffled(b[..i], cs) + ([b[i]] + back);
    }
  }

  // ------------------------------------------------------------------
  // Choices and permutations
  // ------------------------------------------------------------------

  lemma SwapPermutes<T>(a: seq<T>, i: nat, j: nat)
    requires i < |a| && j < |a|
    ensures multiset(Swap(a, i, j)) == multiset(a)
  {
  }

  lemma {:induction false} ShufflePermutes<T>(a: seq<T>, choices: seq<nat>)
    requires Choices(choices, |a|)
    ensures multiset(Shuffled(a, choices)) == multiset(a)
    decreases |a|
  {
    if |a| > 1 {
      var i := |a| - 1;
      var b := Swap(a, i, choices[i - 1]);
      SwapPermutes(a, i, choices[i - 1]);
      ShufflePermutes(b[..i], choices[..i - 1]);
      assert b == b[..i] + [b[i]];
    }
  }

  ghost predicate AllDifferent<T(!new)>(a: seq<T>) {
    forall i, j :: 0 <= i < j < |a| ==> a[i] != a[j]
  }

  lemma SwapKeepsDifferent<T(!new)>(a: seq<T>, i: nat, j: nat)
    requires i < |a| && j < |a| && AllDifferent(a)
    ensures AllDifferent(Swap(a, i, j))
  {
  }

  /** Different choices shuffle an array of different elements differently. */
  lemma {:induction false} ShuffleIsInjective<T(!new)>(a: seq<T>, c: seq<nat>, d: seq<nat>)
    requires Choices(c, |a|) && Choices(d, |a|) && AllDifferent(a) && Shuffled(a, c) == Shuffled(a, d)
    ensures c == d
    decreases |a|
  {
    if |a| > 1 {
      var i := |a| - 1;
      var b, e := Swap(a, i, c[i - 1]), Swap(a, i, d[i - 1]);
      assert Shuffled(a, c)[i] == b[i] == a[c[i - 1]] && Shuffled(a, d)[i] == e[i] == a[d[i - 1]];
      assert c[i - 1] == d[i - 1];
      SwapKeepsDifferent(a, i, c[i - 1]);
      assert Shuffled(a, c)[..i] == Shuffled(b[..i], c[..i - 1]);
      assert Shuffled(a, d)[..i] == Shuffled(b[..i], d[..i - 1]);
      ShuffleIsInjective(b[..i], c[..i - 1], d[..i - 1]);
      assert c == c[..i - 1] + [c[i - 1]] && d == d[..i - 1] + [d[i - 1]];
    }
  }

  lemma SameFront<T>(b: seq<T>, p: seq<T>, i: nat)
    requires |b| == |p| == i + 1 && b[i] == p[i] && multiset(b) == multiset(p)
    ensures multiset(b[..i]) == multiset(p[..i])
  {
    assert b == b[..i] + [b[i]] && p == p[..i] + [p[i]];
    assert multiset(b[..i]) == multiset(b) - multiset{p[i]};
    assert multiset(p[..i]) == multiset(p) - multiset{p[i]};
  }

  lemma ChooseLast<T>(a: seq<T>, j: nat, cs: seq<nat>)
    requires |a| > 1 && j < |a| && Choices(cs, |a| - 1)
    ensures Choices(cs + [j], |a|)
    ensures var b := Swap(a, |a| - 1, j); Shuffled(a, cs + [j]) == Shuffled(b[..|a| - 1], cs) + [b[|a| - 1]]
  {
    assert (cs + [j])[..|a| - 2] == cs;
  }

  lemma Find<T>(a: seq<T>, p: seq<T>, i: nat) returns (j: nat)
    requires multiset(a) == multiset(p) && i < |p|
    ensures j < |a| && a[j] == p[i]
  {
    assert p[i] in multiset(a);
    j :| 0 <= j < |a| && a[j] == p[i];
  }

  lemma SameLength<T>(a: seq<T>, p: seq<T>)
    requires multiset(a) == multiset(p)
    ensures |a| == |p|
  {
    assert |multiset(a)| == |a| && |multiset(p)| == |p|;
  }

  /** Every permutation comes of some choices. */
  lemma {:induction false} ShuffleIsSurjective<T>(a: seq<T>, p: seq<T>) returns (choices: seq<nat>)
    requires multiset(a) == multiset(p)
    ensures Choices(choices, |a|) && Shuffled(a, choices) == p
    decreases |a|
  {
    SameLength(a, p);
    choices := [];
    if |a| == 1 {
      var j := Find(a, p, 0);
    } else if |a| > 1 {
      var i := |a| - 1;
      var j := Find(a, p, i);
      var b := Swap(a, i, j);
      SwapPermutes(a, i, j);
      SameFront(b, p, i);
      var cs := ShuffleIsSurjective(b[..i], p[..i]);
      ChooseLast(a, j, cs);
      choices := cs + [j];
    }
  }
}
