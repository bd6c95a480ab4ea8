/**
  Where the splay rebalance takes a node.

  `u` is the node's hit count, `T` the total, `K` the head's height.  Counts are
  taken below 2^53, where the division by a power of two in double precision is
  exact before it is truncated.

  The design's formula gives every node one height.  The code holds a node back
  below it where the node that would follow one level up is nearly as hot, and
  cannot lower a node that stands at the head's height or above.  `RestsIff`
  says where it leaves a node alone, `Settle` where repeated visits end.
 */
module SplayHeight {
  import opened Bits
  import opened Resizing

  /** The promotion condition, as the integer comparison the code makes. */
  predicate WantsUp(u: nat, T: nat, K: nat, h: nat) {
    h < K && u > T / Pow2(K - h - 1)
  }

  predicate WantsDown(u: nat, T: nat, K: nat, h: nat) {
    h > 0 && u <= T / Pow2(if h >= K then 0 else K - h)
  }

  /** How often `u` can be doubled without exceeding `T`: the logarithm of T/u to
      base 2, rounded down. */
  function Doublings(u: nat, T: nat): (d: nat)
    requires 1 <= u <= T
    ensures u * Pow2(d) <= T < 2 * (u * Pow2(d))
    decreases T - u
  {
    if 2 * u > T then 0 else
      var d := Doublings(2 * u, T);
      assert 2 * u * Pow2(d) == u * Pow2(d + 1);
      d + 1
  }

  /** Rounding the quotient down loses nothing: the integer comparison is the
      rational one. */
  lemma DivisionIsExact(u: nat, T: nat, p: nat)
    requires p > 0
    ensures u > T / p <==> u * p > T
  {
    var q, r := T / p, T % p;
    assert T == p * q + r;
    if u > q {
      assert (q + 1) * p <= u * p;
    } else {
      assert u * p <= q * p;
    }
  }

  lemma Times(u: nat, a: nat, b: nat)
    requires a <= b
    ensures u * a <= u * b
  {
  }

  lemma DoublingsIs(u: nat, T: nat, m: nat)
    requires 1 <= u <= T
    ensures u * Pow2(m) > T <==> m > Doublings(u, T)
  {
    var d := Doublings(u, T);
    if m > d {
      Pow2Grows(d, m);
      Times(u, 2 * Pow2(d), Pow2(m));
    } else if m < d {
      Pow2Grows(m, d);
      Times(u, Pow2(m), Pow2(d));
    }
  }

  /** The node is to rise exactly below K-1-log2(T/u), and to sink exactly above. */
  lemma TargetHeight(u: nat, T: nat, K: nat, h: nat)
    requires 1 <= u <= T
    ensures var target := K - 1 - Doublings(u, T);
            && (WantsUp(u, T, K, h) <==> h < target)
            && (WantsDown(u, T, K, h) <==> h > 0 && h > target)
  {
    if h < K {
      DivisionIsExact(u, T, Pow2(K - h - 1));
      DoublingsIs(u, T, K - h - 1);
      DivisionIsExact(u, T, Pow2(K - h));
      DoublingsIs(u, T, K - h);
    } else {
      DivisionIsExact(u, T, 1);
    }
  }

  /** The height the formula gives: there it asks for neither. */
  ghost function Settled(u: nat, T: nat, K: nat): nat
    requires 1 <= u <= T
  {
    var target := K - 1 - Doublings(u, T);
    if target > 0 then target else 0
  }

  lemma SettledIff(u: nat, T: nat, K: nat, h: nat)
    requires 1 <= u <= T
    ensures !WantsUp(u, T, K, h) && !WantsDown(u, T, K, h) <==> h == Settled(u, T, K)
  {
    TargetHeight(u, T, K, h);
  }

  // ------------------------------------------------------------------
  // A visit
  // ------------------------------------------------------------------

  /** The node that would follow one level up, if it is not the tail. */
  datatype Peer = NoPeer | Peer(hits: nat)

  /** A node with more than a 4096th of all hits is not raised past a peer. */
  predicate GateOpen(u: nat, T: nat, peer: Peer) {
    !(u > T / 4096 && peer.Peer? && u <= peer.hits + peer.hits / 4)
  }

  /** Short lists and short histories are left alone. */
  predicate Considers(T: nat, K: nat) {
    K >= 2 && T >= 4
  }

  /** What the rebalance does to a matched node; `peers(l)` would follow it on
      level `l`.  The promotion is checked after the demotion, at the height
      that leaves. */
  function Wish(u: nat, T: nat, K: nat, h: nat, peers: nat -> Peer): Want {
    if !Considers(T, K) then Want(false, false, 0) else
      var down := WantsDown(u, T, K, h);
      var h1 := if down && h < K then h - 1 else h;
      Want(down, WantsUp(u, T, K, h1) && GateOpen(u, T, peers(h1 + 1)), Doublings(1, T))
  }

  function Visit(u: nat, T: nat, K: nat, h: nat, peers: nat -> Peer): (h': nat) {
    Moved(h, K, Wish(u, T, K, h, peers))
  }

  /** Where the rebalance acts at all, the height the head may grow to is the
      logarithm of all hits to base 2, rounded down. */
  lemma GrownHeadIs(u: nat, T: nat, K: nat, h: nat, peers: nat -> Peer)
    ensures var grown := Wish(u, T, K, h, peers).target;
            T >= 4 && K >= 2 ==> Pow2(grown) <= T < Pow2(grown + 1)
  {
    if T >= 4 {
      var _ := Doublings(1, T);
    }
  }

  /** The gate is closed exactly if the node has more than a 4096th of all hits,
      and its peer at least four fifths of the node's. */
  lemma GateClosedIff(u: nat, T: nat, peer: Peer)
    ensures !GateOpen(u, T, peer) <==> 4096 * u > T && peer.Peer? && 5 * peer.hits >= 4 * u
  {
    DivisionIsExact(u, T, 4096);
  }

  /** A node that is to sink is not to rise, neither before nor after. */
  lemma NotBoth(u: nat, T: nat, K: nat, h: nat)
    requires WantsDown(u, T, K, h)
    ensures !WantsUp(u, T, K, h) && (h <= K ==> !WantsUp(u, T, K, h - 1))
  {
    if u == 0 {
      NoHits(T, K, h);
      NoHits(T, K, h - 1);
    } else {
      var p := Pow2(if h >= K then 0 else K - h);
      DivisionIsExact(u, T, p);
      Times(u, 1, p);
      TargetHeight(u, T, K, h);
      TargetHeight(u, T, K, h - 1);
    }
  }

  /** A visit raises the node exactly if the formula asks for it and the gate is
      open, and lowers it exactly if the formula asks for it and the head stands
      higher; by one level at a time. */
  lemma VisitMovesIff(u: nat, T: nat, K: nat, h: nat, peers: nat -> Peer)
    requires u <= T
    ensures var h' := Visit(u, T, K, h, peers);
            && (h' == h + 1 <==> T >= 4 && K >= 2 && WantsUp(u, T, K, h) && GateOpen(u, T, peers(h + 1)))
            && (h' == h - 1 <==> T >= 4 && K >= 2 && WantsDown(u, T, K, h) && h < K)
            && h - 1 <= h' <= h + 1
  {
    if WantsDown(u, T, K, h) {
      NotBoth(u, T, K, h);
    }
    if h + 1 == K && WantsUp(u, T, K, h) {
      DivisionIsExact(u, T, Pow2(0));
    }
  }

  /** Settled heights, for every count. */
  ghost function Target(u: nat, T: nat, K: nat): nat
    requires u <= T
  {
    if u == 0 then 0 else Settled(u, T, K)
  }

  lemma TargetIs(u: nat, T: nat, K: nat, h: nat)
    requires u <= T
    ensures (WantsUp(u, T, K, h) <==> h < Target(u, T, K)) && (WantsDown(u, T, K, h) <==> h > Target(u, T, K))
    ensures K > 0 ==> Target(u, T, K) < K
  {
    if u > 0 {
      TargetHeight(u, T, K, h);
    } else {
      NoHits(T, K, h);
    }
  }

  lemma NoHits(T: nat, K: nat, h: nat)
    ensures !WantsUp(0, T, K, h) && (WantsDown(0, T, K, h) <==> h > 0)
  {
    DivisionIsExact(0, T, Pow2(if h >= K then 0 else K - h));
    if h < K {
      DivisionIsExact(0, T, Pow2(K - h - 1));
    }
  }

  /** A visit leaves a node alone exactly at the formula's height, below it at a
      closed gate, and at the head's height or above. */
  lemma RestsIff(u: nat, T: nat, K: nat, h: nat, peers: nat -> Peer)
    requires u <= T
    ensures Visit(u, T, K, h, peers) == h <==>
            || T < 4 || K < 2 || h >= K || h == Target(u, T, K)
            || (h < Target(u, T, K) && !GateOpen(u, T, peers(h + 1)))
  {
    VisitMovesIff(u, T, K, h, peers);
    TargetIs(u, T, K, h);
  }

  ghost function Distance(a: nat, b: nat): nat {
    if a < b then b - a else a - b
  }

  /** A visit that moves the node brings it one level closer, and never past. */
  lemma VisitApproaches(u: nat, T: nat, K: nat, h: nat, peers: nat -> Peer)
    requires u <= T
    ensures var h', t := Visit(u, T, K, h, peers), Target(u, T, K);
            h' == h || Distance(h', t) == Distance(h, t) - 1
  {
    VisitMovesIff(u, T, K, h, peers);
    TargetIs(u, T, K, h);
  }

  /** Every gate on the way up is open. */
  ghost predicate OpenUpTo(u: nat, T: nat, peers: nat -> Peer, from: nat, to: nat) {
    forall l :: from < l <= to ==> GateOpen(u, T, peers(l))
  }

  /** Repeated visits end.  A node above its height comes down to it, if the head
      stands higher; one below rises to it or to the first closed gate.  So they
      end at the formula's height if and only if all gates up to it are open. */
  method Settle(u: nat, T: nat, K: nat, start: nat, peers: nat -> Peer) returns (h: nat, visits: nat)
    requires u <= T
    ensures !Considers(T, K) || start >= K ==> h == start
    ensures Considers(T, K) && Target(u, T, K) <= start < K ==> h == Target(u, T, K)
    ensures Considers(T, K) && start < Target(u, T, K) ==>
            && start <= h <= Target(u, T, K) && OpenUpTo(u, T, peers, start, h)
            && (h < Target(u, T, K) ==> !GateOpen(u, T, peers(h + 1)))
    ensures Considers(T, K) && start < K ==> (h == Target(u, T, K) <==> OpenUpTo(u, T, peers, start, Target(u, T, K)))
    ensures visits == Distance(start, h)
  {
    h, visits := start, 0;
    TargetIs(u, T, K, start);
    while Visit(u, T, K, h, peers) != h
      invariant !Considers(T, K) || start >= K ==> h == start
      invariant Considers(T, K) && Target(u, T, K) <= start < K ==> Target(u, T, K) <= h <= start
      invariant Considers(T, K) && start < Target(u, T, K) ==>
                  start <= h <= Target(u, T, K) && OpenUpTo(u, T, peers, start, h)
      invariant visits == Distance(start, h)
      decreases Distance(h, Target(u, T, K))
    {
      RestsIff(u, T, K, h, peers);
      VisitMovesIff(u, T, K, h, peers);
      VisitApproaches(u, T, K, h, peers);
      TargetIs(u, T, K, h);
      h := Visit(u, T, K, h, peers);
      visits := visits + 1;
    }
    RestsIff(u, T, K, h, peers);
  }

  // ------------------------------------------------------------------
  // The test's expectation
  // ------------------------------------------------------------------

  /** `p` doubled `n` times. */
  ghost function Doubled(p: real, n: nat): real {
    if n == 0 then p else 2.0 * Doubled(p, n - 1)
  }

  /** How often `p` is to be doubled to reach 1, counted downwards. */
  method Ilog2Inv(p: real) returns (k: int)
    requires 0.0 < p
    ensures k <= 0 && Doubled(p, -k) >= 1.0
    ensures k < 0 ==> Doubled(p, -k - 1) < 1.0
  {
    k := 0;
    var v := p;
    if v >= 1.0 {
      return;
    }
    ghost var bound := Enough(p);
    while v < 1.0
      invariant k <= 0 && v == Doubled(p, -k)
      invariant k < 0 ==> Doubled(p, -k - 1) < 1.0
      decreases bound + k
    {
      if bound <= -k {
        DoubledGrows(p, bound, -k);
      }
      v := v * 2.0;
      k := k - 1;
    }
  }

  lemma {:induction false} DoubledGrows(p: real, a: nat, b: nat)
    requires 0.0 < p && a <= b
    ensures 0.0 < Doubled(p, a) <= Doubled(p, b)
  {
    if a < b {
      DoubledGrows(p, a, b - 1);
    } else if a > 0 {
      DoubledGrows(p, a - 1, a - 1);
    }
  }

  /** Some number of doublings reaches 1. */
  lemma Enough(p: real) returns (n: nat)
    requires 0.0 < p
    ensures Doubled(p, n) >= 1.0
  {
    var q := 1.0 / p;
    assert q * p == 1.0;
    assert q > 0.0;
    n := q.Floor + 1;
    DoubledExceeds(p, n);
    Product(q, n as real, p);
  }

  lemma Product(a: real, b: real, p: real)
    requires a <= b && 0.0 < p
    ensures a * p <= b * p
  {
  }

  lemma {:induction false} DoubledExceeds(p: real, n: nat)
    requires 0.0 < p
    ensures Doubled(p, n) >= n as real * p
    ensures Doubled(p, n) >= p
  {
    if n > 0 {
      DoubledExceeds(p, n - 1);
      assert n as real * p == (n - 1) as real * p + p;
    }
  }

  /** For a ratio of counts, doubling is doubling of the count. */
  lemma {:induction false} DoubledCount(r: real, u: nat, t: real, n: nat)
    requires r * t == u as real
    ensures Doubled(r, n) * t == (u * Pow2(n)) as real
  {
    if n > 0 {
      DoubledCount(r, u, t, n - 1);
      Twice(Doubled(r, n - 1), t);
      TwiceNat(u, Pow2(n - 1));
    }
  }

  lemma Twice(d: real, t: real)
    ensures (2.0 * d) * t == 2.0 * (d * t)
  {
  }

  lemma TwiceNat(u: nat, p: nat)
    ensures u * (2 * p) == 2 * (u * p)
  {
  }

  lemma AtLeastOne(d: real, t: real)
    requires 0.0 < t
    ensures d >= 1.0 <==> d * t >= t
  {
    if d >= 1.0 {
      Product(1.0, d, t);
    } else if d * t >= t {
      Product(d, 1.0, t);
      Cancel(d, t);
    }
  }

  lemma DoubledRatio(u: nat, T: nat, n: nat)
    requires T > 0
    ensures Doubled(u as real / T as real, n) >= 1.0 <==> u * Pow2(n) >= T
  {
    var r, t := u as real / T as real, T as real;
    assert r * t == u as real;
    DoubledCount(r, u, t, n);
    CountReaches(Doubled(r, n), t, u * Pow2(n), T);
  }

  lemma CountReaches(d: real, t: real, m: nat, T: nat)
    requires 0.0 < t == T as real && d * t == m as real
    ensures d >= 1.0 <==> m >= T
  {
    AtLeastOne(d, t);
  }

  lemma Cancel(d: real, t: real)
    requires 0.0 < t && d * t == t
    ensures d == 1.0
  {
    assert (d - 1.0) * t == 0.0;
  }

  /** The test expects K-1-k with the logarithm rounded up: the settled height
      (before it is clamped at 0) exceeds that by 0 or 1, and by 0 exactly if
      T/u is a power of two. */
  lemma ExpectationIsOffByAtMostOne(u: nat, T: nat, K: int, k: int)
    requires 1 <= u <= T && k <= 0
    requires Doubled(u as real / T as real, -k) >= 1.0
    requires k < 0 ==> Doubled(u as real / T as real, -k - 1) < 1.0
    ensures var delta := (K - 1 - Doublings(u, T)) - (K - 1 + k);
            && 0 <= delta <= 1
            && (delta == 0 <==> T == u * Pow2(Doublings(u, T)))
  {
    var c := -k;
    DoubledRatio(u, T, c);
    if c > 0 {
      DoubledRatio(u, T, c - 1);
    }
    RoundedUp(u, T, c);
  }

  lemma RoundedUp(u: nat, T: nat, c: nat)
    requires 1 <= u <= T && u * Pow2(c) >= T && (c > 0 ==> u * Pow2(c - 1) < T)
    ensures Doublings(u, T) <= c <= Doublings(u, T) + 1
    ensures c == Doublings(u, T) <==> T == u * Pow2(Doublings(u, T))
  {
    var d := Doublings(u, T);
    DoublingsIs(u, T, c);
    if c > 0 {
      DoublingsIs(u, T, c - 1);
    }
    if c < d {
      Doubles(u, c, d);
    }
  }

  lemma Doubles(u: nat, c: nat, d: nat)
    requires c < d
    ensures 2 * (u * Pow2(c)) <= u * Pow2(d)
  {
    Pow2Grows(c, d);
    Times(u, 2 * Pow2(c), Pow2(d));
  }
}
