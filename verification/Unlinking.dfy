/**
  Taking a marked node out of a skip list: the sweep of one level, the sweeps of
  all levels from the top down, and the shape they leave.
 */
module Unlinking {
  import opened LevelChain
  import opened Towers

  /** What one pass of the unlink sweep leaves of a chain: nodes marked at this
      level are spliced out on the way, the target itself ends the pass, and so
      does the first key beyond the target's. */
  ghost function Swept(c: seq<Node>, marked: set<Node>, key: map<Node, int>, n: Node): seq<Node>
    requires n in key && forall x <- c :: x in key
  {
    if c == [] then []
    else if c[0] == n then c[1..]
    else if c[0] in marked then Swept(c[1..], marked, key, n)
    else if key[c[0]] <= key[n] then [c[0]] + Swept(c[1..], marked, key, n)
    else c
  }

  ghost function Without(c: seq<Node>, n: Node): (r: seq<Node>)
    ensures |r| <= |c|
  {
    if c == [] then [] else (if c[0] == n then [] else [c[0]]) + Without(c[1..], n)
  }

  lemma {:induction false} WithoutMembers(c: seq<Node>, n: Node, x: Node)
    ensures x in Without(c, n) <==> x in c && x != n
  {
    if c != [] {
      WithoutMembers(c[1..], n, x);
    }
  }

  lemma {:induction false} WithoutAbsent(c: seq<Node>, n: Node)
    requires n !in c
    ensures Without(c, n) == c
  {
    if c != [] {
      WithoutAbsent(c[1..], n);
    }
  }

  lemma {:induction false} SweptMembers(c: seq<Node>, marked: set<Node>, key: map<Node, int>, n: Node, x: Node)
    requires n in key && Ascending(c, key) && Distinct(c)
    ensures x in Swept(c, marked, key, n) ==> x in c && x != n
    ensures x in c && x != n && x !in marked ==> x in Swept(c, marked, key, n)
  {
    if c != [] {
      Ascends(c, key);
      DistinctRest(c);
      SweptMembers(c[1..], marked, key, n, x);
    }
  }

  lemma {:induction false} SweptInOrder(c: seq<Node>, marked: set<Node>, key: map<Node, int>, n: Node)
    requires n in key && Ascending(c, key) && Distinct(c)
    ensures Distinct(Swept(c, marked, key, n)) && Ascending(Swept(c, marked, key, n), key)
  {
    if c != [] {
      var r := Swept(c[1..], marked, key, n);
      Ascends(c, key);
      DistinctRest(c);
      SweptInOrder(c[1..], marked, key, n);
      forall y | y in r
        ensures y != c[0] && key[c[0]] <= key[y]
      {
        SweptMembers(c[1..], marked, key, n, y);
      }
      Prepend(c[0], r, key);
      DistinctMore(c[0], r);
    }
  }

  /** If the target is the only marked node, the sweep removes exactly it --
      equal keys on either side stay. */
  lemma {:induction false} SweptRemovesExactly(c: seq<Node>, marked: set<Node>, key: map<Node, int>, n: Node)
    requires n in key && Ascending(c, key) && Distinct(c)
    requires marked <= {n}
    ensures Swept(c, marked, key, n) == Without(c, n)
  {
    if c != [] {
      Ascends(c, key);
      DistinctRest(c);
      if c[0] == n {
        WithoutAbsent(c[1..], n);
      } else if key[c[0]] <= key[n] {
        SweptRemovesExactly(c[1..], marked, key, n);
      } else {
        assert forall x <- c :: key[c[0]] <= key[x];
        assert n !in c;
        WithoutAbsent(c, n);
      }
    }
  }

  ghost function MarkedAt(next: map<Node, Slots>, l: nat, c: seq<Node>): set<Node>
    requires l < MAX_HEIGHT
  {
    set x | x in c && x in next && next[x][l].marked
  }

  lemma SpliceOut(next: map<Node, Slots>, l: nat, a: seq<Node>, b: seq<Node>) returns (next': map<Node, Slots>)
    requires l < MAX_HEIGHT && b != [] && Threads(next, l, a + b) && Distinct(a + b) && Interior(a + b)
    ensures LastOf(a) in next && next' == next[LastOf(a) := next[LastOf(a)][l := Link(FirstOf(b[1..]), false)]]
    ensures Threads(next', l, a + b[1..]) && Distinct(a + b[1..]) && Interior(a + b[1..])
    ensures b[0] != LastOf(a)
  {
    var n, b' := b[0], b[1..];
    Facing(next, l, a, b);
    assert a + b == a + [n] + b';
    next' := next[LastOf(a) := next[LastOf(a)][l := Link(FirstOf(b'), false)]];
    ThreadsRemove(next, next', l, a, n, b');
    assert (a + b)[|a|] == n && n in a + b;
    if a != [] {
      Apart(a + b, |a| - 1, |a|);
    }
    forall i, j | 0 <= i < j < |a + b'|
      ensures Differ(a + b', i, j)
    {
      Apart(a + b, if i < |a| then i else i + 1, if j < |a| then j else j + 1);
    }
    assert forall x <- a + b' :: x in a + b;
  }

  /** The sweep of a level changes its pointers there and no mark. */
  ghost predicate OnlyPointer(next0: map<Node, Slots>, next: map<Node, Slots>, l: nat, x: Node)
    requires l < MAX_HEIGHT
  {
    x in next0 && x in next && next[x] == next0[x][l := Link(next[x][l].ptr, next0[x][l].marked)]
  }

  ghost predicate OnlyLevel(next0: map<Node, Slots>, next: map<Node, Slots>, l: nat)
    requires l < MAX_HEIGHT
  {
    next.Keys == next0.Keys && forall x <- next0.Keys :: OnlyPointer(next0, next, l, x)
  }

  /** A sweep of level `l` under way: `a` is kept, the rest of `c` from `m` on
      is still ahead. */
  ghost predicate Sweeping(next0: map<Node, Slots>, next: map<Node, Slots>, key: map<Node, int>, n: Node, l: nat,
                           c: seq<Node>, a: seq<Node>, m: nat)
    requires l < MAX_HEIGHT && n in key && n in next0 && Within(c, key.Keys) && m <= |c|
  {
    && Threads(next, l, a + c[m..]) && Distinct(a + c[m..]) && Interior(a + c[m..])
    && a + Swept(c[m..], MarkedAt(next0, l, c), key, n) == Swept(c, MarkedAt(next0, l, c), key, n)
    && n !in a && LastOf(a) in next && !next[LastOf(a)][l].marked
    && OnlyLevel(next0, next, l) && n in next && next[n] == next0[n]
  }

  /** What the sweep finds at its current node. */
  lemma SweepSees(next0: map<Node, Slots>, next: map<Node, Slots>, key: map<Node, int>, n: Node, l: nat,
                  c: seq<Node>, a: seq<Node>, m: nat)
    requires l < MAX_HEIGHT && n in key && n in next0 && Within(c, key.Keys) && m < |c|
    requires Sweeping(next0, next, key, n, l, c, a, m)
    ensures c[m] in key && c[m] in next && next[c[m]][l].ptr == FirstOf(c[m + 1..])
    ensures next[LastOf(a)][l] == Link(c[m], false)
    ensures next[c[m]][l].marked <==> c[m] in MarkedAt(next0, l, c)
  {
    Facing(next, l, a, c[m..]);
    assert c[m] in c && c[m..][1..] == c[m + 1..];
    assert OnlyPointer(next0, next, l, c[m]);
  }

  /** The sweep stops at the tail or at the first key beyond the target's. */
  lemma SweepStops(next0: map<Node, Slots>, next: map<Node, Slots>, key: map<Node, int>, n: Node, l: nat,
                   c: seq<Node>, a: seq<Node>, m: nat)
    requires l < MAX_HEIGHT && n in key && n in next0 && Within(c, key.Keys) && m <= |c|
    requires Sweeping(next0, next, key, n, l, c, a, m)
    requires FirstOf(c[m..]) == TAIL
          || (m < |c| && c[m] != n && c[m] in next && !next[c[m]][l].marked && c[m] in key && key[c[m]] > key[n])
    ensures Threads(next, l, Swept(c, MarkedAt(next0, l, c), key, n))
  {
    var b := c[m..];
    if b == [] || FirstOf(b) != TAIL {
      if b != [] {
        SweepSees(next0, next, key, n, l, c, a, m);
      }
      assert a + b == Swept(c, MarkedAt(next0, l, c), key, n);
    } else {
      assert (a + b)[|a|] == b[0] && b[0] in a + b;
    }
  }

  lemma SweepKeeps(next0: map<Node, Slots>, next: map<Node, Slots>, key: map<Node, int>, n: Node, l: nat,
                   c: seq<Node>, a: seq<Node>, m: nat)
    requires l < MAX_HEIGHT && n in key && n in next0 && Within(c, key.Keys) && m < |c|
    requires Sweeping(next0, next, key, n, l, c, a, m) && c[m] != n
    requires c[m] in next && !next[c[m]][l].marked && c[m] in key && key[c[m]] <= key[n]
    ensures Sweeping(next0, next, key, n, l, c, a + [c[m]], m + 1)
  {
    SweepSees(next0, next, key, n, l, c, a, m);
    var b, b' := c[m..], c[m + 1..];
    assert b == [c[m]] + b' && b[1..] == b';
    assert a + b == (a + [c[m]]) + b';
    var r := Swept(b', MarkedAt(next0, l, c), key, n);
    assert a + ([c[m]] + r) == (a + [c[m]]) + r;
  }

  lemma SweepSplices(next0: map<Node, Slots>, next: map<Node, Slots>, key: map<Node, int>, n: Node, l: nat,
                     c: seq<Node>, a: seq<Node>, m: nat) returns (next': map<Node, Slots>)
    requires l < MAX_HEIGHT && n in key && n in next0 && Within(c, key.Keys) && m < |c| && n != HEAD
    requires Sweeping(next0, next, key, n, l, c, a, m)
    ensures next' == next[LastOf(a) := next[LastOf(a)][l := Link(FirstOf(c[m + 1..]), false)]]
    ensures Threads(next', l, a + c[m + 1..]) && Distinct(a + c[m + 1..]) && Interior(a + c[m + 1..])
    ensures OnlyLevel(next0, next', l) && next'[n] == next0[n]
    ensures c[m] == n ==> Threads(next', l, Swept(c, MarkedAt(next0, l, c), key, n))
    ensures c[m] != n && c[m] in next && next[c[m]][l].marked ==> Sweeping(next0, next', key, n, l, c, a, m + 1)
  {
    SweepSees(next0, next, key, n, l, c, a, m);
    assert c[m..][1..] == c[m + 1..];
    next' := SpliceOut(next, l, a, c[m..]);
    forall x | x in next0.Keys
      ensures OnlyPointer(next0, next', l, x)
    {
      assert OnlyPointer(next0, next, l, x);
    }
  }

  /** A walk along a level, node by node. */
  lemma WalkBegins(next: map<Node, Slots>, l: nat, c: seq<Node>)
    requires l < MAX_HEIGHT && Threads(next, l, c)
    ensures HEAD in next && next[HEAD][l].ptr == FirstOf(c[0..])
  {
    assert c[0..] == c && [] + c == c;
    Facing(next, l, [], c);
  }

  lemma WalkSees(next: map<Node, Slots>, key: map<Node, int>, l: nat, c: seq<Node>, m: nat)
    requires l < MAX_HEIGHT && LevelIs(next, key, l, c) && m <= |c| && FirstOf(c[m..]) != TAIL
    ensures m < |c| && c[m] == FirstOf(c[m..]) && c[m] in c && c[m] in key && c[m] in next
    ensures next[c[m]][l].ptr == FirstOf(c[m + 1..])
    ensures forall x :: x in c[..m + 1] <==> x in c[..m] || x == c[m]
  {
    assert m < |c| && c[..m + 1] == c[..m] + [c[m]];
    assert c == c[..m] + c[m..] && c[m..][1..] == c[m + 1..];
    Facing(next, l, c[..m], c[m..]);
  }

  lemma WalkEnds(c: seq<Node>, m: nat)
    requires Interior(c) && m <= |c| && FirstOf(c[m..]) == TAIL
    ensures c[..m] == c
  {
    if m < |c| {
      ListedIsNoEnd(c, m);
    }
  }

  lemma ListedIsNoEnd(c: seq<Node>, m: nat)
    requires Interior(c) && m < |c|
    ensures FirstOf(c[m..]) != TAIL
  {
    assert c[m] in c;
  }

  /** A level whose chain is `c`, in order. */
  ghost predicate LevelIs(next: map<Node, Slots>, key: map<Node, int>, l: nat, c: seq<Node>)
    requires l < MAX_HEIGHT
  {
    Threads(next, l, c) && Distinct(c) && Interior(c) && Ascending(c, key)
  }

  ghost predicate LevelsAre(next: map<Node, Slots>, key: map<Node, int>, chains: seq<seq<Node>>)
    requires |chains| == MAX_HEIGHT
  {
    forall l :: 0 <= l < MAX_HEIGHT ==> LevelIs(next, key, l, chains[l])
  }

  /** The chain of level `l` once the sweep has come down to level `lo`. */
  ghost function SweptDown(next0: map<Node, Slots>, key: map<Node, int>, n: Node, c: seq<Node>, l: nat, lo: nat, hi: nat): seq<Node>
    requires l < MAX_HEIGHT && n in key && Within(c, key.Keys)
  {
    if lo <= l <= hi then Swept(c, MarkedAt(next0, l, c), key, n) else c
  }

  ghost predicate LevelSwept(next0: map<Node, Slots>, next: map<Node, Slots>, key: map<Node, int>, n: Node, c: seq<Node>, l: nat,
                             lo: nat, hi: nat)
    requires l < MAX_HEIGHT && n in key && Within(c, key.Keys)
  {
    LevelIs(next, key, l, SweptDown(next0, key, n, c, l, lo, hi))
  }

  ghost predicate AllSwept(next0: map<Node, Slots>, next: map<Node, Slots>, key: map<Node, int>, n: Node, chains: seq<seq<Node>>,
                           lo: nat, hi: nat)
    requires |chains| == MAX_HEIGHT && n in key && forall c <- chains :: Within(c, key.Keys)
  {
    forall l :: 0 <= l < MAX_HEIGHT ==> LevelSwept(next0, next, key, n, chains[l], l, lo, hi)
  }

  ghost predicate MarkKept(next0: map<Node, Slots>, next: map<Node, Slots>, x: Node) {
    x in next0 && x in next && forall l :: 0 <= l < MAX_HEIGHT ==> next[x][l].marked == next0[x][l].marked
  }

  ghost predicate MarksKept(next0: map<Node, Slots>, next: map<Node, Slots>) {
    next.Keys == next0.Keys && forall x <- next0.Keys :: MarkKept(next0, next, x)
  }

  lemma NothingSwept(next: map<Node, Slots>, key: map<Node, int>, n: Node, chains: seq<seq<Node>>, hi: nat)
    requires |chains| == MAX_HEIGHT && n in key && LevelsAre(next, key, chains) && forall c <- chains :: Within(c, key.Keys)
    ensures AllSwept(next, next, key, n, chains, hi + 1, hi) && MarksKept(next, next)
  {
    var lo := hi + 1;
    forall l | 0 <= l < MAX_HEIGHT
      ensures LevelSwept(next, next, key, n, chains[l], l, lo, hi)
    {
      assert LevelIs(next, key, l, chains[l]);
    }
  }

  lemma SweptOneMore(next0: map<Node, Slots>, next1: map<Node, Slots>, next: map<Node, Slots>, key: map<Node, int>, n: Node,
                     chains: seq<seq<Node>>, lo: nat, hi: nat)
    requires |chains| == MAX_HEIGHT && n in key && forall c <- chains :: Within(c, key.Keys)
    requires AllSwept(next0, next1, key, n, chains, lo + 1, hi) && lo <= hi < MAX_HEIGHT && MarksKept(next0, next1)
    requires Threads(next, lo, Swept(chains[lo], MarkedAt(next1, lo, chains[lo]), key, n)) && OnlyLevel(next1, next, lo)
    ensures AllSwept(next0, next, key, n, chains, lo, hi) && MarksKept(next0, next)
  {
    var lo' := lo + 1;
    forall l | 0 <= l < MAX_HEIGHT
      ensures LevelSwept(next0, next, key, n, chains[l], l, lo, hi)
    {
      var c := chains[l];
      assert LevelSwept(next0, next1, key, n, c, l, lo', hi);
      if l == lo {
        SameMarked(next0, next1, l, c);
        SweptInOrder(c, MarkedAt(next0, l, c), key, n);
        forall x | x in Swept(c, MarkedAt(next0, l, c), key, n)
          ensures x in c
        {
          SweptMembers(c, MarkedAt(next0, l, c), key, n, x);
        }
      } else {
        forall x | x in next1.Keys
          ensures x in next && next[x][l].ptr == next1[x][l].ptr
        {
          assert OnlyPointer(next1, next, lo, x);
        }
        ThreadsFrame(next1, next, l, SweptDown(next0, key, n, c, l, lo', hi));
      }
    }
    forall x | x in next0.Keys
      ensures MarkKept(next0, next, x)
    {
      assert MarkKept(next0, next1, x) && OnlyPointer(next1, next, lo, x);
    }
  }

  lemma SameMarked(next0: map<Node, Slots>, next: map<Node, Slots>, l: nat, c: seq<Node>)
    requires l < MAX_HEIGHT && MarksKept(next0, next)
    ensures MarkedAt(next0, l, c) == MarkedAt(next, l, c)
  {
    forall x | x in next0.Keys
      ensures x in MarkedAt(next0, l, c) <==> x in MarkedAt(next, l, c)
    {
      assert MarkKept(next0, next, x);
    }
  }

  /** The chains a sweep of all levels up to `hi` leaves. */
  ghost function AllLeft(next0: map<Node, Slots>, next: map<Node, Slots>, key: map<Node, int>, n: Node, chains: seq<seq<Node>>, hi: nat)
      : (left: seq<seq<Node>>)
    requires |chains| == MAX_HEIGHT && n in key && LevelsAre(next0, key, chains) && forall c <- chains :: Within(c, key.Keys)
    requires AllSwept(next0, next, key, n, chains, 0, hi)
    ensures |left| == MAX_HEIGHT && LevelsAre(next, key, left)
    ensures forall l :: 0 <= l <= hi && l < MAX_HEIGHT ==> n !in left[l]
  {
    var left := seq(MAX_HEIGHT, l requires 0 <= l < MAX_HEIGHT => SweptDown(next0, key, n, chains[l], l, 0, hi));
    assert LevelsAre(next, key, left) by {
      forall l | 0 <= l < MAX_HEIGHT
        ensures LevelIs(next, key, l, left[l])
      {
        assert LevelSwept(next0, next, key, n, chains[l], l, 0, hi);
      }
    }
    assert forall l :: 0 <= l <= hi && l < MAX_HEIGHT ==> n !in left[l] by {
      forall l | 0 <= l <= hi && l < MAX_HEIGHT
        ensures n !in left[l]
      {
        assert LevelIs(next0, key, l, chains[l]);
        SweptMembers(chains[l], MarkedAt(next0, l, chains[l]), key, n, n);
      }
    }
    left
  }

  ghost function AllMarked(slots: Slots, h: nat): Slots {
    seq(MAX_HEIGHT, i requires 0 <= i < MAX_HEIGHT => if i <= h then Link(slots[i].ptr, true) else slots[i])
  }

  ghost function AllTowers(nodes: seq<Node>, height: map<Node, nat>): seq<seq<Node>> {
    seq(MAX_HEIGHT, l requires 0 <= l => Tower(nodes, height, l))
  }

  ghost function Removed(nodes: seq<Node>, k: nat): (r: seq<Node>)
    requires k < |nodes|
    ensures |r| == |nodes| - 1
    ensures forall i :: 0 <= i < |r| ==> r[i] == nodes[if i < k then i else i + 1]
  {
    nodes[..k] + nodes[k + 1..]
  }

  lemma RemovedInOrder(nodes: seq<Node>, key: map<Node, int>, k: nat, dups: bool)
    requires Ascending(nodes, key) && k < |nodes|
    requires !dups ==> DistinctKeys(nodes, key)
    ensures Ascending(Removed(nodes, k), key) && (!dups ==> DistinctKeys(Removed(nodes, k), key))
  {
    var r := Removed(nodes, k);
    RemovedWithin(nodes, k, key.Keys);
    forall i, j | 0 <= i < j < |r|
      ensures NotAbove(r, key, i, j) && (!dups ==> UnlikeKeys(r, key, i, j))
    {
      var i', j' := if i < k then i else i + 1, if j < k then j else j + 1;
      assert NotAbove(nodes, key, i', j') && (!dups ==> UnlikeKeys(nodes, key, i', j'));
    }
  }

  lemma RemovedWithin(nodes: seq<Node>, k: nat, domain: set<Node>)
    requires k < |nodes| && Within(nodes, domain)
    ensures Within(Removed(nodes, k), domain)
  {
  }

  lemma {:induction false} RemovedIsWithout(nodes: seq<Node>, k: nat)
    requires k < |nodes| && Distinct(nodes)
    ensures Removed(nodes, k) == Without(nodes, nodes[k])
  {
    DistinctRest(nodes);
    if k == 0 {
      WithoutAbsent(nodes[1..], nodes[0]);
      assert Removed(nodes, 0) == nodes[1..];
    } else {
      Apart(nodes, 0, k);
      RemovedIsWithout(nodes[1..], k - 1);
      assert Removed(nodes, k) == [nodes[0]] + Removed(nodes[1..], k - 1);
    }
  }

  lemma RemovedDistinct(nodes: seq<Node>, k: nat)
    requires k < |nodes| && Distinct(nodes) && Interior(nodes)
    ensures Distinct(Removed(nodes, k)) && Interior(Removed(nodes, k))
  {
    var r := Removed(nodes, k);
    forall i, j | 0 <= i < j < |r|
      ensures Differ(r, i, j)
    {
      Apart(nodes, if i < k then i else i + 1, if j < k then j else j + 1);
    }
    RemovedWithin(nodes, k, set x | x in nodes);
  }

  /** With the target's pointers marked, every level is still its tower. */
  lemma TowersInOrder(next: map<Node, Slots>, nodes: seq<Node>, height: map<Node, nat>, levels: nat, key: map<Node, int>, n: Node)
    requires Shaped(next, nodes, height, levels) && Ascending(nodes, key) && n in nodes && n in next && n in height
    ensures LevelsAre(next[n := AllMarked(next[n], height[n])], key, AllTowers(nodes, height))
    ensures forall c <- AllTowers(nodes, height) :: Within(c, key.Keys)
  {
    var next', chains := next[n := AllMarked(next[n], height[n])], AllTowers(nodes, height);
    forall l | 0 <= l < MAX_HEIGHT
      ensures LevelIs(next', key, l, chains[l])
    {
      assert LevelThreads(next, nodes, height, l);
      ThreadsFrame(next, next', l, chains[l]);
      TowerDistinct(nodes, height, l);
      TowerAscending(nodes, height, key, l);
    }
    forall c | c in chains
      ensures Within(c, key.Keys)
    {
      var l :| 0 <= l < MAX_HEIGHT && chains[l] == c;
      assert LevelIs(next', key, l, c);
    }
  }

  /** A full sweep for a marked node leaves every other node where it was. */
  lemma SweptTower(next1: map<Node, Slots>, next: map<Node, Slots>, nodes: seq<Node>, height: map<Node, nat>, levels: nat,
                   key: map<Node, int>, n: Node, l: nat, hi: nat)
    requires l < MAX_HEIGHT && Distinct(nodes) && Interior(nodes) && Ascending(nodes, key) && AllFit(nodes, height, levels) && levels <= hi
    requires n in nodes && forall x <- nodes :: x != n ==> CleanAt(next1, height, x)
    ensures n in key && Within(Tower(nodes, height, l), key.Keys)
    ensures SweptDown(next1, key, n, Tower(nodes, height, l), l, 0, hi) == Tower(Without(nodes, n), height, l)
  {
    var c := Tower(nodes, height, l);
    TowerAscending(nodes, height, key, l);
    TowerDistinct(nodes, height, l);
    TowerWithout(nodes, height, l, n);
    if l <= hi {
      forall x | x in MarkedAt(next1, l, c)
        ensures x == n
      {
        TowerMembers(nodes, height, l, x);
      }
      SweptRemovesExactly(c, MarkedAt(next1, l, c), key, n);
    } else {
      AllFitAbove(nodes, height, levels, l);
      TowerEmpty(nodes, height, l);
    }
  }

  lemma AllFitAbove(nodes: seq<Node>, height: map<Node, nat>, levels: nat, l: nat)
    requires AllFit(nodes, height, levels) && levels <= l
    ensures AllFit(nodes, height, l)
  {
    forall x | x in nodes
      ensures Fits(height, l, x)
    {
      assert Fits(height, levels, x);
    }
  }

  lemma UnlinkedShape(next0: map<Node, Slots>, next: map<Node, Slots>, nodes: seq<Node>, height: map<Node, nat>, levels: nat,
                      key: map<Node, int>, k: nat)
    requires Shaped(next0, nodes, height, levels) && Ascending(nodes, key) && k < |nodes|
    requires var n := nodes[k];
             && n in next0 && n in height
             && var next1 := next0[n := AllMarked(next0[n], height[n])];
             && n in key && (forall c <- AllTowers(nodes, height) :: Within(c, key.Keys))
             && AllSwept(next1, next, key, n, AllTowers(nodes, height), 0, levels) && MarksKept(next1, next)
             && n in next && next[n] == next1[n]
    ensures Shaped(next, Removed(nodes, k), height, levels)
    ensures next[nodes[k]][0].ptr == FirstOf(nodes[k + 1..])
  {
    var n := nodes[k];
    var next1 := next0[n := AllMarked(next0[n], height[n])];
    RemovedDistinct(nodes, k);
    RemovedIsWithout(nodes, k);
    assert n in nodes;
    forall x | x in nodes && x != n
      ensures CleanAt(next1, height, x) && CleanAt(next, height, x)
    {
      assert CleanAt(next0, height, x) && MarkKept(next1, next, x);
    }
    assert MarkKept(next1, next, HEAD);
    forall x | x in Removed(nodes, k)
      ensures x in nodes && x != n
    {
      WithoutMembers(nodes, n, x);
    }
    forall l | 0 <= l < MAX_HEIGHT
      ensures LevelThreads(next, Removed(nodes, k), height, l)
    {
      assert LevelSwept(next1, next, key, n, AllTowers(nodes, height)[l], l, 0, levels);
      SweptTower(next1, next, nodes, height, levels, key, n, l, levels);
    }
    StillFacing(next0, nodes, height, levels, k);
  }

  lemma StillFacing(next: map<Node, Slots>, nodes: seq<Node>, height: map<Node, nat>, levels: nat, k: nat)
    requires Shaped(next, nodes, height, levels) && k < |nodes|
    ensures nodes[k] in next && next[nodes[k]][0].ptr == FirstOf(nodes[k + 1..])
  {
    assert LevelThreads(next, nodes, height, 0);
    TowerZero(nodes, height, levels);
    assert nodes == (nodes[..k] + [nodes[k]]) + nodes[k + 1..];
    Facing(next, 0, nodes[..k] + [nodes[k]], nodes[k + 1..]);
  }

  /** A level that leads from the head to the tail has no tower. */
  lemma TopEmpty(next: map<Node, Slots>, nodes: seq<Node>, height: map<Node, nat>, levels: nat)
    requires Shaped(next, nodes, height, levels) && levels > 1 && next[HEAD][levels - 1].ptr == TAIL
    ensures Shaped(next, nodes, height, levels - 1)
  {
    var l := levels - 1;
    var c := Tower(nodes, height, l);
    assert LevelThreads(next, nodes, height, l) && [] + c == c;
    Facing(next, l, [], c);
    TowerDistinct(nodes, height, l);
    assert c != [] ==> c[0] in c;
    forall x | x in nodes
      ensures Fits(height, l, x)
    {
      assert Fits(height, levels, x);
      TowerMembers(nodes, height, l, x);
    }
  }

  lemma {:induction false} TowerWithout(nodes: seq<Node>, height: map<Node, nat>, l: nat, n: Node)
    ensures Tower(Without(nodes, n), height, l) == Without(Tower(nodes, height, l), n)
  {
    if nodes != [] {
      var x, t := nodes[0], Without(nodes[1..], n);
      TowerWithout(nodes[1..], height, l, n);
      if x in height && height[x] >= l {
        assert Tower(nodes, height, l)[1..] == Tower(nodes[1..], height, l);
      } else {
        assert Tower(nodes, height, l) == Tower(nodes[1..], height, l);
      }
      if x == n {
        assert Without(nodes, n) == t;
      } else {
        assert Without(nodes, n) == [x] + t && ([x] + t)[1..] == t;
      }
    }
  }
}
