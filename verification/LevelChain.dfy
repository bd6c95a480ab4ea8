/**
  One level of the lock-free list: the forward pointers with their deletion
  marks, the four kinds of atomic write the code performs on them, and the
  invariant every one of those writes keeps.

  `rank` and `linked` are auxiliary: no step reads them to decide what to do.
  `rank` remembers the order of every node that was ever linked at the level,
  also after it was spliced out, and `linked` holds the nodes on the chain.
  `LinkedIsReached` shows that `linked` is what a walk from the head finds.
 */
module LevelChain {

  /** The size of every node's level array. */
  const MAX_HEIGHT: nat := 64

  type Node = nat

  const HEAD: Node := 0
  const TAIL: Node := 1

  /** A forward pointer: the successor, and the low bit that says "deleted". */
  datatype Link = Link(ptr: Node, marked: bool)

  datatype Level = Level(next: map<Node, Link>, rank: map<Node, nat>, linked: set<Node>)

  /** The three-way comparison of nodes: the sentinels are below and above
      every key, and a node is equal to itself whatever the comparator says. */
  function Compare(key: Node -> int, a: Node, b: Node): int {
    if a == b then 0
    else if a == HEAD || b == TAIL then -1
    else if a == TAIL || b == HEAD then 1
    else if key(a) < key(b) then -1
    else if key(a) > key(b) then 1
    else 0
  }

  // ------------------------------------------------------------------
  // The order of a level
  // ------------------------------------------------------------------

  /** A node that was ever linked lies between the sentinels, and its pointer
      leads strictly forward. */
  ghost predicate LeadsOn(l: Level, c: Node)
    requires HEAD in l.rank && TAIL in l.rank
  {
    c in l.rank ==>
      && l.rank[HEAD] <= l.rank[c] <= l.rank[TAIL]
      && (c != TAIL ==> c in l.next && l.next[c].ptr in l.rank && l.rank[c] < l.rank[l.next[c].ptr])
  }

  /** Every walk comes to the tail. */
  ghost predicate Forward(l: Level) {
    && HEAD in l.rank && TAIL in l.rank
    && TAIL !in l.next && HEAD in l.next && !l.next[HEAD].marked
    && (forall c :: LeadsOn(l, c))
  }

  ghost predicate RisesAt(l: Level, key: Node -> int, c: Node) {
    c in l.rank && c != TAIL && c in l.next ==> Compare(key, c, l.next[c].ptr) <= 0
  }

  /** No pointer leads to a smaller key. */
  ghost predicate Sorted(l: Level, key: Node -> int) {
    forall c :: RisesAt(l, key, c)
  }

  // ------------------------------------------------------------------
  // The chain of a level
  // ------------------------------------------------------------------

  /** Only a marked node may be off the chain, and the chain is closed under
      "next". */
  ghost predicate NodeOk(l: Level, c: Node) {
    c in l.rank && c != TAIL && c in l.next ==>
      && (!l.next[c].marked ==> c in l.linked)
      && (c in l.linked ==> l.next[c].ptr in l.linked)
  }

  /** Ranks are distinct, and for a node `s` of the chain behind `c`, no
      pointer -- not even that of a node spliced out long ago -- jumps over
      `s`, and the key of `s` is not smaller. */
  ghost predicate PairOk(l: Level, key: Node -> int, c: Node, s: Node) {
    c in l.rank && s in l.rank ==>
      && (l.rank[c] == l.rank[s] ==> c == s)
      && (s in l.linked && c in l.next && l.rank[c] < l.rank[s] ==>
            && l.next[c].ptr in l.rank && l.rank[l.next[c].ptr] <= l.rank[s]
            && Compare(key, c, s) <= 0)
  }

  ghost predicate Valid(l: Level, key: Node -> int) {
    && Forward(l) && Sorted(l, key)
    && l.linked <= l.rank.Keys && HEAD in l.linked && TAIL in l.linked
    && (forall c :: NodeOk(l, c))
    && (forall c, s :: PairOk(l, key, c, s))
  }

  /** What reading a pointer gives; the tail has none. */
  function Slot(l: Level, n: Node): Link {
    if n in l.next then l.next[n] else Link(TAIL, false)
  }

  /** An empty level: the head points at the tail. */
  function Empty(): (l: Level) {
    Level(map[HEAD := Link(TAIL, false)], map[HEAD := 0, TAIL := 1], {HEAD, TAIL})
  }

  lemma EmptyIsValid(key: Node -> int)
    ensures Valid(Empty(), key)
  {
  }

  // ------------------------------------------------------------------
  // The atomic writes
  // ------------------------------------------------------------------

  /** A compare-and-swap on `pred.next` that expects the unmarked `expected`. */
  predicate Points(l: Level, pred: Node, expected: Node) {
    pred in l.next && l.next[pred] == Link(expected, false)
  }

  function Shifted(rank: map<Node, nat>, pred: Node, n: Node): (r: map<Node, nat>)
    requires pred in rank && n !in rank
  {
    (map x | x in rank :: if rank[x] > rank[pred] then rank[x] + 1 else rank[x])[n := rank[pred] + 1]
  }

  /** The publishing CAS: `pred.next` goes from `succ` to the new node `n`. */
  predicate CanLink(l: Level, pred: Node, succ: Node, n: Node) {
    && pred in l.rank && succ in l.rank && n !in l.rank
    && Points(l, pred, succ)
    && n in l.next && l.next[n].ptr == succ
  }

  /** What the key comparisons of a search have established. */
  predicate FitsBetween(key: Node -> int, pred: Node, n: Node, succ: Node) {
    Compare(key, pred, n) < 0 && Compare(key, n, succ) <= 0
  }

  function DoLink(l: Level, pred: Node, n: Node): (l': Level)
    requires pred in l.rank && n !in l.rank
  {
    Level(l.next[pred := Link(n, false)], Shifted(l.rank, pred, n), l.linked + {n})
  }

  /** Taking `curr` out: `pred.next` goes from `curr` to a successor of `curr`
      that was loaded before. */
  predicate CanSwing(l: Level, pred: Node, curr: Node, succ: Node) {
    && pred in l.rank && curr in l.rank && succ in l.rank && curr != TAIL
    && Points(l, pred, curr)
    && l.rank[curr] < l.rank[succ]
  }

  function DoSwing(l: Level, pred: Node, curr: Node, succ: Node): (l': Level) {
    l.(next := l.next[pred := Link(succ, false)], linked := l.linked - {curr})
  }

  /** Splicing out a marked node: its pointer is frozen, so loading it and
      swinging the predecessor may be taken as one. */
  predicate CanSplice(l: Level, pred: Node, curr: Node) {
    && pred in l.rank && curr in l.rank && curr != TAIL
    && Points(l, pred, curr)
    && curr in l.next && l.next[curr].marked
  }

  function DoSplice(l: Level, pred: Node, curr: Node): (l': Level)
    requires curr in l.next
  {
    DoSwing(l, pred, curr, l.next[curr].ptr)
  }

  /** Setting the deletion mark on `n.next`; the pointer stays. */
  predicate CanMark(l: Level, n: Node) {
    n != HEAD && n in l.next && !l.next[n].marked
  }

  function DoMark(l: Level, n: Node): (l': Level)
    requires n in l.next
  {
    l.(next := l.next[n := l.next[n].(marked := true)])
  }

  /** A plain store into the slot of a node not linked at this level. */
  predicate CanStore(l: Level, n: Node) {
    n != HEAD && n != TAIL && n !in l.rank
  }

  function DoStore(l: Level, n: Node, succ: Node): (l': Level) {
    l.(next := l.next[n := Link(succ, false)])
  }

  // ------------------------------------------------------------------
  // Every write keeps the order
  // ------------------------------------------------------------------

  lemma LinkKeepsForward(l: Level, pred: Node, succ: Node, n: Node)
    requires Forward(l) && CanLink(l, pred, succ, n)
    ensures Forward(DoLink(l, pred, n))
  {
    var m := DoLink(l, pred, n);
    assert LeadsOn(l, pred) && LeadsOn(l, succ) && pred != TAIL;
    forall c
      ensures LeadsOn(m, c)
    {
      assert LeadsOn(l, c);
    }
  }

  /** A link keeps the keys in order exactly if the new node fits. */
  lemma LinkKeepsSortedIff(l: Level, key: Node -> int, pred: Node, succ: Node, n: Node)
    requires Forward(l) && Sorted(l, key) && CanLink(l, pred, succ, n) && n != TAIL && Compare(key, pred, n) <= 0
    ensures Sorted(DoLink(l, pred, n), key) <==> Compare(key, n, succ) <= 0
  {
    var m := DoLink(l, pred, n);
    assert LeadsOn(l, pred) && pred != n;
    assert m.next[n].ptr == succ;
    if Compare(key, n, succ) <= 0 {
      forall c
        ensures RisesAt(m, key, c)
      {
        assert RisesAt(l, key, c) && LeadsOn(l, c);
      }
    } else {
      assert !RisesAt(m, key, n);
    }
  }

  lemma SwingKeepsForward(l: Level, pred: Node, curr: Node, succ: Node)
    requires Forward(l) && CanSwing(l, pred, curr, succ)
    ensures Forward(DoSwing(l, pred, curr, succ))
  {
    var m := DoSwing(l, pred, curr, succ);
    assert LeadsOn(l, pred) && LeadsOn(l, curr) && LeadsOn(l, succ) && pred != TAIL;
    forall c
      ensures LeadsOn(m, c)
    {
      assert LeadsOn(l, c);
    }
  }

  lemma SwingKeepsSorted(l: Level, key: Node -> int, pred: Node, curr: Node, succ: Node)
    requires Forward(l) && Sorted(l, key) && CanSwing(l, pred, curr, succ) && Compare(key, curr, succ) <= 0
    ensures Sorted(DoSwing(l, pred, curr, succ), key)
  {
    assert LeadsOn(l, pred) && LeadsOn(l, curr) && RisesAt(l, key, pred) && pred != TAIL;
    forall c
      ensures RisesAt(DoSwing(l, pred, curr, succ), key, c)
    {
      assert RisesAt(l, key, c);
    }
  }

  /** A marked node can be swung out to where it points. */
  lemma SpliceIsSwing(l: Level, pred: Node, curr: Node)
    requires Forward(l) && pred in l.rank && curr in l.rank && curr != TAIL && Points(l, pred, curr)
    ensures curr in l.next && CanSwing(l, pred, curr, l.next[curr].ptr)
  {
    assert LeadsOn(l, curr);
  }

  lemma MarkKeepsForward(l: Level, n: Node)
    requires Forward(l) && CanMark(l, n)
    ensures Forward(DoMark(l, n))
  {
    forall c
      ensures LeadsOn(DoMark(l, n), c)
    {
      assert LeadsOn(l, c);
    }
  }

  lemma MarkKeepsSorted(l: Level, key: Node -> int, n: Node)
    requires Sorted(l, key) && CanMark(l, n)
    ensures Sorted(DoMark(l, n), key)
  {
    forall c
      ensures RisesAt(DoMark(l, n), key, c)
    {
      assert RisesAt(l, key, c);
    }
  }

  lemma StoreKeepsForward(l: Level, n: Node, succ: Node)
    requires Forward(l) && CanStore(l, n)
    ensures Forward(DoStore(l, n, succ))
  {
    forall c
      ensures LeadsOn(DoStore(l, n, succ), c)
    {
      assert LeadsOn(l, c);
    }
  }

  lemma StoreKeepsSorted(l: Level, key: Node -> int, n: Node, succ: Node)
    requires Sorted(l, key) && CanStore(l, n)
    ensures Sorted(DoStore(l, n, succ), key)
  {
    forall c
      ensures RisesAt(DoStore(l, n, succ), key, c)
    {
      assert RisesAt(l, key, c);
    }
  }

  // ------------------------------------------------------------------
  // Every write keeps the chain, swings of unmarked nodes apart
  // ------------------------------------------------------------------

  lemma LinkKeepsValid(l: Level, key: Node -> int, pred: Node, succ: Node, n: Node)
    requires Valid(l, key) && CanLink(l, pred, succ, n) && FitsBetween(key, pred, n, succ)
    ensures Valid(DoLink(l, pred, n), key)
  {
    var m := DoLink(l, pred, n);
    LinkKeepsForward(l, pred, succ, n);
    LinkKeepsSortedIff(l, key, pred, succ, n);
    assert LeadsOn(l, pred) && NodeOk(l, pred) && NodeOk(l, succ);
    forall c
      ensures NodeOk(m, c)
    {
      assert NodeOk(l, c);
    }
    forall c, s
      ensures PairOk(m, key, c, s)
    {
      LinkKeepsPair(l, key, pred, succ, n, c, s);
    }
  }

  lemma LinkKeepsPair(l: Level, key: Node -> int, pred: Node, succ: Node, n: Node, c: Node, s: Node)
    requires Valid(l, key) && CanLink(l, pred, succ, n) && FitsBetween(key, pred, n, succ) && pred in l.linked
    ensures PairOk(DoLink(l, pred, n), key, c, s)
  {
    assert PairOk(l, key, c, s) && LeadsOn(l, pred);
    if c == n {
      assert LeadsOn(l, succ) && LeadsOn(l, s) && NodeOk(l, pred);
      assert PairOk(l, key, pred, s) && PairOk(l, key, succ, s);
    } else if s == n {
      assert PairOk(l, key, c, pred);
    } else if c == pred {
      assert PairOk(l, key, s, pred);
    }
  }

  lemma SpliceKeepsValid(l: Level, key: Node -> int, pred: Node, curr: Node)
    requires Valid(l, key) && CanSplice(l, pred, curr)
    ensures Valid(DoSplice(l, pred, curr), key)
  {
    var m := DoSplice(l, pred, curr);
    var t := l.next[curr].ptr;
    SpliceIsSwing(l, pred, curr);
    SwingKeepsForward(l, pred, curr, t);
    assert RisesAt(l, key, curr);
    SwingKeepsSorted(l, key, pred, curr, t);
    assert LeadsOn(l, pred) && NodeOk(l, pred) && NodeOk(l, curr) && LeadsOn(l, t) && LeadsOn(l, curr);
    forall c
      ensures NodeOk(m, c)
    {
      assert NodeOk(l, c) && LeadsOn(l, c) && PairOk(l, key, pred, c) && PairOk(l, key, c, pred);
    }
    forall c, s
      ensures PairOk(m, key, c, s)
    {
      assert PairOk(l, key, c, s) && PairOk(l, key, curr, s);
    }
  }

  lemma MarkKeepsValid(l: Level, key: Node -> int, n: Node)
    requires Valid(l, key) && CanMark(l, n)
    ensures Valid(DoMark(l, n), key)
  {
    var m := DoMark(l, n);
    MarkKeepsForward(l, n);
    MarkKeepsSorted(l, key, n);
    forall c
      ensures NodeOk(m, c)
    {
      assert NodeOk(l, c);
    }
    forall c, s
      ensures PairOk(m, key, c, s)
    {
      assert PairOk(l, key, c, s);
    }
  }

  lemma StoreKeepsValid(l: Level, key: Node -> int, n: Node, succ: Node)
    requires Valid(l, key) && CanStore(l, n)
    ensures Valid(DoStore(l, n, succ), key)
  {
    var m := DoStore(l, n, succ);
    StoreKeepsForward(l, n, succ);
    StoreKeepsSorted(l, key, n, succ);
    forall c
      ensures NodeOk(m, c)
    {
      assert NodeOk(l, c);
    }
    forall c, s
      ensures PairOk(m, key, c, s)
    {
      assert PairOk(l, key, c, s);
    }
  }

  // ------------------------------------------------------------------
  // Walks
  // ------------------------------------------------------------------

  /** The nodes a walk from `c` meets, `c` among them; marks are ignored. */
  ghost function Walked(l: Level, c: Node): (w: set<Node>)
    requires Forward(l) && c in l.rank
    ensures c in w && w <= l.rank.Keys
    decreases assert LeadsOn(l, c); l.rank[TAIL] - l.rank[c]
  {
    if c == TAIL then {c} else
      assert LeadsOn(l, c); assert LeadsOn(l, l.next[c].ptr);
      {c} + Walked(l, l.next[c].ptr)
  }

  /** What can be reached at this level. */
  ghost predicate Reached(l: Level, n: Node)
    requires Forward(l)
  {
    n in Walked(l, HEAD)
  }

  lemma {:induction false} WalkedIsAhead(l: Level, c: Node, x: Node)
    requires Forward(l) && c in l.rank && x in Walked(l, c)
    ensures x in l.rank && l.rank[c] <= l.rank[x] && (x != c ==> l.rank[c] < l.rank[x])
    decreases assert LeadsOn(l, c); l.rank[TAIL] - l.rank[c]
  {
    assert LeadsOn(l, c);
    if c != TAIL && x != c {
      assert LeadsOn(l, l.next[c].ptr);
      WalkedIsAhead(l, l.next[c].ptr, x);
    }
  }

  /** A walk meets keys in order. */
  lemma {:induction false} WalkIsSorted(l: Level, key: Node -> int, c: Node, x: Node)
    requires Forward(l) && Sorted(l, key) && c in l.rank && x in Walked(l, c)
    ensures Compare(key, c, x) <= 0
    decreases assert LeadsOn(l, c); l.rank[TAIL] - l.rank[c]
  {
    assert LeadsOn(l, c) && RisesAt(l, key, c);
    if c != TAIL && x != c {
      assert LeadsOn(l, l.next[c].ptr);
      WalkIsSorted(l, key, l.next[c].ptr, x);
    }
  }

  /** A walk goes on as a walk. */
  lemma {:induction false} WalkGoesOn(l: Level, c: Node, d: Node)
    requires Forward(l) && c in l.rank && d in Walked(l, c)
    ensures d in l.rank && Walked(l, d) <= Walked(l, c)
    decreases assert LeadsOn(l, c); l.rank[TAIL] - l.rank[c]
  {
    assert LeadsOn(l, c);
    if c != TAIL && d != c {
      assert LeadsOn(l, l.next[c].ptr);
      WalkGoesOn(l, l.next[c].ptr, d);
    }
  }

  /** `path` follows forward pointers, marks ignored, from the head to `n`. */
  ghost predicate Walk(l: Level, path: seq<Node>, n: Node) {
    && |path| > 0 && path[0] == HEAD && path[|path| - 1] == n
    && (forall i :: 0 <= i < |path| - 1 ==> path[i] in l.next && l.next[path[i]].ptr == path[i + 1])
  }

  ghost predicate Reachable(l: Level, n: Node) {
    exists path :: Walk(l, path, n)
  }

  lemma {:induction false} WalkMeets(l: Level, path: seq<Node>, n: Node)
    requires Forward(l) && Walk(l, path, n)
    ensures Reached(l, n)
    decreases |path|
  {
    if |path| > 1 {
      var m := path[|path| - 2];
      assert Walk(l, path[..|path| - 1], m);
      WalkMeets(l, path[..|path| - 1], m);
      WalkGoesOn(l, HEAD, m);
      assert l.next[m].ptr == n && LeadsOn(l, m) && LeadsOn(l, n);
    }
  }

  lemma {:induction false} WalkOn(l: Level, path: seq<Node>, c: Node, n: Node) returns (full: seq<Node>)
    requires Forward(l) && c in l.rank && n in Walked(l, c) && Walk(l, path, c)
    ensures Walk(l, full, n)
    decreases assert LeadsOn(l, c); l.rank[TAIL] - l.rank[c]
  {
    assert LeadsOn(l, c);
    if c == n {
      full := path;
    } else {
      var d := l.next[c].ptr;
      assert LeadsOn(l, d);
      var p := path + [d];
      forall i | 0 <= i < |p| - 1
        ensures p[i] in l.next && l.next[p[i]].ptr == p[i + 1]
      {
        if i < |path| - 1 {
          assert p[i] == path[i] && p[i + 1] == path[i + 1];
        }
      }
      full := WalkOn(l, p, d, n);
    }
  }

  /** What some path from the head leads to is what a walk from the head meets. */
  lemma ReachedIsReachable(l: Level, n: Node)
    requires Forward(l)
    ensures Reached(l, n) <==> Reachable(l, n)
  {
    if Reached(l, n) {
      assert Walk(l, [HEAD], HEAD);
      var full := WalkOn(l, [HEAD], HEAD, n);
    }
    if Reachable(l, n) {
      var path :| Walk(l, path, n);
      WalkMeets(l, path, n);
    }
  }

  lemma {:induction false} WalkStaysLinked(l: Level, key: Node -> int, c: Node, n: Node)
    requires Valid(l, key) && c in l.linked && n in Walked(l, c)
    ensures n in l.linked
    decreases assert LeadsOn(l, c); l.rank[TAIL] - l.rank[c]
  {
    assert LeadsOn(l, c) && NodeOk(l, c);
    if c != TAIL && n != c {
      assert LeadsOn(l, l.next[c].ptr);
      WalkStaysLinked(l, key, l.next[c].ptr, n);
    }
  }

  lemma {:induction false} LinkedIsWalked(l: Level, key: Node -> int, c: Node, n: Node)
    requires Valid(l, key) && c in l.linked && n in l.linked && l.rank[c] <= l.rank[n]
    ensures n in Walked(l, c)
    decreases assert LeadsOn(l, c); l.rank[TAIL] - l.rank[c]
  {
    assert LeadsOn(l, c) && NodeOk(l, c) && LeadsOn(l, n) && PairOk(l, key, c, n) && PairOk(l, key, c, TAIL);
    if c != TAIL && n != c {
      assert LeadsOn(l, l.next[c].ptr);
      LinkedIsWalked(l, key, l.next[c].ptr, n);
    }
  }

  /** The nodes a walk from the head can meet are exactly those in `linked`,
      and every unmarked node that was ever linked is among them. */
  lemma LinkedIsReached(l: Level, key: Node -> int, n: Node)
    requires Valid(l, key)
    ensures Reached(l, n) <==> n in l.linked
    ensures n in l.rank && n in l.next && !l.next[n].marked ==> Reached(l, n)
  {
    assert NodeOk(l, n) && LeadsOn(l, n);
    if Reached(l, n) {
      WalkStaysLinked(l, key, HEAD, n);
    }
    if n in l.linked {
      LinkedIsWalked(l, key, HEAD, n);
    }
  }

  // ------------------------------------------------------------------
  // What the writes do to walks
  // ------------------------------------------------------------------

  /** A walk that meets no changed pointer is the same. */
  lemma {:induction false} SameWalk(l: Level, m: Level, c: Node)
    requires Forward(l) && Forward(m) && c in l.rank && c in m.rank
    requires forall x <- Walked(l, c) :: x != TAIL ==> x in l.next && x in m.next && m.next[x].ptr == l.next[x].ptr
    ensures Walked(m, c) == Walked(l, c)
    decreases assert LeadsOn(l, c); l.rank[TAIL] - l.rank[c]
  {
    assert LeadsOn(l, c) && LeadsOn(m, c);
    if c != TAIL {
      assert LeadsOn(l, l.next[c].ptr);
      SameWalk(l, m, l.next[c].ptr);
    }
  }

  /** Linking a node adds it to the walks that pass its predecessor, and changes
      nothing else. */
  lemma {:induction false} LinkWalks(l: Level, pred: Node, succ: Node, n: Node, c: Node)
    requires Forward(l) && CanLink(l, pred, succ, n) && c in l.rank && Forward(DoLink(l, pred, n))
    ensures Walked(DoLink(l, pred, n), c) == Walked(l, c) + if pred in Walked(l, c) then {n} else {}
    decreases assert LeadsOn(l, c); l.rank[TAIL] - l.rank[c]
  {
    var m := DoLink(l, pred, n);
    assert LeadsOn(l, c) && LeadsOn(m, c) && LeadsOn(l, pred);
    if c == pred {
      assert LeadsOn(l, succ) && LeadsOn(m, n);
      forall x | x in Walked(l, succ)
        ensures x != pred && x != n
      {
        WalkedIsAhead(l, succ, x);
      }
      forall x | x in Walked(l, succ) && x != TAIL
        ensures x in l.next && x in m.next && m.next[x].ptr == l.next[x].ptr
      {
        WalkedIsAhead(l, succ, x);
        assert LeadsOn(l, x);
      }
      SameWalk(l, m, succ);
    } else if c != TAIL {
      assert LeadsOn(l, l.next[c].ptr);
      LinkWalks(l, pred, succ, n, l.next[c].ptr);
    }
  }

  /** Swinging a node out: walks that pass the predecessor go on from the new
      successor. */
  lemma {:induction false} SwingWalks(l: Level, pred: Node, curr: Node, succ: Node, c: Node, x: Node)
    requires Forward(l) && CanSwing(l, pred, curr, succ) && c in l.rank && Forward(DoSwing(l, pred, curr, succ))
    ensures x in Walked(DoSwing(l, pred, curr, succ), c) <==>
            if pred !in Walked(l, c) then x in Walked(l, c)
            else x in Walked(l, succ) || (x in Walked(l, c) && l.rank[x] <= l.rank[pred])
    decreases assert LeadsOn(l, c); l.rank[TAIL] - l.rank[c]
  {
    var m := DoSwing(l, pred, curr, succ);
    assert LeadsOn(l, c) && LeadsOn(m, c) && LeadsOn(l, pred) && LeadsOn(l, succ);
    if x in Walked(l, c) {
      WalkedIsAhead(l, c, x);
    }
    if c == pred {
      forall y | y in Walked(l, succ)
        ensures y != pred
      {
        WalkedIsAhead(l, succ, y);
      }
      forall y | y in Walked(l, succ) && y != TAIL
        ensures y in l.next && y in m.next && m.next[y].ptr == l.next[y].ptr
      {
        WalkedIsAhead(l, succ, y);
        assert LeadsOn(l, y);
      }
      SameWalk(l, m, succ);
      assert x in Walked(l, curr) ==> l.rank[x] > l.rank[pred] by {
        if x in Walked(l, curr) {
          WalkedIsAhead(l, curr, x);
        }
      }
    } else if c != TAIL {
      var d := l.next[c].ptr;
      assert LeadsOn(l, d);
      SwingWalks(l, pred, curr, succ, d, x);
      if pred in Walked(l, d) {
        WalkedIsAhead(l, d, pred);
      }
    }
  }

  /** Every node but the target is on the same walks as before. */
  ghost predicate TakesOutOnly(l: Level, m: Level, n: Node)
    requires Forward(l) && Forward(m) && l.rank == m.rank
  {
    forall c, x :: c in l.rank && x != n ==> (x in Walked(m, c) <==> x in Walked(l, c))
  }

  /** A swing takes out its target and nothing else, and brings nothing back, if
      and only if the successor loaded before is still the target's. */
  lemma SwingIsExactIff(l: Level, pred: Node, curr: Node, succ: Node)
    requires Forward(l) && CanSwing(l, pred, curr, succ) && Forward(DoSwing(l, pred, curr, succ))
    ensures curr in l.next
    ensures TakesOutOnly(l, DoSwing(l, pred, curr, succ), curr) <==> succ == l.next[curr].ptr
  {
    var m := DoSwing(l, pred, curr, succ);
    assert LeadsOn(l, curr) && LeadsOn(l, pred) && LeadsOn(l, l.next[curr].ptr);
    var t := l.next[curr].ptr;
    if succ == t {
      forall c, x | c in l.rank && x != curr
        ensures x in Walked(m, c) <==> x in Walked(l, c)
      {
        ExactSwingWalks(l, pred, curr, c, x);
      }
    } else {
      SwingWalks(l, pred, curr, succ, pred, succ);
      SwingWalks(l, pred, curr, succ, pred, t);
      assert Walked(l, pred) == {pred, curr} + Walked(l, t);
      assert succ in Walked(m, pred);
      if t in Walked(m, pred) && succ in Walked(l, pred) {
        assert t in Walked(l, succ) && succ in Walked(l, t);
        WalkedIsAhead(l, succ, t);
        WalkedIsAhead(l, t, succ);
        assert false;
      }
      assert t in Walked(l, pred);
    }
  }

  /** An exact swing takes the target off the walks that pass the predecessor. */
  lemma ExactSwingWalks(l: Level, pred: Node, curr: Node, c: Node, x: Node)
    requires Forward(l) && curr in l.next && CanSwing(l, pred, curr, l.next[curr].ptr) && c in l.rank
    requires Forward(DoSplice(l, pred, curr))
    ensures x in Walked(DoSplice(l, pred, curr), c) <==> x in Walked(l, c) && (x != curr || pred !in Walked(l, c))
  {
    var t := l.next[curr].ptr;
    assert LeadsOn(l, curr) && LeadsOn(l, pred) && LeadsOn(l, t);
    SwingWalks(l, pred, curr, t, c, x);
    if pred in Walked(l, c) {
      WalkGoesOn(l, c, pred);
      assert Walked(l, pred) == {pred, curr} + Walked(l, t);
      if x in Walked(l, c) {
        PassesOr(l, c, pred, x);
      }
      if x in Walked(l, t) {
        WalkedIsAhead(l, t, x);
      }
    }
  }

  /** What a walk meets lies before a node it passes, or is met from there. */
  lemma {:induction false} PassesOr(l: Level, c: Node, d: Node, x: Node)
    requires Forward(l) && c in l.rank && d in Walked(l, c) && x in Walked(l, c)
    ensures d in l.rank && x in l.rank && (x in Walked(l, d) || l.rank[x] < l.rank[d])
    decreases assert LeadsOn(l, c); l.rank[TAIL] - l.rank[c]
  {
    assert LeadsOn(l, c);
    WalkedIsAhead(l, c, d);
    WalkedIsAhead(l, c, x);
    if c != TAIL && d != c && x != c {
      assert LeadsOn(l, l.next[c].ptr);
      PassesOr(l, l.next[c].ptr, d, x);
    }
  }

  // ------------------------------------------------------------------
  // What no write can undo
  // ------------------------------------------------------------------

  /** What every later state of a level keeps of an earlier one: the order of
      the nodes, and the marks of linked nodes with the pointers they freeze. */
  ghost predicate NodeEvolves(l: Level, m: Level, c: Node) {
    c in l.rank ==>
      && c in m.rank
      && (c in l.next && l.next[c].marked ==> c in m.next && m.next[c] == l.next[c])
  }

  ghost predicate OrderEvolves(l: Level, m: Level, c: Node, d: Node) {
    c in l.rank && d in l.rank ==>
      c in m.rank && d in m.rank && (l.rank[c] < l.rank[d] <==> m.rank[c] < m.rank[d])
  }

  ghost predicate Evolves(l: Level, m: Level) {
    && (forall c :: NodeEvolves(l, m, c))
    && (forall c, d :: OrderEvolves(l, m, c, d))
  }

  lemma EvolvesTransitive(l: Level, m: Level, k: Level)
    requires Evolves(l, m) && Evolves(m, k)
    ensures Evolves(l, k)
  {
    forall c
      ensures NodeEvolves(l, k, c)
    {
      assert NodeEvolves(l, m, c) && NodeEvolves(m, k, c);
    }
    forall c, d
      ensures OrderEvolves(l, k, c, d)
    {
      assert OrderEvolves(l, m, c, d) && OrderEvolves(m, k, c, d);
    }
  }

  lemma LinkEvolves(l: Level, pred: Node, n: Node)
    requires pred in l.rank && pred in l.next && !l.next[pred].marked && n !in l.rank
    ensures Evolves(l, DoLink(l, pred, n))
  {
  }

  lemma SwingEvolves(l: Level, pred: Node, curr: Node, succ: Node)
    requires Points(l, pred, curr)
    ensures Evolves(l, DoSwing(l, pred, curr, succ))
  {
  }

  // ------------------------------------------------------------------
  // All writes alike
  // ------------------------------------------------------------------

  /** One write to a level: a plain store into an unlinked node's slot, a swing
      that links `n`, a swing that takes `n` out, or a mark. */
  datatype Write =
    | Keep
    | Put(n: Node, succ: Node)
    | LinkIn(pred: Node, succ: Node, n: Node)
    | TakeOut(pred: Node, n: Node, succ: Node)
    | SetMark(n: Node)

  predicate CanWrite(l: Level, w: Write) {
    match w
    case Keep => true
    case Put(n, _) => CanStore(l, n)
    case LinkIn(pred, succ, n) => CanLink(l, pred, succ, n)
    case TakeOut(pred, n, succ) => CanSwing(l, pred, n, succ)
    case SetMark(n) => CanMark(l, n)
  }

  /** The keys fit. */
  predicate KeysFit(key: Node -> int, w: Write) {
    match w
    case LinkIn(pred, succ, n) => FitsBetween(key, pred, n, succ)
    case TakeOut(_, n, succ) => Compare(key, n, succ) <= 0
    case _ => true
  }

  function DoWrite(l: Level, w: Write): Level
    requires w.LinkIn? ==> w.pred in l.rank && w.n !in l.rank
    requires w.SetMark? ==> w.n in l.next
  {
    match w
    case Keep => l
    case Put(n, succ) => DoStore(l, n, succ)
    case LinkIn(pred, _, n) => DoLink(l, pred, n)
    case TakeOut(pred, n, succ) => DoSwing(l, pred, n, succ)
    case SetMark(n) => DoMark(l, n)
  }

  lemma WriteKeepsForward(l: Level, w: Write)
    requires Forward(l) && CanWrite(l, w)
    ensures Forward(DoWrite(l, w)) && Evolves(l, DoWrite(l, w))
  {
    match w
    case Keep =>
    case Put(n, succ) =>
      StoreKeepsForward(l, n, succ);
    case LinkIn(pred, succ, n) =>
      LinkKeepsForward(l, pred, succ, n);
      LinkEvolves(l, pred, n);
    case TakeOut(pred, n, succ) =>
      SwingKeepsForward(l, pred, n, succ);
      SwingEvolves(l, pred, n, succ);
    case SetMark(n) =>
      MarkKeepsForward(l, n);
  }

  lemma WriteKeepsSorted(l: Level, key: Node -> int, w: Write)
    requires Forward(l) && Sorted(l, key) && CanWrite(l, w) && KeysFit(key, w)
    ensures Sorted(DoWrite(l, w), key)
  {
    match w
    case Keep =>
    case Put(n, succ) => StoreKeepsSorted(l, key, n, succ);
    case LinkIn(pred, succ, n) => LinkKeepsSortedIff(l, key, pred, succ, n);
    case TakeOut(pred, n, succ) => SwingKeepsSorted(l, key, pred, n, succ);
    case SetMark(n) => MarkKeepsSorted(l, key, n);
  }

  /** A node is taken out to where it points, and for good. */
  predicate TakesOutMarked(l: Level, w: Write) {
    w.TakeOut? ==> w.n in l.next && l.next[w.n] == Link(w.succ, true)
  }

  lemma WriteKeepsValid(l: Level, key: Node -> int, w: Write)
    requires Valid(l, key) && CanWrite(l, w) && KeysFit(key, w) && TakesOutMarked(l, w)
    ensures Valid(DoWrite(l, w), key)
  {
    match w
    case Keep =>
    case Put(n, succ) => StoreKeepsValid(l, key, n, succ);
    case LinkIn(pred, succ, n) => LinkKeepsValid(l, key, pred, succ, n);
    case TakeOut(pred, n, _) => SpliceKeepsValid(l, key, pred, n);
    case SetMark(n) => MarkKeepsValid(l, key, n);
  }

  lemma WriteRanks(l: Level, w: Write, n: Node)
    requires CanWrite(l, w)
    ensures n in DoWrite(l, w).rank <==> n in l.rank || (w.LinkIn? && w.n == n)
  {
  }

  /** The node whose own slot a write changes other than as a predecessor. */
  predicate WritesOwn(w: Write, n: Node) {
    (w.Put? || w.LinkIn? || w.SetMark?) && w.n == n
  }

  /** What a write leaves alone of the slot of another node. */
  ghost predicate SlotUntouched(l: Level, m: Level, n: Node) {
    && (n in l.rank <==> n in m.rank)
    && (n in l.next <==> n in m.next)
    && (n in l.next ==> l.next[n].marked == m.next[n].marked)
    && (n in l.next && (l.next[n].marked || n !in l.rank) ==> l.next[n] == m.next[n])
  }

  lemma WriteKeepsSlot(l: Level, w: Write, n: Node)
    requires CanWrite(l, w) && !WritesOwn(w, n)
    ensures SlotUntouched(l, DoWrite(l, w), n)
  {
  }
}
