/**
  The shape of a sequential skip list: one ordered sequence of nodes, of which
  level `l` links those of height at least `l`.
 */
module Towers {
  import opened LevelChain

  /** A node's level array, `MAX_HEIGHT` slots whatever its height. */
  type Slots = s: seq<Link> | |s| == MAX_HEIGHT witness seq(MAX_HEIGHT, _ => Link(TAIL, false))

  /** The nodes of `nodes` whose tower reaches level `l`, in order. */
  ghost function Tower(nodes: seq<Node>, height: map<Node, nat>, l: nat): (t: seq<Node>)
    ensures |t| <= |nodes|
  {
    if nodes == [] then []
    else (if nodes[0] in height && height[nodes[0]] >= l then [nodes[0]] else []) + Tower(nodes[1..], height, l)
  }

  lemma {:induction false} TowerConcat(a: seq<Node>, b: seq<Node>, height: map<Node, nat>, l: nat)
    ensures Tower(a + b, height, l) == Tower(a, height, l) + Tower(b, height, l)
  {
    if a == [] {
      assert a + b == b;
    } else {
      assert (a + b)[1..] == a[1..] + b;
      TowerConcat(a[1..], b, height, l);
    }
  }

  lemma {:induction false} TowerMembers(nodes: seq<Node>, height: map<Node, nat>, l: nat, x: Node)
    ensures x in Tower(nodes, height, l) <==> x in nodes && x in height && height[x] >= l
  {
    if nodes != [] {
      TowerMembers(nodes[1..], height, l, x);
    }
  }

  /** A node whose height changes matters to no tower it is not part of. */
  lemma {:induction false} TowerFrame(nodes: seq<Node>, height: map<Node, nat>, height': map<Node, nat>, l: nat)
    requires forall x <- nodes :: (x in height && height[x] >= l) <==> (x in height' && height'[x] >= l)
    ensures Tower(nodes, height, l) == Tower(nodes, height', l)
  {
    if nodes != [] {
      TowerFrame(nodes[1..], height, height', l);
    }
  }

  lemma TowerUntouched(nodes: seq<Node>, height: map<Node, nat>, n: Node, h: nat, l: nat)
    requires n !in nodes
    ensures Tower(nodes, height[n := h], l) == Tower(nodes, height, l)
  {
    TowerFrame(nodes, height, height[n := h], l);
  }

  lemma TowerEmpty(nodes: seq<Node>, height: map<Node, nat>, l: nat)
    requires AllFit(nodes, height, l)
    ensures Tower(nodes, height, l) == []
  {
    var t := Tower(nodes, height, l);
    if t != [] {
      TowerMembers(nodes, height, l, t[0]);
    }
  }

  lemma TowerSplits(nodes: seq<Node>, height: map<Node, nat>, k: nat, l: nat)
    requires k <= |nodes|
    ensures Tower(nodes, height, l) == Tower(nodes[..k], height, l) + Tower(nodes[k..], height, l)
  {
    TowerConcat(nodes[..k], nodes[k..], height, l);
    assert nodes[..k] + nodes[k..] == nodes;
  }

  /** Level 0 threads all nodes. */
  lemma {:induction false} TowerZero(nodes: seq<Node>, height: map<Node, nat>, levels: nat)
    requires AllFit(nodes, height, levels)
    ensures Tower(nodes, height, 0) == nodes
  {
    if nodes != [] {
      assert Fits(height, levels, nodes[0]);
      TowerZero(nodes[1..], height, levels);
    }
  }

  /** Level `l` around the node at `pos`. */
  lemma TowerAround(nodes: seq<Node>, height: map<Node, nat>, pos: nat, l: nat)
    requires pos < |nodes|
    ensures Tower(nodes, height, l)
         == Tower(nodes[..pos], height, l) + (if Reaches(height, nodes[pos], l) then [nodes[pos]] else []) + Tower(nodes[pos + 1..], height, l)
  {
    assert nodes == (nodes[..pos] + [nodes[pos]]) + nodes[pos + 1..];
    TowerConcat(nodes[..pos] + [nodes[pos]], nodes[pos + 1..], height, l);
    TowerConcat(nodes[..pos], [nodes[pos]], height, l);
    assert Tower([nodes[pos]], height, l) == if Reaches(height, nodes[pos], l) then [nodes[pos]] else [];
  }

  lemma NotAmong(nodes: seq<Node>, pos: nat)
    requires Distinct(nodes) && pos < |nodes|
    ensures nodes[pos] !in nodes[..pos] && nodes[pos] !in nodes[pos + 1..]
  {
    Once(nodes, pos);
  }

  ghost predicate Differ(s: seq<Node>, i: nat, j: nat)
    requires i < |s| && j < |s|
  {
    s[i] != s[j]
  }

  ghost predicate Distinct(s: seq<Node>) {
    forall i, j :: 0 <= i < j < |s| ==> Differ(s, i, j)
  }

  lemma Apart(s: seq<Node>, i: nat, j: nat)
    requires Distinct(s) && i < |s| && j < |s| && i != j
    ensures s[i] != s[j]
  {
    assert if i < j then Differ(s, i, j) else Differ(s, j, i);
  }

  lemma DistinctRest(s: seq<Node>)
    requires Distinct(s) && s != []
    ensures Distinct(s[1..]) && s[0] !in s[1..]
  {
    forall i, j | 0 <= i < j < |s[1..]|
      ensures Differ(s[1..], i, j)
    {
      Apart(s, i + 1, j + 1);
    }
    if s[0] in s[1..] {
      var i :| 0 <= i < |s[1..]| && s[1..][i] == s[0];
      Apart(s, 0, i + 1);
    }
  }

  lemma DistinctMore(x: Node, s: seq<Node>)
    requires Distinct(s) && x !in s
    ensures Distinct([x] + s)
  {
    forall i, j | 0 <= i < j < |[x] + s|
      ensures Differ([x] + s, i, j)
    {
      if i > 0 {
        Apart(s, i - 1, j - 1);
      }
    }
  }

  ghost predicate Interior(s: seq<Node>) {
    forall x <- s :: x != HEAD && x != TAIL
  }

  ghost predicate Within(s: seq<Node>, domain: set<Node>) {
    forall x <- s :: x in domain
  }

  lemma {:induction false} TowerDistinct(nodes: seq<Node>, height: map<Node, nat>, l: nat)
    requires Distinct(nodes) && Interior(nodes)
    ensures Distinct(Tower(nodes, height, l)) && Interior(Tower(nodes, height, l))
  {
    if nodes != [] {
      var t := Tower(nodes[1..], height, l);
      DistinctRest(nodes);
      assert forall x <- nodes[1..] :: x in nodes;
      TowerDistinct(nodes[1..], height, l);
      TowerMembers(nodes[1..], height, l, nodes[0]);
      DistinctMore(nodes[0], t);
      assert nodes[0] in nodes && [] + t == t;
    }
  }

  ghost predicate NotAbove(s: seq<Node>, key: map<Node, int>, i: nat, j: nat)
    requires i < |s| && j < |s| && s[i] in key && s[j] in key
  {
    key[s[i]] <= key[s[j]]
  }

  ghost predicate Ascending(s: seq<Node>, key: map<Node, int>) {
    && (forall x <- s :: x in key)
    && (forall i, j :: 0 <= i < j < |s| ==> NotAbove(s, key, i, j))
  }

  ghost predicate UnlikeKeys(s: seq<Node>, key: map<Node, int>, i: nat, j: nat)
    requires i < |s| && j < |s| && s[i] in key && s[j] in key
  {
    key[s[i]] != key[s[j]]
  }

  ghost predicate DistinctKeys(s: seq<Node>, key: map<Node, int>)
    requires forall x <- s :: x in key
  {
    forall i, j :: 0 <= i < j < |s| ==> UnlikeKeys(s, key, i, j)
  }

  lemma Rises(s: seq<Node>, key: map<Node, int>, i: nat, j: nat)
    requires Ascending(s, key) && DistinctKeys(s, key) && i < j < |s|
    ensures key[s[i]] < key[s[j]]
  {
    assert NotAbove(s, key, i, j) && UnlikeKeys(s, key, i, j);
  }

  /** The rest of an ascending sequence ascends, from its head on. */
  lemma Ascends(s: seq<Node>, key: map<Node, int>)
    requires Ascending(s, key) && s != []
    ensures Ascending(s[1..], key) && forall x <- s :: key[s[0]] <= key[x]
  {
    forall i, j | 0 <= i < j < |s[1..]|
      ensures NotAbove(s[1..], key, i, j)
    {
      var i', j' := i + 1, j + 1;
      assert NotAbove(s, key, i', j');
    }
    forall x | x in s
      ensures key[s[0]] <= key[x]
    {
      var i :| 0 <= i < |s| && s[i] == x;
      assert i > 0 ==> NotAbove(s, key, 0, i);
    }
  }

  lemma {:induction false} TowerAscending(nodes: seq<Node>, height: map<Node, nat>, key: map<Node, int>, l: nat)
    requires Ascending(nodes, key)
    ensures Ascending(Tower(nodes, height, l), key)
  {
    if nodes != [] {
      Ascends(nodes, key);
      TowerAscending(nodes[1..], height, key, l);
      var t := Tower(nodes[1..], height, l);
      forall x | x in t
        ensures key[nodes[0]] <= key[x]
      {
        TowerMembers(nodes[1..], height, l, x);
      }
      if nodes[0] in height && height[nodes[0]] >= l {
        Prepend(nodes[0], t, key);
      } else {
        assert Tower(nodes, height, l) == t;
      }
    }
  }

  lemma Prepend(x: Node, s: seq<Node>, key: map<Node, int>)
    requires Ascending(s, key) && x in key && forall y <- s :: key[x] <= key[y]
    ensures Ascending([x] + s, key)
  {
    forall i, j | 0 <= i < j < |[x] + s|
      ensures NotAbove([x] + s, key, i, j)
    {
      var i', j' := i - 1, j - 1;
      assert ([x] + s)[j] == s[j'] && s[j'] in s;
      assert i > 0 ==> ([x] + s)[i] == s[i'] && NotAbove(s, key, i', j');
    }
  }

  /** How many nodes at the front have a key below `q`. */
  ghost function Below(nodes: seq<Node>, key: map<Node, int>, q: int): (k: nat)
    requires forall x <- nodes :: x in key
    ensures k <= |nodes|
    ensures forall i :: 0 <= i < k ==> key[nodes[i]] < q
    ensures k < |nodes| ==> key[nodes[k]] >= q
  {
    if nodes == [] || key[nodes[0]] >= q then 0 else 1 + Below(nodes[1..], key, q)
  }

  lemma BelowIs(nodes: seq<Node>, key: map<Node, int>, q: int, k: nat)
    requires forall x <- nodes :: x in key
    requires k <= |nodes| && (forall i :: 0 <= i < k ==> key[nodes[i]] < q) && (k < |nodes| ==> key[nodes[k]] >= q)
    ensures Below(nodes, key, q) == k
  {
    var b := Below(nodes, key, q);
    var m := if b < k then b else k;
    assert m < |nodes| ==> nodes[m] in nodes;
  }

  lemma BelowSplits(nodes: seq<Node>, key: map<Node, int>, q: int)
    requires Ascending(nodes, key)
    ensures var k := Below(nodes, key, q); forall x <- nodes[k..] :: key[x] >= q
  {
    var k := Below(nodes, key, q);
    forall x | x in nodes[k..]
      ensures key[x] >= q
    {
      var i :| k <= i < |nodes| && nodes[i] == x;
      assert i > k ==> NotAbove(nodes, key, k, i);
    }
  }

  // ------------------------------------------------------------------
  // Pointers that thread a chain
  // ------------------------------------------------------------------

  ghost function Chain(c: seq<Node>): seq<Node> {
    [HEAD] + c + [TAIL]
  }

  ghost predicate Leads(next: map<Node, Slots>, l: nat, c: seq<Node>, i: nat)
    requires l < MAX_HEIGHT && i <= |c|
  {
    Chain(c)[i] in next && next[Chain(c)[i]][l].ptr == Chain(c)[i + 1]
  }

  /** At level `l` the pointers run through `c`, marks ignored. */
  ghost predicate Threads(next: map<Node, Slots>, l: nat, c: seq<Node>)
    requires l < MAX_HEIGHT
  {
    forall i :: 0 <= i <= |c| ==> Leads(next, l, c, i)
  }

  ghost predicate Plain(slots: Slots, h: nat) {
    forall l :: 0 <= l <= h && l < MAX_HEIGHT ==> !slots[l].marked
  }

  ghost predicate CleanAt(next: map<Node, Slots>, height: map<Node, nat>, x: Node) {
    x in next && x in height && Plain(next[x], height[x])
  }

  /** No pointer of the head or of a listed node carries a mark. */
  ghost predicate Clean(next: map<Node, Slots>, nodes: seq<Node>, height: map<Node, nat>) {
    && HEAD in next && Plain(next[HEAD], MAX_HEIGHT)
    && (forall x <- nodes :: CleanAt(next, height, x))
  }

  ghost predicate Fits(height: map<Node, nat>, levels: nat, x: Node) {
    x in height && height[x] < levels
  }

  ghost predicate Reaches(height: map<Node, nat>, x: Node, l: nat) {
    x in height && height[x] >= l
  }

  ghost predicate AllFit(nodes: seq<Node>, height: map<Node, nat>, levels: nat) {
    forall x <- nodes :: Fits(height, levels, x)
  }

  ghost function LastOf(a: seq<Node>): Node {
    if a == [] then HEAD else a[|a| - 1]
  }

  ghost function FirstOf(b: seq<Node>): Node {
    if b == [] then TAIL else b[0]
  }

  /** Slots at level `l` agree but for those of `except`. */
  ghost predicate SameSlots(next: map<Node, Slots>, next': map<Node, Slots>, l: nat, except: set<Node>)
    requires l < MAX_HEIGHT
  {
    forall x <- next.Keys :: x !in except ==> x in next' && next'[x][l].ptr == next[x][l].ptr
  }

  /** Level `l` leads exactly through the nodes tall enough for it. */
  ghost predicate LevelThreads(next: map<Node, Slots>, nodes: seq<Node>, height: map<Node, nat>, l: nat)
    requires l < MAX_HEIGHT
  {
    Threads(next, l, Tower(nodes, height, l))
  }

  ghost predicate Threaded(next: map<Node, Slots>, nodes: seq<Node>, height: map<Node, nat>) {
    forall l :: 0 <= l < MAX_HEIGHT ==> LevelThreads(next, nodes, height, l)
  }

  /** The towers of a list: distinct nodes below the head's height, linked at
      every level of their own, without marks. */
  ghost predicate Shaped(next: map<Node, Slots>, nodes: seq<Node>, height: map<Node, nat>, levels: nat) {
    && Distinct(nodes) && Interior(nodes)
    && 1 <= levels < MAX_HEIGHT && AllFit(nodes, height, levels)
    && Threaded(next, nodes, height) && Clean(next, nodes, height)
  }

  lemma ThreadsFrame(next: map<Node, Slots>, next': map<Node, Slots>, l: nat, c: seq<Node>)
    requires l < MAX_HEIGHT && Threads(next, l, c) && SameSlots(next, next', l, {})
    ensures Threads(next', l, c)
  {
    forall i | 0 <= i <= |c|
      ensures Leads(next', l, c, i)
    {
      assert Leads(next, l, c, i);
    }
  }

  lemma ChainDistinct(c: seq<Node>, i: nat, j: nat)
    requires Distinct(c) && Interior(c) && i <= |c| + 1 && j <= |c| + 1 && i != j
    ensures Chain(c)[i] != Chain(c)[j]
  {
    if 1 <= i <= |c| && 1 <= j <= |c| {
      Apart(c, i - 1, j - 1);
    }
    assert forall k :: 1 <= k <= |c| ==> Chain(c)[k] == c[k - 1] && c[k - 1] in c;
  }

  lemma Position(c: seq<Node>, x: Node) returns (j: nat)
    requires x == HEAD || x in c
    ensures j <= |c| && Chain(c)[j] == x
  {
    if x == HEAD {
      j := 0;
    } else {
      var i :| 0 <= i < |c| && c[i] == x;
      j := i + 1;
    }
  }

  lemma Once(s: seq<Node>, j: nat)
    requires Distinct(s) && j < |s|
    ensures forall i :: 0 <= i < |s| && s[i] == s[j] ==> i == j
  {
    forall i | 0 <= i < |s| && i != j
      ensures s[i] != s[j]
    {
      Apart(s, i, j);
    }
  }

  lemma ThreadsInsert(next: map<Node, Slots>, next': map<Node, Slots>, l: nat, a: seq<Node>, n: Node, b: seq<Node>)
    requires l < MAX_HEIGHT && Distinct(a + [n] + b) && Interior(a + [n] + b)
    requires Threads(next, l, a + b)
    requires SameSlots(next, next', l, {LastOf(a), n})
    requires LastOf(a) in next' && next'[LastOf(a)][l].ptr == n
    requires n in next' && next'[n][l].ptr == FirstOf(b)
    ensures Threads(next', l, a + [n] + b)
  {
    var c, d := Chain(a + b), Chain(a + [n] + b);
    assert d[|a|] == LastOf(a) && d[|a| + 1] == n;
    forall i | 0 <= i <= |a + [n] + b|
      ensures Leads(next', l, a + [n] + b, i)
    {
      if i < |a| || i > |a| + 1 {
        ChainDistinct(a + [n] + b, i, |a|);
        ChainDistinct(a + [n] + b, i, |a| + 1);
      }
      if i < |a| {
        assert Leads(next, l, a + b, i);
        assert d[i] == c[i] && d[i + 1] == c[i + 1];
      } else if i == |a| {
        assert d[i] == LastOf(a) && d[i + 1] == n;
      } else if i == |a| + 1 {
        assert d[i] == n && d[i + 1] == FirstOf(b);
      } else {
        assert Leads(next, l, a + b, i - 1);
        assert d[i] == c[i - 1] && d[i + 1] == c[i];
      }
    }
  }

  ghost function Inserted(nodes: seq<Node>, k: nat, n: Node): (r: seq<Node>)
    requires k <= |nodes|
    ensures |r| == |nodes| + 1
  {
    nodes[..k] + [n] + nodes[k..]
  }

  /** Level `l` with `n` linked into it before the `k`-th node. */
  ghost function Spliced(nodes: seq<Node>, height: map<Node, nat>, k: nat, n: Node, l: nat): seq<Node>
    requires k <= |nodes|
  {
    Tower(nodes[..k], height, l) + [n] + Tower(nodes[k..], height, l)
  }

  lemma InsertedTower(nodes: seq<Node>, height: map<Node, nat>, k: nat, n: Node, l: nat)
    requires k <= |nodes| && n in height
    ensures Tower(Inserted(nodes, k, n), height, l)
         == if height[n] >= l then Spliced(nodes, height, k, n, l) else Tower(nodes, height, l)
  {
    TowerConcat(nodes[..k] + [n], nodes[k..], height, l);
    TowerConcat(nodes[..k], [n], height, l);
    TowerConcat(nodes[..k], nodes[k..], height, l);
    assert nodes[..k] + nodes[k..] == nodes;
    assert Tower([n], height, l) == if height[n] >= l then [n] else [];
    if height[n] < l {
      assert Tower(nodes[..k], height, l) + [] == Tower(nodes[..k], height, l);
    }
  }

  lemma InsertedInOrder(nodes: seq<Node>, key: map<Node, int>, n: Node, dups: bool)
    requires Ascending(nodes, key) && n in key
    requires !dups ==> DistinctKeys(nodes, key)
    requires var k := Below(nodes, key, key[n]); k < |nodes| && key[nodes[k]] == key[n] ==> dups
    ensures var r := Inserted(nodes, Below(nodes, key, key[n]), n);
            Ascending(r, key) && (!dups ==> DistinctKeys(r, key))
  {
    var k := Below(nodes, key, key[n]);
    BelowSplits(nodes, key, key[n]);
    InsertedWithin(nodes, k, n, key.Keys);
    AscendingAround(nodes, k, n, key);
    if !dups {
      DistinctAround(nodes, k, n, key);
    }
  }

  lemma AscendingAround(nodes: seq<Node>, k: nat, n: Node, key: map<Node, int>)
    requires Ascending(nodes, key) && n in key && k == Below(nodes, key, key[n])
    requires Within(Inserted(nodes, k, n), key.Keys)
    ensures Ascending(Inserted(nodes, k, n), key)
  {
    var d := Inserted(nodes, k, n);
    BelowSplits(nodes, key, key[n]);
    forall i, j | 0 <= i < j < |d|
      ensures NotAbove(d, key, i, j)
    {
      Around(nodes, k, n, i);
      Around(nodes, k, n, j);
      var i', j' := if i < k then i else i - 1, if j < k then j else j - 1;
      if i != k && j != k {
        assert NotAbove(nodes, key, i', j');
      }
    }
  }

  lemma DistinctAround(nodes: seq<Node>, k: nat, n: Node, key: map<Node, int>)
    requires Ascending(nodes, key) && n in key && k == Below(nodes, key, key[n])
    requires DistinctKeys(nodes, key) && (k < |nodes| ==> key[nodes[k]] != key[n])
    requires Within(Inserted(nodes, k, n), key.Keys)
    ensures DistinctKeys(Inserted(nodes, k, n), key)
  {
    var d := Inserted(nodes, k, n);
    forall i, j | 0 <= i < j < |d|
      ensures UnlikeKeys(d, key, i, j)
    {
      Around(nodes, k, n, i);
      Around(nodes, k, n, j);
      var i', j' := if i < k then i else i - 1, if j < k then j else j - 1;
      if i != k && j != k {
        assert UnlikeKeys(nodes, key, i', j');
      } else if i == k && j' > k {
        assert NotAbove(nodes, key, k, j');
      }
    }
  }

  lemma Around(nodes: seq<Node>, k: nat, n: Node, i: nat)
    requires k <= |nodes| && i <= |nodes|
    ensures i < k ==> Inserted(nodes, k, n)[i] == nodes[i] && nodes[i] in nodes
    ensures i == k ==> Inserted(nodes, k, n)[i] == n
    ensures i > k ==> Inserted(nodes, k, n)[i] == nodes[i - 1] && nodes[i - 1] in nodes && nodes[i - 1] in nodes[k..]
  {
    assert i > k ==> nodes[i - 1] == nodes[k..][i - 1 - k];
  }

  lemma InsertedWithin(nodes: seq<Node>, k: nat, n: Node, domain: set<Node>)
    requires k <= |nodes| && Within(nodes, domain) && n in domain
    ensures Within(Inserted(nodes, k, n), domain)
  {
    assert nodes == nodes[..k] + nodes[k..];
  }

  /** Where level `l` passes from the first `k` nodes to the rest. */
  ghost predicate AtLevel(nodes: seq<Node>, height: map<Node, nat>, k: nat, l: nat, pred: Node, succ: Node)
    requires k <= |nodes|
  {
    pred == LastOf(Tower(nodes[..k], height, l)) && succ == FirstOf(Tower(nodes[k..], height, l))
  }

  ghost predicate OnPath(nodes: seq<Node>, height: map<Node, nat>, k: nat, preds: seq<Node>, succs: seq<Node>)
    requires k <= |nodes| && |preds| == |succs|
  {
    forall l :: 0 <= l < |preds| ==> AtLevel(nodes, height, k, l, preds[l], succs[l])
  }

  ghost predicate LinkedAt(next: map<Node, Slots>, nodes: seq<Node>, height: map<Node, nat>, k: nat, n: Node, i: nat, l: nat)
    requires k <= |nodes| && l < MAX_HEIGHT
  {
    Threads(next, l, if l < i then Spliced(nodes, height, k, n, l) else Tower(nodes, height, l))
  }

  /** The levels below `i` already lead through `n`, the others not yet. */
  ghost predicate LinkedUpTo(next: map<Node, Slots>, nodes: seq<Node>, height: map<Node, nat>, k: nat, n: Node, i: nat)
    requires k <= |nodes|
  {
    forall l :: 0 <= l < MAX_HEIGHT ==> LinkedAt(next, nodes, height, k, n, i, l)
  }

  /** A new node's slots and height disturb nothing before it is linked. */
  lemma StillThreaded(next0: map<Node, Slots>, next: map<Node, Slots>, nodes: seq<Node>, height0: map<Node, nat>, h: nat, k: nat, n: Node)
    requires k <= |nodes| && n !in nodes && n != HEAD
    requires n in next && next == next0[n := next[n]]
    requires Threaded(next0, nodes, height0)
    ensures LinkedUpTo(next, nodes, height0[n := h], k, n, 0)
    ensures Clean(next0, nodes, height0) ==> Clean(next, nodes, height0[n := h])
  {
    var height, none := height0[n := h], 0;
    forall l | 0 <= l < MAX_HEIGHT
      ensures LinkedAt(next, nodes, height, k, n, none, l)
    {
      var c := Tower(nodes, height0, l);
      TowerUntouched(nodes, height0, n, h, l);
      TowerMembers(nodes, height0, l, n);
      assert LevelThreads(next0, nodes, height0, l);
      forall i | 0 <= i <= |c|
        ensures Leads(next, l, c, i)
      {
        assert Leads(next0, l, c, i);
        assert Chain(c)[i] == HEAD || (Chain(c)[i] == c[i - 1] && c[i - 1] in c);
      }
    }
  }

  /** The predecessor that links `n` into level `i`. */
  lemma LinkPoint(next: map<Node, Slots>, nodes: seq<Node>, height: map<Node, nat>, k: nat, n: Node, i: nat)
    requires k <= |nodes| && n !in nodes && n != HEAD
    requires i < MAX_HEIGHT && LinkedAt(next, nodes, height, k, n, i, i)
    ensures var a, b := Tower(nodes[..k], height, i), Tower(nodes[k..], height, i);
            && Threads(next, i, a + b) && n !in a + b
            && LastOf(a) in next && LastOf(a) != n && next[LastOf(a)][i].ptr == FirstOf(b)
  {
    var a, b := Tower(nodes[..k], height, i), Tower(nodes[k..], height, i);
    TowerSplits(nodes, height, k, i);
    TowerMembers(nodes, height, i, n);
    assert Leads(next, i, a + b, |a|);
    assert Chain(a + b)[|a|] == LastOf(a) && Chain(a + b)[|a| + 1] == FirstOf(b);
    assert a != [] ==> a[|a| - 1] in a + b;
  }

  lemma LinkLevel(next: map<Node, Slots>, nodes: seq<Node>, height: map<Node, nat>, k: nat, n: Node, i: nat)
      returns (next': map<Node, Slots>)
    requires k <= |nodes| && n !in nodes && n != HEAD && n != TAIL && Distinct(nodes) && Interior(nodes)
    requires i < MAX_HEIGHT && LinkedUpTo(next, nodes, height, k, n, i)
    requires n in next && next[n][i].ptr == FirstOf(Tower(nodes[k..], height, i))
    ensures var p := LastOf(Tower(nodes[..k], height, i));
            p in next && p != n && next[p][i].ptr == FirstOf(Tower(nodes[k..], height, i))
            && next' == next[p := next[p][i := Link(n, false)]]
    ensures LinkedUpTo(next', nodes, height, k, n, i + 1)
    ensures Clean(next, nodes, height) ==> Clean(next', nodes, height)
  {
    var a, b := Tower(nodes[..k], height, i), Tower(nodes[k..], height, i);
    var p := LastOf(a);
    assert LinkedAt(next, nodes, height, k, n, i, i);
    LinkPoint(next, nodes, height, k, n, i);
    TowerSplits(nodes, height, k, i);
    TowerDistinct(nodes, height, i);
    next' := next[p := next[p][i := Link(n, false)]];
    ApartFrom(a, n, b);
    ThreadsInsert(next, next', i, a, n, b);
    OneMoreLinked(next, next', nodes, height, k, n, i);
  }

  lemma OneMoreLinked(next: map<Node, Slots>, next': map<Node, Slots>, nodes: seq<Node>, height: map<Node, nat>, k: nat, n: Node, i: nat)
    requires k <= |nodes| && i < MAX_HEIGHT && LinkedUpTo(next, nodes, height, k, n, i)
    requires Threads(next', i, Spliced(nodes, height, k, n, i))
    requires forall l :: 0 <= l < MAX_HEIGHT && l != i ==> SameSlots(next, next', l, {})
    ensures LinkedUpTo(next', nodes, height, k, n, i + 1)
  {
    var i' := i + 1;
    forall l | 0 <= l < MAX_HEIGHT
      ensures LinkedAt(next', nodes, height, k, n, i', l)
    {
      assert LinkedAt(next, nodes, height, k, n, i, l);
      if l != i {
        ThreadsFrame(next, next', l, if l < i then Spliced(nodes, height, k, n, l) else Tower(nodes, height, l));
      }
    }
  }

  /** Once its whole tower is linked the new node is a member like any other. */
  lemma InsertedShape(next0: map<Node, Slots>, next: map<Node, Slots>, nodes: seq<Node>, height0: map<Node, nat>, levels0: nat,
                      k: nat, n: Node, h: nat)
    requires Shaped(next0, nodes, height0, levels0) && k <= |nodes|
    requires n !in nodes && n != HEAD && n != TAIL && h <= levels0 && h <= MAX_HEIGHT - 2
    requires LinkedUpTo(next, nodes, height0[n := h], k, n, h + 1) && Clean(next, nodes, height0[n := h])
    requires n in next && Plain(next[n], h)
    ensures Shaped(next, Inserted(nodes, k, n), height0[n := h], if h == levels0 then h + 1 else levels0)
  {
    var nodes', height, i' := Inserted(nodes, k, n), height0[n := h], h + 1;
    assert nodes == nodes[..k] + nodes[k..];
    ApartFrom(nodes[..k], n, nodes[k..]);
    forall x | x in nodes'
      ensures x in nodes || x == n
    {
    }
    forall l | 0 <= l < MAX_HEIGHT
      ensures LevelThreads(next, nodes', height, l)
    {
      InsertedTower(nodes, height, k, n, l);
      assert LinkedAt(next, nodes, height, k, n, i', l);
    }
  }

  lemma ApartFrom(a: seq<Node>, n: Node, b: seq<Node>)
    requires Distinct(a + b) && Interior(a + b) && n !in a + b && n != HEAD && n != TAIL
    ensures Distinct(a + [n] + b) && Interior(a + [n] + b)
  {
    var c, d := a + b, a + [n] + b;
    assert Inserted(c, |a|, n) == d;
    forall i, j | 0 <= i < j < |d|
      ensures Differ(d, i, j)
    {
      Around(c, |a|, n, i);
      Around(c, |a|, n, j);
      if i != |a| && j != |a| {
        Apart(c, if i < |a| then i else i - 1, if j < |a| then j else j - 1);
      }
    }
    forall x | x in d
      ensures x != HEAD && x != TAIL
    {
      assert x in c || x == n;
    }
  }

  lemma ThreadsRemove(next: map<Node, Slots>, next': map<Node, Slots>, l: nat, a: seq<Node>, n: Node, b: seq<Node>)
    requires l < MAX_HEIGHT && Distinct(a + [n] + b) && Interior(a + [n] + b)
    requires Threads(next, l, a + [n] + b)
    requires SameSlots(next, next', l, {LastOf(a)})
    requires LastOf(a) in next' && next'[LastOf(a)][l].ptr == FirstOf(b)
    ensures Threads(next', l, a + b)
  {
    var c, d := Chain(a + [n] + b), Chain(a + b);
    assert c[|a|] == LastOf(a);
    forall i | 0 <= i <= |a + b|
      ensures Leads(next', l, a + b, i)
    {
      if i < |a| {
        ChainDistinct(a + [n] + b, i, |a|);
        assert Leads(next, l, a + [n] + b, i);
        assert d[i] == c[i] && d[i + 1] == c[i + 1];
      } else if i == |a| {
        assert d[i] == LastOf(a) && d[i + 1] == FirstOf(b);
      } else {
        ChainDistinct(a + [n] + b, i + 1, |a|);
        assert Leads(next, l, a + [n] + b, i + 1);
        assert d[i] == c[i + 1] && d[i + 1] == c[i + 2];
      }
    }
  }

  /** The pointers around a point of level `l`. */
  lemma Facing(next: map<Node, Slots>, l: nat, a: seq<Node>, b: seq<Node>)
    requires l < MAX_HEIGHT && Threads(next, l, a + b)
    ensures LastOf(a) in next && next[LastOf(a)][l].ptr == FirstOf(b)
    ensures b != [] ==> b[0] in next && next[b[0]][l].ptr == FirstOf(b[1..])
  {
    assert Leads(next, l, a + b, |a|);
    assert Chain(a + b)[|a|] == LastOf(a) && Chain(a + b)[|a| + 1] == FirstOf(b);
    if b != [] {
      assert Leads(next, l, a + b, |a| + 1);
      assert Chain(a + b)[|a| + 1] == b[0] && Chain(a + b)[|a| + 2] == FirstOf(b[1..]);
    }
  }
}
