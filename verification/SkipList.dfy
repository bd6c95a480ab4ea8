/**
  The skip list used by one thread: the same operations, with their loops, on
  the node memory held in the fields of one object.

  `nodes` is the level-0 order; `Valid` says that level `l` threads exactly the
  nodes tall enough, in that order.  Every operation is proved against what it
  does to `nodes`.
 */
module SkipList {
  import opened LevelChain
  import opened OrderedItems
  import opened Towers
  import opened Unlinking
  import opened Searching
  import opened Inserting
  import opened Resizing

  datatype Outcome = Ok | Exists | NotFound

  datatype Found = Nothing | Just(node: Node)

  /** For every node a search recorded: the match is number 0, the predecessor on
      level `i` number `i + 1`. */
  type Wants = nat -> Want

  ghost predicate LeadsBack(prev: map<Node, Node>, c: seq<Node>, i: nat)
    requires 1 <= i <= |c| + 1
  {
    Chain(c)[i] in prev && prev[Chain(c)[i]] == Chain(c)[i - 1]
  }

  /** The back pointers run through `c` from the tail. */
  ghost predicate BackThreads(prev: map<Node, Node>, c: seq<Node>) {
    forall i :: 1 <= i <= |c| + 1 ==> LeadsBack(prev, c, i)
  }

  lemma BackInsert(prev: map<Node, Node>, a: seq<Node>, n: Node, b: seq<Node>)
    requires Distinct(a + [n] + b) && Interior(a + [n] + b) && BackThreads(prev, a + b)
    ensures FirstOf(b) in prev && prev[FirstOf(b)] == LastOf(a)
    ensures BackThreads(prev[n := LastOf(a)][FirstOf(b) := n], a + [n] + b)
  {
    var c, d := Chain(a + b), Chain(a + [n] + b);
    assert LeadsBack(prev, a + b, |a| + 1);
    assert c[|a| + 1] == FirstOf(b) && c[|a|] == LastOf(a);
    assert d[|a|] == LastOf(a) && d[|a| + 1] == n && d[|a| + 2] == FirstOf(b);
    var prev' := prev[n := LastOf(a)][FirstOf(b) := n];
    forall i | 1 <= i <= |a + [n] + b| + 1
      ensures LeadsBack(prev', a + [n] + b, i)
    {
      if i != |a| + 1 {
        ChainDistinct(a + [n] + b, i, |a| + 1);
      }
      if i != |a| + 2 {
        ChainDistinct(a + [n] + b, i, |a| + 2);
      }
      if i <= |a| {
        assert LeadsBack(prev, a + b, i);
        assert d[i] == c[i] && d[i - 1] == c[i - 1];
      } else if i > |a| + 2 {
        assert LeadsBack(prev, a + b, i - 1);
        assert d[i] == c[i - 1] && d[i - 1] == c[i - 2];
      }
    }
  }

  lemma BackRemove(prev: map<Node, Node>, nodes: seq<Node>, k: nat)
    requires Distinct(nodes) && Interior(nodes) && BackThreads(prev, nodes) && k < |nodes|
    ensures var n, s := nodes[k], FirstOf(nodes[k + 1..]);
            && n in prev && s in prev && prev[s] == n
            && BackThreads(prev[s := prev[n]], Removed(nodes, k))
  {
    var n, s := nodes[k], FirstOf(nodes[k + 1..]);
    var c, d := Chain(nodes), Chain(Removed(nodes, k));
    assert LeadsBack(prev, nodes, k + 1) && LeadsBack(prev, nodes, k + 2);
    assert c[k + 1] == n && c[k + 2] == s;
    var prev' := prev[s := prev[n]];
    forall i | 1 <= i <= |nodes|
      ensures LeadsBack(prev', Removed(nodes, k), i)
    {
      var j := if i <= k then i else i + 1;
      assert LeadsBack(prev, nodes, j);
      assert d[i] == c[j];
      if j != k + 2 {
        ChainDistinct(nodes, j, k + 2);
        assert d[i - 1] == c[j - 1];
      } else {
        assert d[i - 1] == c[k];
      }
    }
  }

  /** The first node with the key, or else the last below it. */
  ghost function FirstOrBelow(nodes: seq<Node>, key: map<Node, int>, q: int): Found
    requires Within(nodes, key.Keys)
  {
    var k := Below(nodes, key, q);
    if k < |nodes| && key[nodes[k]] == q then Just(nodes[k]) else if k > 0 then Just(nodes[k - 1]) else Nothing
  }

  /** The last node not above the key. */
  ghost function LastUpTo(nodes: seq<Node>, key: map<Node, int>, q: int): Found
    requires Within(nodes, key.Keys)
  {
    var k := Below(nodes, key, q + 1);
    if k > 0 then Just(nodes[k - 1]) else Nothing
  }

  ghost predicate Twice(nodes: seq<Node>, key: map<Node, int>, q: int)
    requires Within(nodes, key.Keys)
  {
    var k := Below(nodes, key, q);
    k + 1 < |nodes| && key[nodes[k]] == q && key[nodes[k + 1]] == q
  }

  lemma LteIsLastIff(nodes: seq<Node>, key: map<Node, int>, q: int)
    requires Distinct(nodes) && Ascending(nodes, key)
    ensures FirstOrBelow(nodes, key, q) == LastUpTo(nodes, key, q) <==> !Twice(nodes, key, q)
  {
    var k, m := Below(nodes, key, q), Below(nodes, key, q + 1);
    if Twice(nodes, key, q) {
      assert m >= k + 2;
      Apart(nodes, m - 1, k);
    } else {
      if k + 1 < |nodes| {
        assert NotAbove(nodes, key, k, k + 1);
      }
      BelowIs(nodes, key, q + 1, if k < |nodes| && key[nodes[k]] == q then k + 1 else k);
    }
  }

  lemma TwiceIff(nodes: seq<Node>, key: map<Node, int>, q: int)
    requires Ascending(nodes, key)
    ensures Twice(nodes, key, q) <==> exists i, j :: 0 <= i < j < |nodes| && key[nodes[i]] == q && key[nodes[j]] == q
  {
    var k := Below(nodes, key, q);
    forall i, j | 0 <= i < j < |nodes| && key[nodes[i]] == q && key[nodes[j]] == q
      ensures Twice(nodes, key, q)
    {
      assert k <= i;
      assert NotAbove(nodes, key, k, i) && NotAbove(nodes, key, k + 1, j) && NotAbove(nodes, key, k, k + 1);
    }
  }

  ghost function ItemsOf(nodes: seq<Node>, key: map<Node, int>, val: map<Node, int>): (items: seq<Item>)
    requires Within(nodes, key.Keys) && Within(nodes, val.Keys)
    ensures |items| == |nodes|
    ensures forall i :: 0 <= i < |items| ==> items[i] == Item(key[nodes[i]], val[nodes[i]])
  {
    seq(|nodes|, i requires 0 <= i < |nodes| && nodes[i] in key && nodes[i] in val => Item(key[nodes[i]], val[nodes[i]]))
  }

  lemma BothFive(nodes: seq<Node>, key: map<Node, int>, val: map<Node, int>)
    requires Ascending(nodes, key) && Within(nodes, val.Keys) && ItemsOf(nodes, key, val) == [Item(5, 0), Item(5, 0)]
    ensures Twice(nodes, key, 5) && FirstOrBelow(nodes, key, 5).Just? && LastUpTo(nodes, key, 5).Just?
  {
    assert ItemsOf(nodes, key, val)[0].key == key[nodes[0]] && ItemsOf(nodes, key, val)[1].key == key[nodes[1]];
    TwiceIff(nodes, key, 5);
  }

  /** Positions agree between nodes and items. */
  lemma ItemsRank(nodes: seq<Node>, key: map<Node, int>, val: map<Node, int>, q: int)
    requires Ascending(nodes, key) && Within(nodes, val.Keys)
    ensures Rank(ItemsOf(nodes, key, val), q) == Below(nodes, key, q)
    ensures InOrder(ItemsOf(nodes, key, val))
    ensures DistinctKeys(nodes, key) ==> Unique(ItemsOf(nodes, key, val))
  {
    var items := ItemsOf(nodes, key, val);
    RankIs(items, q, Below(nodes, key, q));
    forall i, j | 0 <= i < j < |items|
      ensures NotAfter(items, i, j) && (DistinctKeys(nodes, key) ==> Unlike(items, i, j))
    {
      assert NotAbove(nodes, key, i, j) && (DistinctKeys(nodes, key) ==> UnlikeKeys(nodes, key, i, j));
    }
  }

  lemma ItemsInserted(nodes: seq<Node>, key: map<Node, int>, val: map<Node, int>, k: nat, n: Node)
    requires Within(nodes, key.Keys) && Within(nodes, val.Keys) && n in key && n in val && k <= |nodes|
    requires Within(Inserted(nodes, k, n), key.Keys) && Within(Inserted(nodes, k, n), val.Keys)
    ensures var items := ItemsOf(nodes, key, val);
            ItemsOf(Inserted(nodes, k, n), key, val) == items[..k] + [Item(key[n], val[n])] + items[k..]
  {
  }

  lemma ItemsRemoved(nodes: seq<Node>, key: map<Node, int>, val: map<Node, int>, k: nat)
    requires Within(nodes, key.Keys) && Within(nodes, val.Keys) && k < |nodes|
    requires Within(Removed(nodes, k), key.Keys) && Within(Removed(nodes, k), val.Keys)
    ensures var items := ItemsOf(nodes, key, val);
            ItemsOf(Removed(nodes, k), key, val) == items[..k] + items[k + 1..]
  {
  }

  /** What a remove of key `q` means for the items. */
  lemma ItemsAfterRemove(nodes: seq<Node>, nodes': seq<Node>, key: map<Node, int>, val: map<Node, int>, q: int, rc: Outcome)
    requires Ascending(nodes, key) && Within(nodes, val.Keys) && Within(nodes', key.Keys) && Within(nodes', val.Keys)
    requires var k := Below(nodes, key, q);
             if k < |nodes| && key[nodes[k]] == q then rc == Ok && nodes' == Removed(nodes, k) else rc == NotFound && nodes' == nodes
    ensures rc == if Holds(ItemsOf(nodes, key, val), q) then Ok else NotFound
    ensures ItemsOf(nodes', key, val) == OrderedItems.Del(ItemsOf(nodes, key, val), q)
    ensures forall x <- nodes' :: x in nodes
  {
    ItemsRank(nodes, key, val, q);
    if rc == Ok {
      ItemsRemoved(nodes, key, val, Below(nodes, key, q));
    }
  }

  lemma ItemsUpdated(nodes: seq<Node>, key: map<Node, int>, val: map<Node, int>, k: nat, v: int)
    requires Within(nodes, key.Keys) && Within(nodes, val.Keys) && k < |nodes| && Distinct(nodes)
    requires Within(nodes, val[nodes[k] := v].Keys)
    ensures ItemsOf(nodes, key, val[nodes[k] := v]) == ItemsOf(nodes, key, val)[k := Item(key[nodes[k]], v)]
  {
    Once(nodes, k);
  }

  /** Filling in a node that is not listed yet changes nothing. */
  lemma Unlisted(nodes: seq<Node>, key: map<Node, int>, val: map<Node, int>, n: Node, k: int, v: int)
    requires Ascending(nodes, key) && Within(nodes, val.Keys) && n !in nodes
    ensures var key', val' := key[n := k], val[n := v];
            && Ascending(nodes, key') && Within(nodes, val'.Keys)
            && (DistinctKeys(nodes, key) ==> DistinctKeys(nodes, key'))
            && ItemsOf(nodes, key', val') == ItemsOf(nodes, key, val)
  {
    var key', val' := key[n := k], val[n := v];
    forall i, j | 0 <= i < j < |nodes|
      ensures NotAbove(nodes, key', i, j) && (DistinctKeys(nodes, key) ==> UnlikeKeys(nodes, key', i, j))
    {
      assert NotAbove(nodes, key, i, j) && (DistinctKeys(nodes, key) ==> UnlikeKeys(nodes, key, i, j));
    }
    assert forall i :: 0 <= i < |nodes| ==> nodes[i] in nodes;
  }

  class List {
    // the node memory: each node's slots, height, back pointer, key and value
    var next: map<Node, Slots>
    var height: map<Node, nat>
    var prev: map<Node, Node>
    var key: map<Node, int>
    var val: map<Node, int>

    // the list header
    var headHeight: nat
    var length: nat
    var hasDups: bool

    ghost var nodes: seq<Node>

    ghost predicate Valid()
      reads this
    {
      && Shaped(next, nodes, height, headHeight)
      && Ascending(nodes, key) && (!hasDups ==> DistinctKeys(nodes, key))
      && BackThreads(prev, nodes)
      && Within(nodes, val.Keys)
      && length == |nodes|
    }

    /** The contents a caller sees, in order. */
    ghost function Items(): (items: seq<Item>)
      requires Valid()
      reads this
    {
      ItemsOf(nodes, key, val)
    }

    constructor ()
      ensures Valid() && nodes == [] && !hasDups && headHeight == 1
    {
      next := map[HEAD := seq(MAX_HEIGHT, _ => Link(TAIL, false))];
      height, key, val := map[], map[], map[];
      prev := map[TAIL := HEAD];
      headHeight, length, hasDups := 1, 0, false;
      nodes := [];
    }

    /** The walk along one level, from where the level above left off.  The
        pointers run through `ns`, with heights `hs`. */
    method WalkLevel(q: int, i: nat, start: Node, ghost ns: seq<Node>, ghost hs: map<Node, nat>) returns (pred: Node, curr: Node)
      requires Shaped(next, ns, hs, headHeight) && Ascending(ns, key) && i < headHeight
      requires start == HEAD || (start in ns[..Below(ns, key, q)] && Reaches(hs, start, i))
      ensures IsPath(ns, key, hs, q, i, pred, curr)
      ensures pred == HEAD || (pred in ns[..Below(ns, key, q)] && Reaches(hs, pred, i))
      ensures curr != TAIL ==> curr in ns[Below(ns, key, q)..] && curr in key && key[curr] >= q
    {
      ghost var c := Chain(Tower(ns, hs, i));
      ghost var before := ns[..Below(ns, key, q)];
      ghost var after := ns[Below(ns, key, q)..];
      ghost var a := Tower(before, hs, i);
      ghost var j := OnChain(ns, hs, Below(ns, key, q), i, start);
      assert LevelThreads(next, ns, hs, i);
      StepRight(next, ns, key, hs, q, i, j);
      pred, curr := start, next[start][i].ptr;
      while curr != TAIL && key[curr] < q
        invariant j <= |a| <= |Tower(ns, hs, i)| && pred == c[j] && curr == c[j + 1]
        invariant pred == HEAD || (pred in before && Reaches(hs, pred, i))
        invariant curr != TAIL ==> curr in ns && curr in key
        invariant j == |a| ==> IsPath(ns, key, hs, q, i, pred, curr) && (curr != TAIL ==> curr in after && key[curr] >= q)
        invariant j < |a| ==> curr in ns && curr != TAIL && curr in before && Reaches(hs, curr, i) && key[curr] < q
        decreases |a| - j
      {
        j := j + 1;
        assert CleanAt(next, hs, curr);
        StepRight(next, ns, key, hs, q, i, j);
        pred, curr := curr, next[curr][i].ptr;
      }
    }

    /** The search every writer does: the predecessor and successor at every
        active level, and the match at level 0 if there is one. */
    method Search(q: int, ghost ns: seq<Node>, ghost hs: map<Node, nat>) returns (preds: seq<Node>, succs: seq<Node>, found: Found)
      requires Shaped(next, ns, hs, headHeight) && Ascending(ns, key)
      ensures |preds| == |succs| == headHeight
      ensures forall l :: 0 <= l < headHeight ==> IsPath(ns, key, hs, q, l, preds[l], succs[l])
      ensures var k := Below(ns, key, q);
              found == if k < |ns| && key[ns[k]] == q then Just(ns[k]) else Nothing
    {
      ghost var before := ns[..Below(ns, key, q)];
      preds, succs := seq(headHeight, _ => HEAD), seq(headHeight, _ => TAIL);
      var pred, curr := HEAD, TAIL;
      var i := headHeight;
      while i > 0
        invariant 0 <= i <= headHeight && |preds| == |succs| == headHeight
        invariant pred == HEAD || (pred in before && Reaches(hs, pred, i))
        invariant forall l :: i <= l < headHeight ==> IsPath(ns, key, hs, q, l, preds[l], succs[l])
        invariant i < headHeight ==> curr == succs[i] && (curr != TAIL ==> curr in key)
      {
        i := i - 1;
        pred, curr := WalkLevel(q, i, pred, ns, hs);
        preds, succs := preds[i := pred], succs[i := curr];
      }
      FirstNotBelow(ns, key, hs, headHeight, q, preds[0], curr);
      found := if curr != TAIL && key[curr] == q then Just(curr) else Nothing;
    }

    method Locate(q: int) returns (preds: seq<Node>, succs: seq<Node>, found: Found)
      requires Valid()
      ensures |preds| == |succs| == headHeight
      ensures forall l :: 0 <= l < headHeight ==> IsPath(nodes, key, height, q, l, preds[l], succs[l])
      ensures var k := Below(nodes, key, q);
              found == if k < |nodes| && key[nodes[k]] == q then Just(nodes[k]) else Nothing
    {
      preds, succs, found := Search(q, nodes, height);
    }

    /** Exact-match lookup.  It stops on the first level that shows the key,
        unless the list has ever held duplicates: then the node seen above may
        have an earlier equal below it, and the descent goes on to level 0. */
    method Lookup(q: int) returns (found: Found)
      requires Valid()
      ensures var k := Below(nodes, key, q);
              found == if k < |nodes| && key[nodes[k]] == q then Just(nodes[k]) else Nothing
    {
      var pred, curr := HEAD, TAIL;
      var equal := false;
      found := Nothing;
      var i := headHeight;
      while i > 0
        invariant 0 <= i <= headHeight
        invariant pred == HEAD || (pred in nodes[..Below(nodes, key, q)] && Reaches(height, pred, i))
        invariant i < headHeight ==> IsPath(nodes, key, height, q, i, pred, curr)
        invariant i < headHeight && curr != TAIL ==> curr in nodes[Below(nodes, key, q)..]
        invariant i < headHeight ==> equal == (curr != TAIL && key[curr] == q) && (equal ==> found == Just(curr))
      {
        i := i - 1;
        pred, curr := WalkLevel(q, i, pred, nodes, height);
        equal := curr != TAIL && key[curr] == q;
        if equal {
          found := Just(curr);
          if !hasDups {
            OnlyMatch(q, curr);
            return;
          }
        }
      }
      FirstNotBelow(nodes, key, height, headHeight, q, pred, curr);
      if !equal {
        found := Nothing;
      }
    }

    /** Without duplicates a match on any level is the match of level 0. */
    lemma OnlyMatch(q: int, node: Node)
      requires Valid() && !hasDups
      requires var k := Below(nodes, key, q); node in nodes[k..] && key[node] == q
      ensures var k := Below(nodes, key, q); k < |nodes| && nodes[k] == node
    {
      var k := Below(nodes, key, q);
      var j :| k <= j < |nodes| && nodes[j] == node;
      if k < j {
        Rises(nodes, key, k, j);
      }
    }

    /** The first node not below `q`: a scan from the level-0 predecessor. */
    method PositionGte(q: int, wants: Wants) returns (found: Found)
      requires Valid()
      modifies this`next, this`height, this`headHeight
      ensures Valid() && Splayed(nodes, key, old(height), height, old(headHeight), headHeight, q, wants)
      ensures var k := Below(nodes, key, q);
              found == if k < |nodes| then Just(nodes[k]) else Nothing
    {
      found := ScanFrom(q, q, wants);
    }

    /** The first node above `q`. */
    method PositionGt(q: int, wants: Wants) returns (found: Found)
      requires Valid()
      modifies this`next, this`height, this`headHeight
      ensures Valid() && Splayed(nodes, key, old(height), height, old(headHeight), headHeight, q, wants)
      ensures var k := Below(nodes, key, q + 1);
              found == if k < |nodes| then Just(nodes[k]) else Nothing
    {
      found := ScanFrom(q, q + 1, wants);
    }

    /** From the predecessor of `q` along level 0 to the first key that is not
        below `limit`. */
    method ScanFrom(q: int, limit: int, wants: Wants) returns (found: Found)
      requires Valid() && q <= limit
      modifies this`next, this`height, this`headHeight
      ensures Valid() && Splayed(nodes, key, old(height), height, old(headHeight), headHeight, q, wants)
      ensures var k := Below(nodes, key, limit);
              found == if k < |nodes| then Just(nodes[k]) else Nothing
    {
      var pred, _ := LocateWithSplay(q, wants);
      found := ScanRight(pred, Below(nodes, key, q), limit);
    }

    method ScanRight(pred: Node, ghost from: nat, limit: int) returns (found: Found)
      requires Valid() && from <= |nodes| && pred == LastOf(nodes[..from])
      requires forall j :: 0 <= j < from ==> key[nodes[j]] < limit
      ensures var k := Below(nodes, key, limit);
              found == if k < |nodes| then Just(nodes[k]) else Nothing
    {
      ghost var i := from;
      Successor(i);
      var node := next[pred][0].ptr;
      while node != TAIL && key[node] < limit
        invariant from <= i <= |nodes| && node == FirstOf(nodes[i..])
        invariant i < |nodes| ==> nodes[i] in nodes
        invariant forall j :: 0 <= j < i ==> key[nodes[j]] < limit
        decreases |nodes| - i
      {
        Successor(i + 1);
        node := next[node][0].ptr;
        i := i + 1;
      }
      found := if node == TAIL then Nothing else Just(node);
      BelowIs(nodes, key, limit, i);
    }

    /** Level 0, one pointer at a time. */
    lemma Successor(i: nat)
      requires Valid() && i <= |nodes|
      ensures LastOf(nodes[..i]) in next && next[LastOf(nodes[..i])][0].ptr == FirstOf(nodes[i..])
      ensures i < |nodes| ==> nodes[i] in nodes && FirstOf(nodes[i..]) == nodes[i]
    {
      TowerZero(nodes, height, headHeight);
      assert LevelThreads(next, nodes, height, 0) && Leads(next, 0, nodes, i);
      assert Chain(nodes)[i] == LastOf(nodes[..i]) && Chain(nodes)[i + 1] == FirstOf(nodes[i..]);
    }

    /** The last node below `q`. */
    method PositionLt(q: int, wants: Wants) returns (found: Found)
      requires Valid()
      modifies this`next, this`height, this`headHeight
      ensures Valid() && Splayed(nodes, key, old(height), height, old(headHeight), headHeight, q, wants)
      ensures var k := Below(nodes, key, q);
              found == if k > 0 then Just(nodes[k - 1]) else Nothing
    {
      var pred, _ := LocateWithSplay(q, wants);
      assert Below(nodes, key, q) > 0 ==> pred in nodes;
      found := if pred == HEAD then Nothing else Just(pred);
    }

    /** The last node not above `q`. */
    ghost function LastNotAbove(q: int): Found
      requires Valid()
      reads this
    {
      LastUpTo(nodes, key, q)
    }

    /** A second node has the key. */
    ghost predicate HasTwo(q: int)
      requires Valid()
      reads this
    {
      Twice(nodes, key, q)
    }

    /** The first node equal to `q` if there is one, else the last below it: this
        is the last node not above `q`, unless a second node has the key. */
    method PositionLte(q: int, wants: Wants) returns (found: Found)
      requires Valid()
      modifies this`next, this`height, this`headHeight
      ensures Valid() && Splayed(nodes, key, old(height), height, old(headHeight), headHeight, q, wants)
      ensures found == FirstOrBelow(nodes, key, q)
      ensures found == LastNotAbove(q) <==> !HasTwo(q)
    {
      var pred, match0 := LocateWithSplay(q, wants);
      assert Below(nodes, key, q) > 0 ==> pred in nodes;
      found := if match0.Just? then match0 else if pred == HEAD then Nothing else Just(pred);
      LteIsLastIff(nodes, key, q);
    }

    static method TwoFives(wants: Wants) returns (list: List)
      ensures fresh(list) && list.Valid() && list.Items() == [Item(5, 0), Item(5, 0)]
    {
      list := new List();
      var _ := list.Put(10, 5, 0, 0, true, wants);
      var _ := list.Put(11, 5, 0, 0, true, wants);
    }

    /** A list in which the boundary is missed. */
    static method LteOfTwo(wants: Wants) returns (list: List, found: Found)
      ensures fresh(list) && list.Valid() && list.HasTwo(5)
      ensures found.Just? && list.LastNotAbove(5).Just? && found != list.LastNotAbove(5)
    {
      list := TwoFives(wants);
      BothFive(list.nodes, list.key, list.val);
      found := list.PositionLte(5, wants);
    }

    /** An exact match: by the early exit, or -- when a rebalance is due -- by the
        full search. */
    method LookupWithSplay(q: int, due: bool, wants: Wants) returns (found: Found)
      requires Valid()
      modifies this`next, this`height, this`headHeight
      ensures Valid()
      ensures if due then Splayed(nodes, key, old(height), height, old(headHeight), headHeight, q, wants) else height == old(height)
      ensures var k := Below(nodes, key, q);
              found == if k < |nodes| && key[nodes[k]] == q then Just(nodes[k]) else Nothing
    {
      if due {
        var _, match0 := LocateWithSplay(q, wants);
        found := match0;
      } else {
        found := Lookup(q);
      }
    }

    /** Overwrites the value of the first node with the key. */
    method Update(q: int, v: int, due: bool, wants: Wants) returns (rc: Outcome)
      requires Valid()
      modifies this`val, this`next, this`height, this`headHeight
      ensures Valid()
      ensures var k := Below(nodes, key, q);
              if k < |nodes| && key[nodes[k]] == q then rc == Ok && val == old(val)[nodes[k] := v]
              else rc == NotFound && val == old(val)
    {
      var found := LookupWithSplay(q, due, wants);
      if found.Nothing? {
        return NotFound;
      }
      val := val[found.node := v];
      rc := Ok;
    }

    lemma PathsFound(q: int, preds: seq<Node>, succs: seq<Node>)
      requires |preds| == |succs| && forall x <- nodes :: x in key
      requires forall l :: 0 <= l < |preds| ==> IsPath(nodes, key, height, q, l, preds[l], succs[l])
      ensures OnPath(nodes, height, Below(nodes, key, q), preds, succs)
      ensures AllFit(nodes, height, |preds|) ==> Recorded(height, preds, Below(nodes, key, q))
    {
      forall l | 0 <= l < |preds|
        ensures AtLevel(nodes, height, Below(nodes, key, q), l, preds[l], succs[l])
      {
        assert IsPath(nodes, key, height, q, l, preds[l], succs[l]);
      }
    }

    static method Prefill(succs: seq<Node>, h: nat) returns (slots: Slots)
      requires h < |succs| <= MAX_HEIGHT
      ensures forall i :: 0 <= i <= h ==> slots[i] == Link(succs[i], false)
    {
      slots := seq(MAX_HEIGHT, _ => Link(TAIL, false));
      var i := 0;
      while i <= h
        invariant 0 <= i <= h + 1
        invariant forall j :: 0 <= j < i ==> slots[j] == Link(succs[j], false)
      {
        slots := slots[i := Link(succs[i], false)];
        i := i + 1;
      }
    }

    /** Links a new node before the first equal one, at every level of its tower.
        Meeting an equal key counts as an access and may rebalance, so that the
        path is out of date from then on. */
    method Insert(n: Node, h: nat, duplicates: bool, wants: Wants) returns (rc: Outcome)
      requires Valid() && n != HEAD && n != TAIL && n !in nodes && n in key && n in val
      requires h <= headHeight && h <= MAX_HEIGHT - 2
      modifies this`next, this`height, this`prev, this`headHeight, this`length, this`hasDups, this`nodes
      ensures Valid() && headHeight >= old(headHeight)
      ensures var k := Below(old(nodes), key, key[n]);
              var equal := k < |old(nodes)| && key[old(nodes)[k]] == key[n];
              && (if equal && !duplicates then rc == Exists && nodes == old(nodes) && prev == old(prev) && hasDups == old(hasDups)
                  else rc == Ok && nodes == Inserted(old(nodes), k, n) && n in height && height[n] == h && hasDups == (old(hasDups) || equal))
              && (!equal ==> height == old(height)[n := h] && headHeight == if h == old(headHeight) then h + 1 else old(headHeight))
    {
      var preds, succs, found := LocateAndSplay(key[n], wants);
      if found.Just? {
        if !duplicates {
          return Exists;
        }
        hasDups := true;
      }
      LinkIn(n, h, preds, succs);
      rc := Ok;
    }

    /** The search of an insert: a match is an access that may rebalance, and the
        path recorded before that is what the insert goes on with. */
    method LocateAndSplay(q: int, wants: Wants) returns (preds: seq<Node>, succs: seq<Node>, found: Found)
      requires Valid()
      modifies this`next, this`height, this`headHeight
      ensures Valid() && 0 < |preds| == |succs| == old(headHeight) <= headHeight
      ensures var k := Below(nodes, key, q);
              && SoundFrom(nodes, height, k, preds, succs, 0)
              && preds[0] == LastOf(nodes[..k]) && succs[0] == FirstOf(nodes[k..])
              && found == if k < |nodes| && key[nodes[k]] == q then Just(nodes[k]) else Nothing
      ensures found.Nothing? ==> next == old(next) && height == old(height) && headHeight == old(headHeight)
    {
      preds, succs, found := Locate(q);
      ghost var height0, k := height, Below(nodes, key, q);
      FirstNotBelow(nodes, key, height, headHeight, q, preds[0], succs[0]);
      PathsFound(q, preds, succs);
      if found.Just? {
        Rebalance(found, preds, k, wants);
      }
      StillSound(nodes, height0, height, k, preds, succs);
    }

    /** A rebalance leaves the path sound, since it lowers no predecessor. */
    static lemma StillSound(nodes: seq<Node>, height0: map<Node, nat>, height: map<Node, nat>, k: nat, preds: seq<Node>, succs: seq<Node>)
      requires k <= |nodes| && |preds| == |succs| && OnPath(nodes, height0, k, preds, succs)
      requires height == height0 || KeptHigh(height0, height, preds)
      ensures SoundFrom(nodes, height, k, preds, succs, 0)
    {
      forall l | 0 <= l < |preds|
        ensures Sound(nodes, height, k, l, preds[l], succs[l])
      {
        ExactIsSound(nodes, height0, k, l, preds[l], succs[l]);
        assert preds[l] in preds;
      }
    }

    /** The path is sound at every level, exact at level 0, and may be shorter
        than the head has grown meanwhile. */
    method LinkIn(n: Node, h: nat, preds: seq<Node>, succs: seq<Node>)
      requires Valid() && n != HEAD && n != TAIL && n !in nodes && n in key && n in val
      requires 0 < |preds| == |succs| <= headHeight && h <= |preds| && h <= MAX_HEIGHT - 2
      requires var k := Below(nodes, key, key[n]);
               && SoundFrom(nodes, height, k, preds, succs, 0)
               && preds[0] == LastOf(nodes[..k]) && succs[0] == FirstOf(nodes[k..])
               && (k < |nodes| && key[nodes[k]] == key[n] ==> hasDups)
      modifies this`next, this`height, this`prev, this`headHeight, this`length, this`nodes
      ensures Valid() && nodes == Inserted(old(nodes), Below(old(nodes), key, key[n]), n) && height == old(height)[n := h]
      ensures headHeight == if h == old(headHeight) then h + 1 else old(headHeight)
    {
      ghost var k := Below(nodes, key, key[n]);
      LinkTower(n, h, k, preds, succs);
      InsertedInOrder(nodes, key, n, hasDups);
      InsertedWithin(nodes, k, n, val.Keys);
      InsertedShape(old(next), next, nodes, old(height), old(headHeight), k, n, h);
      length, nodes := length + 1, Inserted(nodes, k, n);
    }

    method LinkTower(n: Node, h: nat, ghost k: nat, preds0: seq<Node>, succs0: seq<Node>)
      requires Shaped(next, nodes, height, headHeight) && Ascending(nodes, key) && BackThreads(prev, nodes)
      requires n in key && k == Below(nodes, key, key[n]) && n != HEAD && n != TAIL && n !in nodes
      requires 0 < |preds0| == |succs0| <= headHeight && h <= |preds0| && h <= MAX_HEIGHT - 2
      requires SoundFrom(nodes, height, k, preds0, succs0, 0)
      requires preds0[0] == LastOf(nodes[..k]) && succs0[0] == FirstOf(nodes[k..])
      modifies this`next, this`height, this`headHeight, this`prev
      ensures BackThreads(prev, Inserted(nodes, k, n))
      ensures height == old(height)[n := h] && headHeight == if h == old(headHeight) then h + 1 else old(headHeight)
      ensures LinkedUpTo(next, nodes, height, k, n, h + 1) && Clean(next, nodes, height)
      ensures n in next && Plain(next[n], h)
    {
      var preds, succs := preds0, succs0;
      height := height[n := h];
      SoundAfter(nodes, old(height), k, n, h, preds, succs);
      if h >= |preds| {
        if headHeight < h + 1 {
          headHeight := h + 1;
        }
        preds, succs := preds + [HEAD], succs + [TAIL];
      }
      FitsStill(nodes, old(height), n, h, headHeight);
      var slots := Prefill(succs, h);
      next := next[n := slots];
      StillThreaded(old(next), next, nodes, old(height), h, k, n);
      var _ := LinkBase(n, k, preds[0], succs[0]);
      var pred := LinkLevels(n, h, k, preds, succs);
      SetBack(n, k, pred);
    }

    static lemma BaseLinks(next: map<Node, Slots>, nodes: seq<Node>, height: map<Node, nat>, levels: nat, k: nat, n: Node, pred: Node, succ: Node)
      requires k <= |nodes| && n !in nodes && n != HEAD && n != TAIL && Distinct(nodes) && Interior(nodes)
      requires AllFit(nodes, height, levels) && pred == LastOf(nodes[..k]) && succ == FirstOf(nodes[k..])
      requires n in next && next[n][0] == Link(succ, false)
      requires LinkedUpTo(next, nodes, height, k, n, 0) && Clean(next, nodes, height)
      ensures pred in next && pred != n && next[pred][0] == Link(succ, false)
      ensures var next1 := next[pred := next[pred][0 := Link(n, false)]];
              LinkedUpTo(next1, nodes, height, k, n, 1) && Clean(next1, nodes, height)
    {
      BaseNeighbours(nodes, height, levels, k, pred, succ);
      var next1 := LinkLevel(next, nodes, height, k, n, 0);
      assert pred == HEAD || (pred in nodes && CleanAt(next, height, pred));
    }

    /** At level 0 all nodes are neighbours. */
    static lemma BaseNeighbours(nodes: seq<Node>, height: map<Node, nat>, levels: nat, k: nat, pred: Node, succ: Node)
      requires k <= |nodes| && AllFit(nodes, height, levels) && pred == LastOf(nodes[..k]) && succ == FirstOf(nodes[k..])
      ensures pred == LastOf(Tower(nodes[..k], height, 0)) && succ == FirstOf(Tower(nodes[k..], height, 0))
    {
      TowerZero(nodes[..k], height, levels);
      TowerZero(nodes[k..], height, levels);
    }

    /** The swing at level 0, which makes the node a member.  Only another thread
        could make it fail. */
    method LinkBase(n: Node, ghost k: nat, pred: Node, succ: Node) returns (retry: bool)
      requires k <= |nodes| && n !in nodes && n != HEAD && n != TAIL && Distinct(nodes) && Interior(nodes)
      requires AllFit(nodes, height, headHeight) && pred == LastOf(nodes[..k]) && succ == FirstOf(nodes[k..])
      requires n in next && next[n][0] == Link(succ, false)
      requires LinkedUpTo(next, nodes, height, k, n, 0) && Clean(next, nodes, height)
      modifies this`next
      ensures !retry && LinkedUpTo(next, nodes, height, k, n, 1) && Clean(next, nodes, height)
      ensures n in next && next[n] == old(next)[n]
    {
      BaseLinks(next, nodes, height, headHeight, k, n, pred, succ);
      retry := next[pred][0] != Link(succ, false);
      if !retry {
        next := next[pred := next[pred][0 := Link(n, false)]];
      }
    }

    /** Bottom up through the levels above; the predecessor at level 0 is what
        the last search said. */
    method LinkLevels(n: Node, h: nat, ghost k: nat, preds0: seq<Node>, succs0: seq<Node>) returns (pred: Node)
      requires Linkable(n, h, k) && k <= |nodes|
      requires h < |preds0| == |succs0| <= headHeight && SoundFrom(nodes, height, k, preds0, succs0, 0)
      requires preds0[0] == LastOf(nodes[..k])
      requires LinkedUpTo(next, nodes, height, k, n, 1) && n in next && Plain(next[n], h)
      modifies this`next
      ensures pred == LastOf(nodes[..k]) && Clean(next, nodes, height)
      ensures LinkedUpTo(next, nodes, height, k, n, h + 1) && n in next && Plain(next[n], h)
      ensures n in old(next) && next[n][0] == old(next)[n][0]
    {
      var preds, succs := preds0, succs0;
      var i := 1;
      while i <= h
        invariant 1 <= i <= h + 1 && Linkable(n, h, k)
        invariant h < |preds| == |succs| <= headHeight && SoundFrom(nodes, height, k, preds, succs, i)
        invariant preds[0] == LastOf(nodes[..k])
        invariant LinkedUpTo(next, nodes, height, k, n, i) && n in next && Plain(next[n], h)
        invariant next[n][0] == old(next)[n][0]
      {
        preds, succs := LinkUpper(n, h, k, i, preds, succs);
        i := i + 1;
      }
      pred := preds[0];
    }

    /** What an insert relies on while it links. */
    ghost predicate Linkable(n: Node, h: nat, k: nat)
      reads this
    {
      && n in key && Ascending(nodes, key) && k == Below(nodes, key, key[n])
      && n !in nodes && n != HEAD && n != TAIL && Distinct(nodes) && Interior(nodes)
      && h < headHeight < MAX_HEIGHT && AllFit(nodes, height, headHeight) && Clean(next, nodes, height)
    }

    /** One level: refresh the node's own slot, swing the predecessor, and if that
        fails search again. */
    method LinkUpper(n: Node, h: nat, ghost k: nat, i: nat, preds0: seq<Node>, succs0: seq<Node>)
        returns (preds: seq<Node>, succs: seq<Node>)
      requires Linkable(n, h, k) && 0 < i <= h
      requires h < |preds0| == |succs0| <= headHeight && SoundFrom(nodes, height, k, preds0, succs0, i)
      requires preds0[0] == LastOf(nodes[..k])
      requires LinkedUpTo(next, nodes, height, k, n, i) && n in next && Plain(next[n], h)
      modifies this`next
      ensures Linkable(n, h, k)
      ensures h < |preds| == |succs| <= headHeight && SoundFrom(nodes, height, k, preds, succs, i + 1)
      ensures preds[0] == LastOf(nodes[..k])
      ensures LinkedUpTo(next, nodes, height, k, n, i + 1) && n in next && Plain(next[n], h)
      ensures n in old(next) && next[n][0] == old(next)[n][0]
    {
      preds, succs := preds0, succs0;
      var linked := false;
      ghost var exact := false;
      while !linked
        invariant Linkable(n, h, k) && n in next && Plain(next[n], h) && next[n][0] == old(next)[n][0]
        invariant h < |preds| == |succs| <= headHeight && SoundFrom(nodes, height, k, preds, succs, i)
        invariant preds[0] == LastOf(nodes[..k])
        invariant LinkedUpTo(next, nodes, height, k, n, if linked then i + 1 else i)
        invariant exact ==> AtLevel(nodes, height, k, i, preds[i], succs[i])
        decreases !linked, !exact
      {
        RefreshSlot(n, h, k, i, succs[i]);
        linked := Swing(n, h, k, i, preds[i], succs[i]);
        if !linked {
          preds, succs := LocateAgain(n, h, k, i);
          exact := true;
        }
      }
    }

    /** The node's own slot must name the successor before it is published. */
    method RefreshSlot(n: Node, h: nat, ghost k: nat, i: nat, succ: Node)
      requires Linkable(n, h, k) && 0 < i <= h && k <= |nodes|
      requires LinkedUpTo(next, nodes, height, k, n, i) && n in next && Plain(next[n], h)
      modifies this`next
      ensures Linkable(n, h, k) && LinkedUpTo(next, nodes, height, k, n, i)
      ensures n in old(next) && next == old(next)[n := old(next)[n][i := Link(succ, false)]] && Plain(next[n], h)
    {
      if next[n][i] != Link(succ, false) {
        SlotStored(next, nodes, height, k, n, i, Link(succ, false));
        next := next[n := next[n][i := Link(succ, false)]];
      } else {
        assert next[n][i := Link(succ, false)] == next[n] && next[n := next[n]] == next;
      }
    }

    /** The compare-and-swap on the predecessor: it succeeds exactly if the path
        is still right at this level, and then links the node there. */
    method Swing(n: Node, h: nat, ghost k: nat, i: nat, pred: Node, succ: Node) returns (linked: bool)
      requires Linkable(n, h, k) && 0 < i <= h && k <= |nodes| && Sound(nodes, height, k, i, pred, succ)
      requires LinkedUpTo(next, nodes, height, k, n, i) && n in next && next[n][i] == Link(succ, false)
      modifies this`next
      ensures Linkable(n, h, k) && n in next && n in old(next) && next[n] == old(next)[n]
      ensures linked <==> AtLevel(nodes, height, k, i, pred, succ)
      ensures if linked then LinkedUpTo(next, nodes, height, k, n, i + 1) else next == old(next)
    {
      SwingSucceedsIff(n, h, k, i, pred, succ);
      linked := next[pred][i] == Link(succ, false);
      if linked {
        ghost var next1 := LinkLevel(next, nodes, height, k, n, i);
        next := next[pred := next[pred][i := Link(n, false)]];
      }
    }

    lemma SwingSucceedsIff(n: Node, h: nat, k: nat, i: nat, pred: Node, succ: Node)
      requires Linkable(n, h, k) && 0 < i <= h && k <= |nodes| && LinkedUpTo(next, nodes, height, k, n, i)
      requires Sound(nodes, height, k, i, pred, succ)
      ensures pred in next && pred != n
      ensures next[pred][i] == Link(succ, false) <==> AtLevel(nodes, height, k, i, pred, succ)
    {
      assert LinkedAt(next, nodes, height, k, n, i, i);
      SwingFitsIff(next, nodes, height, k, i, pred, succ);
      if pred != HEAD {
        assert pred in nodes && CleanAt(next, height, pred);
      }
    }

    /** The search again, with the node already on the levels below `i`. */
    method LocateAgain(n: Node, h: nat, ghost k: nat, i: nat) returns (preds: seq<Node>, succs: seq<Node>)
      requires Linkable(n, h, k) && 0 < i <= h && k <= |nodes|
      requires LinkedUpTo(next, nodes, height, k, n, i) && n in next && Plain(next[n], h)
      ensures |preds| == |succs| == headHeight && preds[0] == LastOf(nodes[..k])
      ensures forall l :: i <= l < |preds| ==> AtLevel(nodes, height, k, l, preds[l], succs[l])
      ensures SoundFrom(nodes, height, k, preds, succs, i)
    {
      PlaceOfInserted(nodes, key, k, n);
      PartlyInserted(next, nodes, height, headHeight, k, n, i);
      var before, behind, _ := Search(key[n], Inserted(nodes, k, n), height[n := i - 1]);
      preds, succs := before, behind;
      forall l | 0 <= l < |preds|
        ensures l >= i ==> AtLevel(nodes, height, k, l, preds[l], succs[l]) && Sound(nodes, height, k, l, preds[l], succs[l])
        ensures preds[l] == LastOf(Tower(nodes[..k], height, l))
      {
        FoundAfresh(nodes, key, height, k, n, i, l, preds[l], succs[l]);
        if l >= i {
          ExactIsSound(nodes, height, k, l, preds[l], succs[l]);
        }
      }
      TowerZero(nodes[..k], height, headHeight);
    }

    method SetBack(n: Node, ghost k: nat, pred: Node)
      requires k <= |nodes| && Distinct(nodes) && Interior(nodes) && n !in nodes && n != HEAD && n != TAIL
      requires BackThreads(prev, nodes) && pred == LastOf(nodes[..k])
      requires n in next && next[n][0].ptr == FirstOf(nodes[k..])
      modifies this`prev
      ensures BackThreads(prev, Inserted(nodes, k, n))
    {
      assert nodes == nodes[..k] + nodes[k..];
      ApartFrom(nodes[..k], n, nodes[k..]);
      BackInsert(prev, nodes[..k], n, nodes[k..]);
      prev := prev[n := pred];
      var succ := next[n][0].ptr;
      if succ in prev && prev[succ] == pred {
        prev := prev[succ := n];
      }
    }

    /** One pass of the unlink sweep over level `l`, whose chain is `c`. */
    method SweepLevel(n: Node, l: nat, ghost c: seq<Node>) returns (retry: bool)
      requires l < MAX_HEIGHT && n in key && n in next && n != HEAD
      requires Within(c, key.Keys) && Distinct(c) && Interior(c) && Threads(next, l, c)
      requires HEAD in next && !next[HEAD][l].marked
      modifies this`next
      ensures !retry
      ensures Threads(next, l, Swept(c, MarkedAt(old(next), l, c), key, n))
      ensures OnlyLevel(old(next), next, l) && next[n] == old(next)[n]
    {
      retry := false;
      ghost var next0, a, m := next, [], 0;
      assert [] + c == c && c[0..] == c;
      var pred, curr := HEAD, next[HEAD][l].ptr;
      Facing(next, l, [], c);
      while curr != TAIL
        invariant m <= |c| && pred == LastOf(a) && curr == FirstOf(c[m..])
        invariant Sweeping(next0, next, key, n, l, c, a, m) && !retry
        decreases |c| - m
      {
        SweepSees(next0, next, key, n, l, c, a, m);
        ghost var next' := SweepSplices(next0, next, key, n, l, c, a, m);
        if curr == n {
          if next[pred][l] == Link(n, false) {
            next := next[pred := next[pred][l := Link(next[n][l].ptr, false)]];
          } else {
            retry := true;
          }
          return;
        }
        var succ := next[curr][l];
        if succ.marked {
          if next[pred][l] == Link(curr, false) {
            next := next[pred := next[pred][l := Link(succ.ptr, false)]];
          } else {
            retry := true;
            return;
          }
        } else if key[curr] <= key[n] {
          SweepKeeps(next0, next, key, n, l, c, a, m);
          pred := curr;
          a := a + [curr];
        } else {
          SweepStops(next0, next, key, n, l, c, a, m);
          return;
        }
        curr, m := succ.ptr, m + 1;
      }
      SweepStops(next0, next, key, n, l, c, a, m);
    }

    /** Whether level `l` still leads to `n`: the walk gives up at the first
        larger key. */
    method StillLinked(n: Node, l: nat, ghost c: seq<Node>) returns (found: bool)
      requires l < MAX_HEIGHT && n in key && LevelIs(next, key, l, c)
      ensures found <==> n in c
    {
      ghost var m := 0;
      WalkBegins(next, l, c);
      var node := next[HEAD][l].ptr;
      while node != TAIL
        invariant m <= |c| && node == FirstOf(c[m..]) && n !in c[..m]
        decreases |c| - m
      {
        WalkSees(next, key, l, c, m);
        if node == n {
          return true;
        }
        if key[node] > key[n] {
          AboveRest(c, m, n);
          return false;
        }
        node := next[node][l].ptr;
        m := m + 1;
      }
      WalkEnds(c, m);
      return false;
    }

    lemma AboveRest(c: seq<Node>, m: nat, n: Node)
      requires Ascending(c, key) && n in key && m < |c| && n !in c[..m] && key[c[m]] > key[n]
      ensures n !in c
    {
      forall i | 0 <= i < |c|
        ensures c[i] != n
      {
        if i < m {
          assert c[..m][i] == c[i];
        } else if i > m {
          assert NotAbove(c, key, m, i);
        }
      }
    }

    /** Takes a marked node out of every level up to its own height or the
        head's, whichever is larger, then checks that no level leads to it.
        Level `l` runs through `chains[l]` before, and through what the sweep
        leaves of it after; with one thread the first round always succeeds. */
    method UnlinkFully(n: Node, ghost chains: seq<seq<Node>>)
      requires |chains| == MAX_HEIGHT && LevelsAre(next, key, chains) && forall c <- chains :: Within(c, key.Keys)
      requires n in key && n in next && n != HEAD && n in height && height[n] < MAX_HEIGHT && headHeight < MAX_HEIGHT
      requires HEAD in next && Plain(next[HEAD], MAX_HEIGHT)
      modifies this`next
      ensures var hi := if height[n] > headHeight then height[n] else headHeight;
              AllSwept(old(next), next, key, n, chains, 0, hi)
      ensures MarksKept(old(next), next) && next[n] == old(next)[n]
    {
      var done := false;
      var hi := if height[n] > headHeight then height[n] else headHeight;
      while !done
        invariant if done then AllSwept(old(next), next, key, n, chains, 0, hi) else next == old(next)
        invariant MarksKept(old(next), next) && next[n] == old(next)[n]
        decreases if done then 0 else 1
      {
        var retry := SweepLevels(n, hi, chains);
        if !retry {
          ghost var left := AllLeft(old(next), next, key, n, chains, hi);
          var found := AnyLinked(n, hi, left);
          done := !found;
        }
      }
    }

    method SweepLevels(n: Node, hi: nat, ghost chains: seq<seq<Node>>) returns (retry: bool)
      requires |chains| == MAX_HEIGHT && LevelsAre(next, key, chains) && forall c <- chains :: Within(c, key.Keys)
      requires n in key && n in next && n != HEAD && hi < MAX_HEIGHT
      requires HEAD in next && Plain(next[HEAD], MAX_HEIGHT)
      modifies this`next
      ensures !retry && AllSwept(old(next), next, key, n, chains, 0, hi)
      ensures MarksKept(old(next), next) && next[n] == old(next)[n]
    {
      retry := false;
      NothingSwept(next, key, n, chains, hi);
      var lo := hi + 1;
      while lo > 0
        invariant 0 <= lo <= hi + 1 && !retry
        invariant AllSwept(old(next), next, key, n, chains, lo, hi)
        invariant MarksKept(old(next), next) && next[n] == old(next)[n]
      {
        lo := lo - 1;
        assert LevelSwept(old(next), next, key, n, chains[lo], lo, lo + 1, hi);
        assert MarkKept(old(next), next, HEAD) && Within(chains[lo], key.Keys);
        ghost var next1 := next;
        var again := SweepLevel(n, lo, chains[lo]);
        retry := retry || again;
        SweptOneMore(old(next), next1, next, key, n, chains, lo, hi);
      }
    }

    method AnyLinked(n: Node, hi: nat, ghost chains: seq<seq<Node>>) returns (found: bool)
      requires |chains| == MAX_HEIGHT && LevelsAre(next, key, chains) && n in key && hi < MAX_HEIGHT
      ensures found <==> exists l :: 0 <= l <= hi && n in chains[l]
    {
      found := false;
      var lo := hi + 1;
      while lo > 0 && !found
        invariant 0 <= lo <= hi + 1
        invariant found <==> exists l :: lo <= l <= hi && n in chains[l]
      {
        lo := lo - 1;
        assert LevelIs(next, key, lo, chains[lo]);
        found := StillLinked(n, lo, chains[lo]);
      }
    }

    /** Marks a node's pointers from the top down, level 0 last. */
    method MarkAll(n: Node)
      requires n in next && n in height && height[n] < MAX_HEIGHT && Plain(next[n], height[n])
      modifies this`next
      ensures next == old(next)[n := AllMarked(old(next)[n], height[n])]
    {
      ghost var slots := next[n];
      var l := height[n];
      while l >= 1
        invariant 0 <= l <= height[n] < MAX_HEIGHT
        invariant n in next && next == old(next)[n := next[n]]
        invariant forall i :: 0 <= i < MAX_HEIGHT ==> next[n][i] == if l < i <= height[n] then Link(slots[i].ptr, true) else slots[i]
      {
        var succ := next[n][l];
        while !succ.marked
          invariant n in next && succ == next[n][l] && succ.ptr == slots[l].ptr && next == old(next)[n := next[n]]
          invariant forall i :: 0 <= i < MAX_HEIGHT && i != l ==> next[n][i] == if l < i <= height[n] then Link(slots[i].ptr, true) else slots[i]
          decreases if succ.marked then 0 else 1
        {
          next := next[n := next[n][l := Link(succ.ptr, true)]];
          succ := next[n][l];
        }
        l := l - 1;
      }
      next := next[n := next[n][0 := Link(next[n][0].ptr, true)]];
      assert next[n] == AllMarked(slots, height[n]);
    }

    /** Removes the first node with the key. */
    method Remove(q: int) returns (rc: Outcome)
      requires Valid()
      modifies this`next, this`prev, this`headHeight, this`length, this`nodes
      ensures Valid()
      ensures var k := Below(old(nodes), key, q);
              if k < |old(nodes)| && key[old(nodes)[k]] == q then rc == Ok && nodes == Removed(old(nodes), k)
              else rc == NotFound && nodes == old(nodes) && next == old(next) && prev == old(prev) && headHeight == old(headHeight)
    {
      var preds, succs, found := Locate(q);
      if found.Nothing? {
        return NotFound;
      }
      TakeOut(found.node, Below(nodes, key, q));
      rc := Ok;
    }

    method TakeOut(n: Node, ghost k: nat)
      requires Valid() && k < |nodes| && nodes[k] == n
      modifies this`next, this`prev, this`headHeight, this`length, this`nodes
      ensures Valid() && nodes == Removed(old(nodes), k)
    {
      Unlink(n, k);
      RemovedInOrder(nodes, key, k, hasDups);
      RemovedWithin(nodes, k, val.Keys);
      nodes, length := Removed(nodes, k), length - 1;
      Shrink();
    }

    method Unlink(n: Node, ghost k: nat)
      requires Shaped(next, nodes, height, headHeight) && Ascending(nodes, key) && BackThreads(prev, nodes)
      requires k < |nodes| && nodes[k] == n
      modifies this`next, this`prev
      ensures Shaped(next, Removed(nodes, k), height, headHeight) && BackThreads(prev, Removed(nodes, k))
    {
      assert n in nodes && CleanAt(next, height, n) && Fits(height, headHeight, n);
      TowersInOrder(next, nodes, height, headHeight, key, n);
      MarkAll(n);
      UnlinkFully(n, AllTowers(nodes, height));
      UnlinkedShape(old(next), next, nodes, height, headHeight, key, k);
      SkipBack(n, k);
    }

    /** The successor's back pointer skips over the node that left. */
    method SkipBack(n: Node, ghost k: nat)
      requires k < |nodes| && nodes[k] == n && Distinct(nodes) && Interior(nodes) && BackThreads(prev, nodes)
      requires n in next && next[n][0].ptr == FirstOf(nodes[k + 1..])
      modifies this`prev
      ensures BackThreads(prev, Removed(nodes, k))
    {
      BackRemove(prev, nodes, k);
      var succ := next[n][0].ptr;
      if succ in prev && prev[succ] == n && n in prev {
        prev := prev[succ := prev[n]];
      }
    }

    /** Empty levels at the top are given up. */
    method Shrink()
      requires Shaped(next, nodes, height, headHeight)
      modifies this`headHeight
      ensures Shaped(next, nodes, height, headHeight) && headHeight <= old(headHeight)
      ensures headHeight > 1 ==> next[HEAD][headHeight - 1].ptr != TAIL
    {
      while headHeight > 1
        invariant Shaped(next, nodes, height, headHeight) && headHeight <= old(headHeight)
      {
        if next[HEAD][headHeight - 1].ptr != TAIL {
          break;
        }
        TopEmpty(next, nodes, height, headHeight);
        headHeight := headHeight - 1;
      }
    }

    /** The node before `node` at level 0, whatever its back pointer says: the
        hint is believed only if that node's unmarked pointer leads to `node`,
        and otherwise repaired by a scan that looks through marks.  Nodes that
        are no longer on the chain may still be named by a hint, but their own
        pointer is marked. */
    method PrevValidated(node: Node) returns (found: Found)
      requires Threads(next, 0, nodes) && Distinct(nodes) && Interior(nodes) && node != HEAD && node != TAIL
      requires node in prev ==>
        var hint := prev[node]; hint == HEAD || hint == TAIL || hint in nodes || (hint in next && next[hint][0].marked)
      modifies this`prev
      ensures forall i :: 0 <= i < |nodes| && nodes[i] == node ==>
        found == (if i == 0 then Nothing else Just(nodes[i - 1])) && node in prev && prev[node] == LastOf(nodes[..i])
      ensures node !in nodes ==> found == Nothing
      ensures forall x <- old(prev).Keys :: x != node ==> x in prev && prev[x] == old(prev)[x]
    {
      if node in prev && prev[node] != TAIL {
        var hint := prev[node];
        OnLevelZero(hint, node);
        if next[hint][0] == Link(node, false) {
          return if hint == HEAD then Nothing else Just(hint);
        }
      }
      var scan, before := HEAD, HEAD;
      ghost var j := 0;
      while true
        invariant j <= |nodes| && scan == Chain(nodes)[j] && before == HEAD
        invariant node !in nodes[..j]
        decreases |nodes| - j
      {
        assert Leads(next, 0, nodes, j);
        var succ := next[scan][0].ptr;
        assert j < |nodes| ==> nodes[j] in nodes && succ == nodes[j] && scan == LastOf(nodes[..j]);
        if succ == TAIL {
          break;
        }
        assert nodes[..j + 1] == nodes[..j] + [nodes[j]];
        if succ == node {
          Once(nodes, j);
          assert j > 0 ==> scan == nodes[j - 1] && nodes[j - 1] in nodes;
          before := scan;
          break;
        }
        scan, j := succ, j + 1;
      }
      prev := prev[node := before];
      found := if before == HEAD then Nothing else Just(before);
      assert j == |nodes| ==> nodes[..j] == nodes;
    }

    /** A pointer at level 0 leads to `node` from its predecessor alone. */
    lemma OnLevelZero(hint: Node, node: Node)
      requires Threads(next, 0, nodes) && Distinct(nodes) && Interior(nodes) && node != HEAD && node != TAIL
      requires hint == HEAD || hint in nodes || (hint in next && next[hint][0].marked)
      ensures hint in next
      ensures next[hint][0] == Link(node, false) ==>
        node in nodes && forall i :: 0 <= i < |nodes| && nodes[i] == node ==> hint == LastOf(nodes[..i]) && (i == 0 <==> hint == HEAD)
    {
      if hint == HEAD || hint in nodes {
        var j := Position(nodes, hint);
        assert Leads(next, 0, nodes, j);
        if j < |nodes| {
          Once(nodes, j);
          assert Chain(nodes)[j] == LastOf(nodes[..j]) && Chain(nodes)[j + 1] == nodes[j];
          assert j > 0 ==> nodes[j - 1] in nodes;
        }
      }
    }

    /** Splices `node` out of its top level, if the search's predecessor there
        leads to it. */
    method Demote(node: Node, ghost pos: nat, preds: seq<Node>)
      requires Shaped(next, nodes, height, headHeight) && pos < |nodes| && nodes[pos] == node && |preds| <= headHeight
      requires forall p <- preds :: p == HEAD || p in nodes
      requires node in height && forall l :: height[node] < l < |preds| ==> preds[l] == LastOf(Tower(nodes[..pos], height, l))
      modifies this`next, this`height
      ensures Shaped(next, nodes, height, headHeight)
      ensures node in height && height == old(height)[node := height[node]]
      ensures height[node] <= old(height)[node] <= height[node] + 1
      ensures old(height)[node] < |preds| && preds[old(height)[node]] == node ==> height[node] == old(height)[node]
      ensures forall l :: height[node] < l < |preds| ==> preds[l] == LastOf(Tower(nodes[..pos], height, l))
      ensures var h := old(height)[node];
              if 0 < h < |preds| && preds[h] == LastOf(Tower(nodes[..pos], old(height), h)) then height[node] == h - 1
              else height[node] == h || 0 < h < |preds|
    {
      var h := height[node];
      assert node in nodes && CleanAt(next, height, node) && Fits(height, headHeight, node);
      if h == 0 || h >= |preds| {
        return;
      }
      var pred := preds[h];
      PredecessorLeads(next, nodes, height, headHeight, pos, h);
      assert pred in preds && (pred in nodes ==> Fits(height, headHeight, pred));
      if pred != HEAD && height[pred] < h {
        return;
      }
      var succ := next[node][h];
      OnlyPredecessor(next, nodes, height, headHeight, pos, h, pred);
      if !succ.marked && next[pred][h] == Link(node, false) {
        ghost var next' := DemotedShape(next, nodes, height, headHeight, pos, pred);
        StillPredecessors(pos, preds, h - 1);
        next := next[pred := next[pred][h := Link(succ.ptr, false)]];
        height := height[node := h - 1];
      }
    }

    lemma StillPredecessors(pos: nat, preds: seq<Node>, h: nat)
      requires pos < |nodes| && Distinct(nodes)
      ensures forall l :: 0 <= l < |preds| && preds[l] == LastOf(Tower(nodes[..pos], height, l)) ==>
        preds[l] == LastOf(Tower(nodes[..pos], height[nodes[pos] := h], l))
    {
      NotAmong(nodes, pos);
      forall l | 0 <= l < |preds| && preds[l] == LastOf(Tower(nodes[..pos], height, l))
        ensures preds[l] == LastOf(Tower(nodes[..pos], height[nodes[pos] := h], l))
      {
        TowerUntouched(nodes[..pos], height, nodes[pos], h, l);
      }
    }

    /** More levels for the head, each from the head straight to the tail. */
    method GrowHead(target: nat)
      requires Shaped(next, nodes, height, headHeight) && headHeight < target < MAX_HEIGHT
      modifies this`next, this`headHeight
      ensures Shaped(next, nodes, height, headHeight) && headHeight == target && next == old(next)
    {
      var h := headHeight + 1;
      while h <= target
        invariant headHeight == old(headHeight) < h <= target + 1 && next == old(next)
      {
        AllFitAbove(nodes, height, headHeight, h);
        TowerEmpty(nodes, height, h);
        assert LevelThreads(next, nodes, height, h) && Leads(next, h, [], 0);
        assert next[HEAD] == next[HEAD][h := Link(TAIL, false)];
        next := next[HEAD := next[HEAD][h := Link(TAIL, false)]];
        h := h + 1;
      }
      AllFitAbove(nodes, height, headHeight, target);
      headHeight := target;
    }

    /** Links `node` into the level above its own, behind the predecessor the
        search found there; the head may have to grow first. */
    method Promote(node: Node, ghost pos: nat, preds: seq<Node>, target: nat)
      requires Shaped(next, nodes, height, headHeight) && pos < |nodes| && nodes[pos] == node && |preds| <= headHeight
      requires forall p <- preds :: p == HEAD || p in nodes
      requires node in height && forall l :: height[node] < l < |preds| ==> preds[l] == LastOf(Tower(nodes[..pos], height, l))
      modifies this`next, this`height, this`headHeight
      ensures Shaped(next, nodes, height, headHeight) && headHeight >= old(headHeight)
      ensures node in height && height == old(height)[node := height[node]]
      ensures height[node] == if old(height)[node] + 1 < |preds| then old(height)[node] + 1 else old(height)[node]
      ensures headHeight == Grown(old(height)[node], old(headHeight), target)
    {
      var h := height[node];
      assert Fits(height, headHeight, node);
      if h >= MAX_HEIGHT - 1 || h >= headHeight {
        return;
      }
      if h + 1 >= headHeight {
        if target <= headHeight || target >= MAX_HEIGHT {
          return;
        }
        GrowHead(target);
      }
      if h + 1 < |preds| {
        PredecessorLeads(next, nodes, height, headHeight, pos, h + 1);
      }
      height := height[node := h + 1];
      var linked := false;
      if h + 1 < |preds| && (preds[h + 1] == HEAD || (preds[h + 1] in height && height[preds[h + 1]] >= h + 1)) {
        linked := LinkUp(node, pos, old(height), preds[h + 1]);
      }
      // an attempt that did not link the node takes its height back
      height := height[node := if linked then h + 1 else h];
      assert height == if linked then old(height)[node := h + 1] else old(height);
    }

    /** The node's height is raised already: store its pointer, then publish it. */
    method LinkUp(node: Node, ghost pos: nat, ghost height0: map<Node, nat>, pred: Node) returns (linked: bool)
      requires Shaped(next, nodes, height0, headHeight) && pos < |nodes| && nodes[pos] == node && node in height0
      requires height0[node] + 1 < headHeight && height == height0[node := height0[node] + 1]
      requires pred == LastOf(Tower(nodes[..pos], height0, height0[node] + 1))
      modifies this`next
      ensures linked && Shaped(next, nodes, height, headHeight)
    {
      ghost var next' := PromotedShape(next, nodes, height0, headHeight, pos, pred);
      var h := height[node];
      var succ := next[pred][h];
      linked := false;
      if !succ.marked {
        next := next[node := next[node][h := Link(succ.ptr, false)]];
        if next[pred][h] == succ {
          next := next[pred := next[pred][h := Link(node, false)]];
          linked := true;
        }
      }
    }

    /** The predecessors a search for the `k`-th place recorded. */
    ghost predicate Recorded(height0: map<Node, nat>, preds: seq<Node>, k: nat)
      reads this
    {
      && k <= |nodes| && AllFit(nodes, height0, |preds|)
      && forall l :: 0 <= l < |preds| ==> preds[l] == LastOf(Tower(nodes[..k], height0, l))
    }

    static ghost predicate SameHeight(height0: map<Node, nat>, height1: map<Node, nat>, x: Node) {
      x in height1 && x in height0 && height1[x] == height0[x]
    }

    static ghost predicate StandsAsHigh(height0: map<Node, nat>, height: map<Node, nat>, p: Node) {
      p == HEAD || (p in height0 && Reaches(height, p, height0[p]))
    }

    /** No predecessor on the path has been lowered. */
    static ghost predicate KeptHigh(height0: map<Node, nat>, height: map<Node, nat>, preds: seq<Node>) {
      forall p <- preds :: StandsAsHigh(height0, height, p)
    }

    ghost predicate Ahead(height0: map<Node, nat>, p: Node, cut: nat)
      reads this
      requires cut <= |nodes|
    {
      p == HEAD || p in nodes[..cut] || (cut < |nodes| && p == nodes[cut] && p in height0 && Reaches(height, p, height0[p]))
    }

    /** What the rest of a rebalance can rely on: nothing before `cut` has moved
        since the search, and the nodes still to visit lie up to `cut`. */
    ghost predicate PathHolds(height0: map<Node, nat>, preds: seq<Node>, cut: nat, i: nat)
      reads this
    {
      && cut <= |nodes|
      && (forall x <- nodes[..cut] :: SameHeight(height0, height, x))
      && (forall j :: i <= j < |preds| ==> Ahead(height0, preds[j], cut))
    }

    lemma PathStarts(preds: seq<Node>, k: nat)
      requires Shaped(next, nodes, height, headHeight) && Recorded(height, preds, k)
      ensures PathHolds(height, preds, k, 0) && forall p <- preds :: p == HEAD || p in nodes
      ensures KeptHigh(height, height, preds)
    {
      forall x | x in nodes[..k]
        ensures SameHeight(height, height, x)
      {
        assert Fits(height, headHeight, x);
      }
      forall j | 0 <= j < |preds|
        ensures Ahead(height, preds[j], k) && (preds[j] == HEAD || preds[j] in nodes)
      {
        TowerMembers(nodes[..k], height, j, preds[j]);
      }
      forall p | p in preds
        ensures StandsAsHigh(height, height, p)
      {
        assert p == HEAD || p in nodes;
        assert p in nodes ==> Fits(height, headHeight, p);
      }
    }

    lemma MatchVisited(height0: map<Node, nat>, preds: seq<Node>, k: nat)
      requires Distinct(nodes) && k < |nodes| && AllFit(nodes, height0, |preds|) && Recorded(height0, preds, k)
      requires nodes[k] in height && height == height0[nodes[k] := height[nodes[k]]]
      ensures PathHolds(height0, preds, k, 0) && KeptHigh(height0, height, preds)
    {
      NotAmong(nodes, k);
      forall x | x in nodes[..k]
        ensures SameHeight(height0, height, x)
      {
        assert x in nodes && Fits(height0, |preds|, x);
      }
      forall j | 0 <= j < |preds|
        ensures Ahead(height0, preds[j], k)
      {
        TowerMembers(nodes[..k], height0, j, preds[j]);
      }
      forall p | p in preds
        ensures StandsAsHigh(height0, height, p)
      {
        var j :| 0 <= j < |preds| && preds[j] == p;
        assert Ahead(height0, preds[j], k);
        assert p in nodes[..k] ==> SameHeight(height0, height, p);
      }
    }

    /** Where the next node to visit stands, and who precedes it above its height. */
    lemma NextOnPath(height0: map<Node, nat>, preds: seq<Node>, k: nat, cut: nat, i: nat) returns (pos: nat)
      requires Distinct(nodes) && Interior(nodes) && Recorded(height0, preds, k)
      requires PathHolds(height0, preds, cut, i) && i < |preds| && preds[i] != HEAD
      ensures pos < |nodes| && pos < k && pos <= cut && nodes[pos] == preds[i]
      ensures forall x <- nodes[..pos] :: SameHeight(height0, height, x)
      ensures preds[i] in height0 && height0[preds[i]] >= i && Reaches(height, preds[i], height0[preds[i]])
      ensures forall l :: height[preds[i]] < l < |preds| ==> preds[l] == LastOf(Tower(nodes[..pos], height, l))
    {
      var p := preds[i];
      assert Ahead(height0, p, cut);
      if p in nodes[..cut] {
        pos :| 0 <= pos < cut && nodes[pos] == p;
        assert SameHeight(height0, height, p);
      } else {
        pos := cut;
      }
      PathWithin(nodes, height0, k, i, pos);
      forall x | x in nodes[..pos]
        ensures SameHeight(height0, height, x)
      {
        assert x in nodes[..cut];
      }
      forall l | height[p] < l < |preds|
        ensures preds[l] == LastOf(Tower(nodes[..pos], height, l))
      {
        PathBelow(nodes, height0, k, i, pos, l);
        TowerFrame(nodes[..pos], height0, height, l);
        assert Tower(nodes[..pos], height0, l) + [] == Tower(nodes[..pos], height0, l);
      }
    }

    /** Nor does it lower a predecessor below where it stood. */
    lemma StaysHigh(height0: map<Node, nat>, height1: map<Node, nat>, preds: seq<Node>, k: nat, pos: nat, i: nat)
      requires Distinct(nodes) && Interior(nodes) && Recorded(height0, preds, k) && i < |preds|
      requires pos < k && nodes[pos] == preds[i] && preds[i] in height0 && height0[preds[i]] >= i
      requires Reaches(height1, preds[i], height0[preds[i]])
      requires preds[i] in height && height == height1[preds[i] := height[preds[i]]] && height1[preds[i]] <= height[preds[i]] + 1
      requires height1[preds[i]] < |preds| && preds[height1[preds[i]]] == preds[i] ==> height[preds[i]] >= height1[preds[i]]
      ensures Reaches(height, preds[i], height0[preds[i]])
      ensures KeptHigh(height0, height1, preds) ==> KeptHigh(height0, height, preds)
    {
      var p := preds[i];
      assert p in nodes && Fits(height0, |preds|, p);
      PathBelow(nodes, height0, k, i, pos, height0[p]);
      assert preds[height0[p]] == p;
    }

    /** A visit moves no node before the visited one. */
    lemma AfterVisit(height0: map<Node, nat>, height1: map<Node, nat>, preds: seq<Node>, k: nat, pos: nat, i: nat)
      requires Distinct(nodes) && Interior(nodes) && Recorded(height0, preds, k) && i < |preds|
      requires pos < k && nodes[pos] == preds[i] && preds[i] in height0 && height0[preds[i]] >= i
      requires forall x <- nodes[..pos] :: SameHeight(height0, height1, x)
      requires preds[i] in height && height == height1[preds[i] := height[preds[i]]]
      requires Reaches(height, preds[i], height0[preds[i]])
      ensures PathHolds(height0, preds, pos, i + 1)
    {
      var p := preds[i];
      assert p in nodes;
      NotAmong(nodes, pos);
      forall j | i < j < |preds|
        ensures Ahead(height0, preds[j], pos)
      {
        PathBelow(nodes, height0, k, i, pos, j);
        TowerMembers(nodes[..pos], height0, j, preds[j]);
        assert Tower(nodes[..pos], height0, j) + [] == Tower(nodes[..pos], height0, j);
      }
      forall x | x in nodes[..pos]
        ensures SameHeight(height0, height, x)
      {
        assert SameHeight(height0, height1, x);
      }
    }

    /** The adjustment an access triggers: each node the search recorded -- the
        match first, then the predecessors from the bottom level up -- may move
        down a level and may move up one, as the hit counts say.  Whatever they
        say, the list holds the same nodes in the same order; and the match moves
        just as its own wish says. */
    method Rebalance(found: Found, preds: seq<Node>, ghost k: nat, wants: Wants)
      requires Valid() && |preds| == headHeight && Recorded(height, preds, k)
      requires found.Just? ==> k < |nodes| && found.node == nodes[k]
      modifies this`next, this`height, this`headHeight
      ensures Valid() && headHeight >= old(headHeight) && Items() == old(Items())
      ensures KeptHigh(old(height), height, preds) && GrownAsWished(old(headHeight), headHeight, wants, |preds| + 1)
      ensures found.Just? ==> MovedAsWished(old(height), height, found.node, |preds|, wants(0))
    {
      ghost var height0 := height;
      PathStarts(preds, k);
      if found.Just? {
        RebalanceMatch(found.node, preds, k, wants(0));
      }
      assert GrownAsWished(old(headHeight), headHeight, wants, 1);
      RebalancePath(height0, preds, k, wants);
    }

    static ghost predicate MovedAsWished(height0: map<Node, nat>, height1: map<Node, nat>, node: Node, levels: nat, want: Want) {
      node in height0 && node in height1 && height1[node] == Moved(height0[node], levels, want)
    }

    /** The head grows, if it does, to what one of the first `n` wishes names. */
    static ghost predicate GrownAsWished(levels0: nat, levels1: nat, wants: Wants, n: nat) {
      levels1 == levels0 || (levels0 < levels1 < MAX_HEIGHT && exists i: nat :: i < n && wants(i).up && wants(i).target == levels1)
    }

    method RebalanceMatch(node: Node, preds: seq<Node>, ghost k: nat, want: Want)
      requires Shaped(next, nodes, height, headHeight) && |preds| == headHeight && Recorded(height, preds, k)
      requires k < |nodes| && node == nodes[k] && forall p <- preds :: p == HEAD || p in nodes
      modifies this`next, this`height, this`headHeight
      ensures Shaped(next, nodes, height, headHeight) && headHeight >= old(headHeight)
      ensures PathHolds(old(height), preds, k, 0) && KeptHigh(old(height), height, preds)
      ensures MovedAsWished(old(height), height, node, |preds|, want)
      ensures headHeight == old(headHeight) || (want.up && old(headHeight) < headHeight == want.target < MAX_HEIGHT)
    {
      ghost var height0 := height;
      assert nodes[k] in nodes && Fits(height, headHeight, nodes[k]);
      NotAmong(nodes, k);
      Adjust(node, k, preds, want);
      MatchVisited(height0, preds, k);
    }

    /** The predecessors come next; none of them stands at the `k`-th place or
        behind it. */
    method RebalancePath(ghost height0: map<Node, nat>, preds: seq<Node>, ghost k: nat, wants: Wants)
      requires Shaped(next, nodes, height, headHeight) && |preds| <= headHeight && Recorded(height0, preds, k)
      requires PathHolds(height0, preds, k, 0) && KeptHigh(height0, height, preds) && forall p <- preds :: p == HEAD || p in nodes
      modifies this`next, this`height, this`headHeight
      ensures Shaped(next, nodes, height, headHeight) && headHeight >= old(headHeight)
      ensures KeptHigh(height0, height, preds)
      ensures forall levels: nat | GrownAsWished(levels, old(headHeight), wants, 1) :: GrownAsWished(levels, headHeight, wants, |preds| + 1)
      ensures k < |nodes| && nodes[k] in old(height) ==> SameHeight(old(height), height, nodes[k])
    {
      ghost var cut := k;
      var l := 0;
      while l < |preds|
        invariant 0 <= l <= |preds| <= headHeight && headHeight >= old(headHeight)
        invariant Shaped(next, nodes, height, headHeight) && Recorded(height0, preds, k) && PathHolds(height0, preds, cut, l)
        invariant KeptHigh(height0, height, preds)
        invariant forall levels: nat | GrownAsWished(levels, old(headHeight), wants, 1) :: GrownAsWished(levels, headHeight, wants, l + 1)
        invariant k < |nodes| && nodes[k] in old(height) ==> SameHeight(old(height), height, nodes[k])
      {
        if preds[l] != HEAD {
          ghost var pos := NextOnPath(height0, preds, k, cut, l);
          ghost var height1 := height;
          Adjust(preds[l], pos, preds, wants(l + 1));
          StaysHigh(height0, height1, preds, k, pos, l);
          AfterVisit(height0, height1, preds, k, pos, l);
          StillMatch(height1, pos, k);
          cut := pos;
        }
        l := l + 1;
      }
    }

    lemma StillMatch(height1: map<Node, nat>, pos: nat, k: nat)
      requires Distinct(nodes) && pos < |nodes| && pos < k && nodes[pos] in height && height == height1[nodes[pos] := height[nodes[pos]]]
      ensures k < |nodes| && nodes[k] in height1 ==> SameHeight(height1, height, nodes[k])
    {
      if k < |nodes| {
        Apart(nodes, pos, k);
      }
    }

    method Adjust(node: Node, ghost pos: nat, preds: seq<Node>, want: Want)
      requires Shaped(next, nodes, height, headHeight) && pos < |nodes| && nodes[pos] == node && |preds| <= headHeight
      requires forall p <- preds :: p == HEAD || p in nodes
      requires node in height && forall l :: height[node] < l < |preds| ==> preds[l] == LastOf(Tower(nodes[..pos], height, l))
      modifies this`next, this`height, this`headHeight
      ensures Shaped(next, nodes, height, headHeight) && headHeight >= old(headHeight)
      ensures node in height && height == old(height)[node := height[node]]
      ensures height[node] <= old(height)[node] + 1 && old(height)[node] <= height[node] + 1
      ensures old(height)[node] < |preds| && preds[old(height)[node]] == node ==> height[node] >= old(height)[node]
      ensures old(height)[node] < |preds| ==> preds[old(height)[node]] == LastOf(Tower(nodes[..pos], old(height), old(height)[node])) ==>
              height[node] == Moved(old(height)[node], |preds|, want)
      ensures headHeight == old(headHeight) || (want.up && old(headHeight) < headHeight == want.target < MAX_HEIGHT)
      ensures !want.down && want.up ==> headHeight == Grown(old(height)[node], old(headHeight), want.target)
    {
      assert node in nodes && CleanAt(next, height, node);
      if next[node][0].marked {
        return;
      }
      if want.down {
        Demote(node, pos, preds);
      }
      if want.up {
        Promote(node, pos, preds, want.target);
      }
    }

    /** A predecessor's recorded predecessor at its own top level is itself: the
        splice that would demote it has nothing to splice, so by the contract
        of `Demote` only the matched node ever moves down in a rebalance. */
    lemma PredecessorsStayUp(preds: seq<Node>, k: nat, i: nat)
      requires Shaped(next, nodes, height, headHeight) && Recorded(height, preds, k) && i < |preds| && preds[i] != HEAD
      ensures preds[i] in height && height[preds[i]] < |preds| && preds[height[preds[i]]] == preds[i]
    {
      PathStarts(preds, k);
      var pos := NextOnPath(height, preds, k, k, i);
      assert nodes[pos] in nodes && Fits(height, |preds|, preds[i]);
      PathBelow(nodes, height, k, i, pos, height[preds[i]]);
    }

    /** A match has moved as its hit counts say; without one no node has moved. */
    static ghost predicate Splayed(nodes: seq<Node>, key: map<Node, int>, height0: map<Node, nat>, height1: map<Node, nat>, levels0: nat,
                                   levels1: nat, q: int, wants: Wants)
      requires forall x <- nodes :: x in key
    {
      var k := Below(nodes, key, q);
      if k < |nodes| && key[nodes[k]] == q then
        MovedAsWished(height0, height1, nodes[k], levels0, wants(0)) && GrownAsWished(levels0, levels1, wants, levels0 + 1)
      else height1 == height0 && levels1 == levels0
    }

    /** A read that also splays: the full search, and a rebalance on a match. */
    method LocateWithSplay(q: int, wants: Wants) returns (pred: Node, found: Found)
      requires Valid()
      modifies this`next, this`height, this`headHeight
      ensures Valid() && Items() == old(Items())
      ensures Splayed(nodes, key, old(height), height, old(headHeight), headHeight, q, wants)
      ensures var k := Below(nodes, key, q);
              && pred == LastOf(nodes[..k])
              && found == if k < |nodes| && key[nodes[k]] == q then Just(nodes[k]) else Nothing
    {
      var preds, succs, match0 := Locate(q);
      FirstNotBelow(nodes, key, height, headHeight, q, preds[0], succs[0]);
      PathsFound(q, preds, succs);
      pred, found := preds[0], match0;
      if found.Just? {
        Rebalance(found, preds, Below(nodes, key, q), wants);
      }
    }

    // ----------------------------------------------------------------
    // The key/value interface
    // ----------------------------------------------------------------

    /** Stores a pair in a newly allocated node `n`, which is freed again if the
        key is there and duplicates are not wanted. */
    method Put(n: Node, k: int, v: int, h: nat, duplicates: bool, wants: Wants) returns (rc: Outcome)
      requires Valid() && n != HEAD && n != TAIL && n !in nodes
      requires h <= headHeight && h <= MAX_HEIGHT - 2
      modifies this
      ensures Valid()
      ensures rc == if Holds(old(Items()), k) && !duplicates then Exists else Ok
      ensures Items() == if rc == Ok then OrderedItems.Put(old(Items()), k, v) else old(Items())
      ensures hasDups == (old(hasDups) || (Holds(old(Items()), k) && duplicates))
      ensures forall x <- nodes :: x in old(nodes) || x == n
    {
      Unlisted(nodes, key, val, n, k, v);
      ItemsRank(nodes, key, val, k);
      key, val := key[n := k], val[n := v];
      ItemsRank(nodes, key, val, k);
      rc := Insert(n, h, duplicates, wants);
      if rc == Ok {
        ItemsInserted(old(nodes), key, val, Below(old(nodes), key, k), n);
        InsertedWithin(old(nodes), Below(old(nodes), key, k), n, set x | x in old(nodes) + [n]);
      }
    }

    method SetValue(k: int, v: int, due: bool, wants: Wants) returns (rc: Outcome)
      requires Valid()
      modifies this`val, this`next, this`height, this`headHeight
      ensures Valid() && rc == if Holds(old(Items()), k) then Ok else NotFound
      ensures Items() == OrderedItems.SetValue(old(Items()), k, v)
    {
      ItemsRank(nodes, key, val, k);
      ghost var i := Below(nodes, key, k);
      if i < |nodes| {
        assert nodes[i] in nodes;
        ItemsUpdated(nodes, key, val, i, v);
      }
      rc := Update(k, v, due, wants);
    }

    method Del(k: int) returns (rc: Outcome)
      requires Valid()
      modifies this`next, this`prev, this`headHeight, this`length, this`nodes
      ensures Valid() && rc == if Holds(old(Items()), k) then Ok else NotFound
      ensures Items() == OrderedItems.Del(old(Items()), k)
      ensures forall x <- nodes :: x in old(nodes)
    {
      rc := Remove(k);
      ItemsAfterRemove(old(nodes), nodes, key, val, k, rc);
    }

    method Get(k: int, due: bool, wants: Wants) returns (present: bool, v: int)
      requires Valid()
      modifies this`next, this`height, this`headHeight
      ensures Valid() && Items() == old(Items())
      ensures present == Holds(Items(), k)
      ensures present ==> v == Items()[Rank(Items(), k)].val
    {
      ItemsRank(nodes, key, val, k);
      var found := LookupWithSplay(k, due, wants);
      present, v := found.Just?, 0;
      if found.Just? {
        assert found.node in nodes;
        v := val[found.node];
      }
    }
  }
}
