/**
  Where a search for a key goes: its path down the levels.
 */
module Searching {
  import opened LevelChain
  import opened Towers

  /** Where the walk of level `l` for key `q` ends: between the nodes with
      smaller keys and the rest. */
  ghost predicate IsPath(nodes: seq<Node>, key: map<Node, int>, height: map<Node, nat>, q: int, l: nat, pred: Node, succ: Node)
    requires forall x <- nodes :: x in key
  {
    AtLevel(nodes, height, Below(nodes, key, q), l, pred, succ)
  }

  /** A node met on a level above, or the head, stands on this level's chain no
      later than the end of the smaller keys. */
  lemma OnChain(nodes: seq<Node>, height: map<Node, nat>, k: nat, l: nat, pred: Node) returns (j: nat)
    requires k <= |nodes|
    requires pred == HEAD || (pred in nodes[..k] && pred in height && height[pred] >= l)
    ensures j <= |Tower(nodes[..k], height, l)| <= |Tower(nodes, height, l)|
    ensures Chain(Tower(nodes, height, l))[j] == pred
  {
    TowerSplits(nodes, height, k, l);
    var a := Tower(nodes[..k], height, l);
    if pred == HEAD {
      j := 0;
    } else {
      TowerMembers(nodes[..k], height, l, pred);
      var i :| 0 <= i < |a| && a[i] == pred;
      j := i + 1;
    }
  }

  /** One step to the right on level `l`, for a search of key `q`. */
  lemma StepRight(next: map<Node, Slots>, nodes: seq<Node>, key: map<Node, int>, height: map<Node, nat>, q: int, l: nat, j: nat)
    requires Ascending(nodes, key) && l < MAX_HEIGHT && Threads(next, l, Tower(nodes, height, l))
    requires j <= |Tower(nodes[..Below(nodes, key, q)], height, l)|
    ensures var k := Below(nodes, key, q);
            var a := Tower(nodes[..k], height, l);
            var c := Chain(Tower(nodes, height, l));
            && |a| <= |Tower(nodes, height, l)|
            && c[j] in next && c[j + 1] == next[c[j]][l].ptr
            && (j < |a| ==> c[j + 1] in nodes[..k] && c[j + 1] in height && height[c[j + 1]] >= l && key[c[j + 1]] < q)
            && (j == |a| ==> IsPath(nodes, key, height, q, l, c[j], c[j + 1])
                             && (c[j + 1] != TAIL ==> c[j + 1] in nodes[k..] && c[j + 1] in height && height[c[j + 1]] >= l
                                                      && key[c[j + 1]] >= q))
  {
    var k := Below(nodes, key, q);
    var a, b := Tower(nodes[..k], height, l), Tower(nodes[k..], height, l);
    TowerSplits(nodes, height, k, l);
    BelowSplits(nodes, key, q);
    var c := Chain(Tower(nodes, height, l));
    assert Leads(next, l, Tower(nodes, height, l), j);
    if j < |a| {
      assert c[j + 1] == a[j];
      TowerMembers(nodes[..k], height, l, a[j]);
    } else {
      assert c[j] == LastOf(a) && c[j + 1] == FirstOf(b);
      if b != [] {
        TowerMembers(nodes[k..], height, l, b[0]);
      }
    }
  }

  lemma BottomPath(nodes: seq<Node>, height: map<Node, nat>, levels: nat, k: nat, pred: Node, succ: Node)
    requires k <= |nodes| && AllFit(nodes, height, levels) && AtLevel(nodes, height, k, 0, pred, succ)
    ensures pred == LastOf(nodes[..k]) && succ == FirstOf(nodes[k..])
  {
    TowerZero(nodes[..k], height, levels);
    TowerZero(nodes[k..], height, levels);
  }

  lemma FirstNotBelow(nodes: seq<Node>, key: map<Node, int>, height: map<Node, nat>, levels: nat, q: int, pred: Node, curr: Node)
    requires Within(nodes, key.Keys) && AllFit(nodes, height, levels) && IsPath(nodes, key, height, q, 0, pred, curr)
    ensures var k := Below(nodes, key, q);
            && pred == LastOf(nodes[..k]) && curr == FirstOf(nodes[k..])
            && (k < |nodes| ==> curr == nodes[k] && nodes[k] in nodes)
  {
    var k := Below(nodes, key, q);
    BottomPath(nodes, height, levels, k, pred, curr);
    assert k < |nodes| ==> nodes[k] in nodes;
  }

  // ------------------------------------------------------------------
  // Paths that may be out of date
  // ------------------------------------------------------------------

  /** Neighbours recorded for the `k`-th place on level `l`, perhaps some time
      ago: the predecessor is on the level and before that place, the successor
      is not before it. */
  ghost predicate Sound(nodes: seq<Node>, height: map<Node, nat>, k: nat, l: nat, pred: Node, succ: Node)
    requires k <= |nodes|
  {
    && (pred == HEAD || (pred in nodes[..k] && Reaches(height, pred, l)))
    && (succ == TAIL || succ in nodes[k..])
  }

  ghost predicate SoundFrom(nodes: seq<Node>, height: map<Node, nat>, k: nat, preds: seq<Node>, succs: seq<Node>, i: nat)
    requires k <= |nodes| && |preds| == |succs|
  {
    forall l :: i <= l < |preds| ==> Sound(nodes, height, k, l, preds[l], succs[l])
  }

  lemma ExactIsSound(nodes: seq<Node>, height: map<Node, nat>, k: nat, l: nat, pred: Node, succ: Node)
    requires k <= |nodes| && AtLevel(nodes, height, k, l, pred, succ)
    ensures Sound(nodes, height, k, l, pred, succ)
  {
    TowerMembers(nodes[..k], height, l, pred);
    TowerMembers(nodes[k..], height, l, succ);
  }

  /** Told with the height of a node that is not listed yet. */
  lemma SoundAfter(nodes: seq<Node>, height: map<Node, nat>, k: nat, n: Node, h: nat, preds: seq<Node>, succs: seq<Node>)
    requires k <= |nodes| && n !in nodes && |preds| == |succs| && SoundFrom(nodes, height, k, preds, succs, 0)
    ensures SoundFrom(nodes, height[n := h], k, preds, succs, 0)
    ensures SoundFrom(nodes, height[n := h], k, preds + [HEAD], succs + [TAIL], 0)
  {
    var height', preds', succs' := height[n := h], preds + [HEAD], succs + [TAIL];
    forall l | 0 <= l < |preds'|
      ensures Sound(nodes, height', k, l, preds'[l], succs'[l])
    {
      if l < |preds| {
        assert Sound(nodes, height, k, l, preds[l], succs[l]);
        assert n !in nodes[..k];
      }
    }
    forall l | 0 <= l < |preds|
      ensures Sound(nodes, height', k, l, preds[l], succs[l])
    {
      assert Sound(nodes, height', k, l, preds'[l], succs'[l]);
    }
  }

  /** A node that is not the last one before the place leads to one that is
      before it, too. */
  lemma NotTheLast(nodes: seq<Node>, height: map<Node, nat>, k: nat, l: nat, j: nat)
    requires k <= |nodes| && Distinct(nodes) && Interior(nodes)
    requires Distinct(Tower(nodes[..k], height, l) + Tower(nodes[k..], height, l))
    requires Interior(Tower(nodes[..k], height, l) + Tower(nodes[k..], height, l))
    requires j < |Tower(nodes[..k], height, l)|
    ensures var a, c := Tower(nodes[..k], height, l), Chain(Tower(nodes[..k], height, l) + Tower(nodes[k..], height, l));
            c[j + 1] in nodes[..k] && c[j + 1] !in nodes[k..] && c[j + 1] != TAIL && c[j] != LastOf(a)
  {
    var a, b := Tower(nodes[..k], height, l), Tower(nodes[k..], height, l);
    assert Chain(a + b)[j + 1] == a[j] && a[j] in a + b;
    TowerMembers(nodes[..k], height, l, a[j]);
    BeforeAndAfter(nodes, k, a[j]);
    ChainDistinct(a + b, j, |a|);
  }

  /** A compare-and-swap on sound neighbours succeeds exactly if they are still
      each other's neighbours at that place. */
  lemma SwingFitsIff(next: map<Node, Slots>, nodes: seq<Node>, height: map<Node, nat>, k: nat, l: nat, pred: Node, succ: Node)
    requires k <= |nodes| && Distinct(nodes) && Interior(nodes)
    requires l < MAX_HEIGHT && Threads(next, l, Tower(nodes, height, l)) && Sound(nodes, height, k, l, pred, succ)
    ensures pred in next && (next[pred][l].ptr == succ <==> AtLevel(nodes, height, k, l, pred, succ))
  {
    var a, b := Tower(nodes[..k], height, l), Tower(nodes[k..], height, l);
    TowerSplits(nodes, height, k, l);
    TowerDistinct(nodes, height, l);
    var j := OnChain(nodes, height, k, l, pred);
    assert Leads(next, l, a + b, j) && Leads(next, l, a + b, |a|);
    var c := Chain(a + b);
    assert c[|a|] == LastOf(a) && c[|a| + 1] == FirstOf(b);
    if j < |a| {
      NotTheLast(nodes, height, k, l, j);
    }
  }

  lemma BeforeAndAfter(nodes: seq<Node>, k: nat, x: Node)
    requires Distinct(nodes) && Interior(nodes) && k <= |nodes| && x in nodes[..k]
    ensures x !in nodes[k..] && x != TAIL
  {
    var i :| 0 <= i < k && nodes[i] == x;
    assert x in nodes;
    forall j | k <= j < |nodes|
      ensures nodes[j] != x
    {
      Apart(nodes, i, j);
    }
  }

  /** The predecessor a search for the `k`-th place found on level `i` is the
      last of the first `k` nodes on every higher level it reaches. */
  lemma PathBelow(nodes: seq<Node>, height: map<Node, nat>, k: nat, i: nat, pos: nat, l: nat)
    requires k <= |nodes| && Distinct(nodes) && pos < |nodes| && i <= l && nodes[pos] != HEAD
    requires nodes[pos] == LastOf(Tower(nodes[..k], height, i))
    ensures pos < k && Reaches(height, nodes[pos], i)
    ensures Tower(nodes[..k], height, l) == Tower(nodes[..pos], height, l) + if Reaches(height, nodes[pos], l) then [nodes[pos]] else []
  {
    PathWithin(nodes, height, k, i, pos);
    LastReaches(nodes, height, k, i, pos);
    var c := nodes[..k];
    assert c[..pos] == nodes[..pos];
    TowerAround(c, height, pos, l);
    EmptyHigher(c[pos + 1..], height, i, l);
    assert Tower(nodes[..pos], height, l) + [] + [] == Tower(nodes[..pos], height, l) + [];
  }

  lemma PathWithin(nodes: seq<Node>, height: map<Node, nat>, k: nat, i: nat, pos: nat)
    requires k <= |nodes| && Distinct(nodes) && pos < |nodes| && nodes[pos] != HEAD
    requires nodes[pos] == LastOf(Tower(nodes[..k], height, i))
    ensures pos < k && Reaches(height, nodes[pos], i)
  {
    TowerMembers(nodes[..k], height, i, nodes[pos]);
    var j :| 0 <= j < k && nodes[j] == nodes[pos];
    Once(nodes, pos);
  }

  lemma LastReaches(nodes: seq<Node>, height: map<Node, nat>, k: nat, i: nat, pos: nat)
    requires pos < k <= |nodes| && Distinct(nodes) && Reaches(height, nodes[pos], i)
    requires nodes[pos] == LastOf(Tower(nodes[..k], height, i))
    ensures Tower(nodes[..k][pos + 1..], height, i) == []
  {
    var c, p := nodes[..k], nodes[pos];
    var t := Tower(c[pos + 1..], height, i);
    TowerAround(c, height, pos, i);
    NotAmong(nodes, pos);
    assert c[pos + 1..] == nodes[pos + 1..][..k - pos - 1];
    TowerMembers(c[pos + 1..], height, i, p);
  }

  lemma EmptyHigher(nodes: seq<Node>, height: map<Node, nat>, i: nat, l: nat)
    requires Tower(nodes, height, i) == [] && i <= l
    ensures Tower(nodes, height, l) == []
  {
    var t := Tower(nodes, height, l);
    if t != [] {
      TowerMembers(nodes, height, l, t[0]);
      TowerMembers(nodes, height, i, t[0]);
    }
  }
}
