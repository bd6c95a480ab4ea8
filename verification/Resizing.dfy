/**
  Moving one node up or down a level.
 */
module Resizing {
  import opened LevelChain
  import opened Towers

  /** What the hit counts ask for one node: down a level, up a level, and the
      height the head may grow to. */
  datatype Want = Want(down: bool, up: bool, target: nat)

  /** Where a wish takes a node of height `h` when the search recorded `levels`
      levels: the top level it can leave is among those, and so is the one it
      can be linked into. */
  function Moved(h: nat, levels: nat, want: Want): nat {
    var h1 := if want.down && 0 < h < levels then h - 1 else h;
    if want.up && h1 + 1 < levels then h1 + 1 else h1
  }

  /** The head's height after a promotion of a node of height `h`: it grows for a
      node on the top level, if the hits justify more levels than there are. */
  function Grown(h: nat, levels: nat, target: nat): nat {
    if h + 1 == levels && levels < target < MAX_HEIGHT then target else levels
  }

  /** A node's height moves by one: only the level in question gains or loses it. */
  lemma HeightMoves(nodes: seq<Node>, height: map<Node, nat>, n: Node, h: nat, l: nat)
    requires n in height && (height[n] >= l <==> h >= l)
    ensures Tower(nodes, height[n := h], l) == Tower(nodes, height, l)
  {
    TowerFrame(nodes, height, height[n := h], l);
  }

  lemma FitsStill(nodes: seq<Node>, height: map<Node, nat>, n: Node, h: nat, levels: nat)
    requires AllFit(nodes, height, levels) && h < levels
    ensures AllFit(nodes, height[n := h], levels)
  {
    forall x | x in nodes
      ensures Fits(height[n := h], levels, x)
    {
      assert Fits(height, levels, x);
    }
  }

  /** All other levels stay as they are, and so do the marks. */
  lemma OtherLevels(next: map<Node, Slots>, next': map<Node, Slots>, nodes: seq<Node>, height: map<Node, nat>, levels: nat,
                    n: Node, h: nat, level: nat)
    requires Shaped(next, nodes, height, levels) && n in nodes && n in height && h < levels && level < MAX_HEIGHT
    requires forall l :: 0 <= l < MAX_HEIGHT && l != level ==> (height[n] >= l <==> h >= l) && SameSlots(next, next', l, {})
    requires forall x <- next.Keys :: x in next' && (forall l :: 0 <= l < MAX_HEIGHT && next'[x][l].marked ==> next[x][l].marked)
    requires h > height[n] ==> h == height[n] + 1 == level && n in next' && !next'[n][level].marked
    requires LevelThreads(next', nodes, height[n := h], level)
    ensures Shaped(next', nodes, height[n := h], levels)
  {
    var height' := height[n := h];
    forall l | 0 <= l < MAX_HEIGHT
      ensures LevelThreads(next', nodes, height', l)
    {
      if l != level {
        assert LevelThreads(next, nodes, height, l) && SameSlots(next, next', l, {});
        HeightMoves(nodes, height, n, h, l);
        ThreadsFrame(next, next', l, Tower(nodes, height, l));
      }
    }
    FitsStill(nodes, height, n, h, levels);
    forall x | x in nodes
      ensures CleanAt(next', height', x)
    {
      assert CleanAt(next, height, x);
    }
  }

  lemma TowerRaised(nodes: seq<Node>, height: map<Node, nat>, pos: nat, h: nat)
    requires Distinct(nodes) && Interior(nodes) && pos < |nodes| && nodes[pos] in height && height[nodes[pos]] < h
    ensures var n, a, b := nodes[pos], Tower(nodes[..pos], height, h), Tower(nodes[pos + 1..], height, h);
            && Tower(nodes, height, h) == a + b && Tower(nodes, height[n := h], h) == a + [n] + b
            && n !in a + b && n != HEAD && n != TAIL
  {
    var n := nodes[pos];
    var a, b := Tower(nodes[..pos], height, h), Tower(nodes[pos + 1..], height, h);
    TowerAround(nodes, height, pos, h);
    assert n in nodes && a + [] + b == a + b;
    TowerMembers(nodes, height, h, n);
    NotAmong(nodes, pos);
    TowerAround(nodes, height[n := h], pos, h);
    TowerUntouched(nodes[..pos], height, n, h, h);
    TowerUntouched(nodes[pos + 1..], height, n, h, h);
  }

  lemma LinkBetween(next: map<Node, Slots>, l: nat, a: seq<Node>, n: Node, b: seq<Node>) returns (next': map<Node, Slots>)
    requires l < MAX_HEIGHT && Threads(next, l, a + b) && Distinct(a + b) && Interior(a + b)
    requires n !in a + b && n != HEAD && n != TAIL && n in next
    ensures var p := LastOf(a);
            && p in next && p != n
            && next' == next[n := next[n][l := Link(next[p][l].ptr, false)]][p := next[p][l := Link(n, false)]]
    ensures Threads(next', l, a + [n] + b)
  {
    var p := LastOf(a);
    Facing(next, l, a, b);
    assert a != [] ==> a[|a| - 1] in a + b;
    next' := next[n := next[n][l := Link(next[p][l].ptr, false)]][p := next[p][l := Link(n, false)]];
    ApartFrom(a, n, b);
    ThreadsInsert(next, next', l, a, n, b);
  }

  lemma PromotedLevel(next: map<Node, Slots>, nodes: seq<Node>, height: map<Node, nat>, pos: nat, h: nat, pred: Node)
      returns (next': map<Node, Slots>)
    requires Distinct(nodes) && Interior(nodes) && pos < |nodes| && h < MAX_HEIGHT && LevelThreads(next, nodes, height, h)
    requires nodes[pos] in next && nodes[pos] in height && height[nodes[pos]] < h && pred == LastOf(Tower(nodes[..pos], height, h))
    ensures var n := nodes[pos];
            && pred in next && pred != n
            && next' == next[n := next[n][h := Link(next[pred][h].ptr, false)]][pred := next[pred][h := Link(n, false)]]
            && LevelThreads(next', nodes, height[n := h], h)
  {
    var n := nodes[pos];
    TowerRaised(nodes, height, pos, h);
    TowerDistinct(nodes, height, h);
    next' := LinkBetween(next, h, Tower(nodes[..pos], height, h), n, Tower(nodes[pos + 1..], height, h));
  }

  lemma PromotedShape(next: map<Node, Slots>, nodes: seq<Node>, height: map<Node, nat>, levels: nat, pos: nat, pred: Node)
      returns (next': map<Node, Slots>)
    requires Shaped(next, nodes, height, levels) && pos < |nodes| && nodes[pos] in height && height[nodes[pos]] + 1 < levels
    requires pred == LastOf(Tower(nodes[..pos], height, height[nodes[pos]] + 1))
    ensures var n, h := nodes[pos], height[nodes[pos]] + 1;
            && pred in next && n in next && pred != n && !next[pred][h].marked
            && next' == next[n := next[n][h := Link(next[pred][h].ptr, false)]][pred := next[pred][h := Link(n, false)]]
            && Shaped(next', nodes, height[n := h], levels)
  {
    var n, h := nodes[pos], height[nodes[pos]] + 1;
    assert n in nodes && CleanAt(next, height, n) && LevelThreads(next, nodes, height, h);
    next' := PromotedLevel(next, nodes, height, pos, h, pred);
    TowerMembers(nodes[..pos], height, h, pred);
    assert pred != HEAD ==> CleanAt(next, height, pred);
    OtherLevels(next, next', nodes, height, levels, n, h, h);
  }

  /** Whoever leads to `n` at a level is its predecessor there. */
  lemma OnlyPredecessor(next: map<Node, Slots>, nodes: seq<Node>, height: map<Node, nat>, levels: nat, pos: nat, l: nat, pred: Node)
    requires Shaped(next, nodes, height, levels) && pos < |nodes| && l < MAX_HEIGHT
    requires pred == HEAD || (pred in nodes && Reaches(height, pred, l))
    ensures pred in next
    ensures next[pred][l].ptr == nodes[pos] ==> pred == LastOf(Tower(nodes[..pos], height, l)) && pred != nodes[pos]
                                                && Reaches(height, nodes[pos], l)
  {
    var n, c := nodes[pos], Tower(nodes, height, l);
    assert LevelThreads(next, nodes, height, l);
    if pred != HEAD {
      TowerMembers(nodes, height, l, pred);
    }
    var j := Position(c, pred);
    assert Leads(next, l, c, j);
    if next[pred][l].ptr == n {
      TowerDistinct(nodes, height, l);
      TowerAround(nodes, height, pos, l);
      assert n in nodes;
      var a := Tower(nodes[..pos], height, l);
      assert j < |c| && c[j] == n;
      assert n in c;
      TowerMembers(nodes, height, l, n);
      assert c[|a|] == n && Chain(c)[|a|] == LastOf(a);
      Once(c, j);
      ChainDistinct(c, j, j + 1);
    }
  }

  /** And the predecessor there does lead to it. */
  lemma PredecessorLeads(next: map<Node, Slots>, nodes: seq<Node>, height: map<Node, nat>, levels: nat, pos: nat, l: nat)
    requires Shaped(next, nodes, height, levels) && pos < |nodes| && l < MAX_HEIGHT
    ensures var pred := LastOf(Tower(nodes[..pos], height, l));
            && (pred == HEAD || Reaches(height, pred, l))
            && (Reaches(height, nodes[pos], l) ==> pred in next && next[pred][l] == Link(nodes[pos], false))
  {
    var a := Tower(nodes[..pos], height, l);
    var pred := LastOf(a);
    if a != [] {
      TowerMembers(nodes[..pos], height, l, pred);
      assert pred in a && pred in nodes && CleanAt(next, height, pred);
    }
    if Reaches(height, nodes[pos], l) {
      var c := Tower(nodes, height, l);
      TowerAround(nodes, height, pos, l);
      assert LevelThreads(next, nodes, height, l) && Leads(next, l, c, |a|);
      assert Chain(c)[|a|] == pred && Chain(c)[|a| + 1] == nodes[pos];
    }
  }

  lemma DemotedLevel(next: map<Node, Slots>, nodes: seq<Node>, height: map<Node, nat>, pos: nat, h: nat, pred: Node)
      returns (next': map<Node, Slots>)
    requires Distinct(nodes) && Interior(nodes) && pos < |nodes| && 0 < h < MAX_HEIGHT && LevelThreads(next, nodes, height, h)
    requires nodes[pos] in next && nodes[pos] in height && height[nodes[pos]] == h && pred == LastOf(Tower(nodes[..pos], height, h))
    ensures var n := nodes[pos];
            && pred in next && (pred == HEAD || (pred in nodes && Reaches(height, pred, h)))
            && next' == next[pred := next[pred][h := Link(next[n][h].ptr, false)]]
            && LevelThreads(next', nodes, height[n := h - 1], h)
  {
    var n := nodes[pos];
    var a, b := Tower(nodes[..pos], height, h), Tower(nodes[pos + 1..], height, h);
    TowerAround(nodes, height, pos, h);
    TowerMembers(nodes, height, h, pred);
    TowerDistinct(nodes, height, h);
    assert a + [n] + b == a + ([n] + b);
    assert a != [] ==> a[|a| - 1] in a + [n] + b;
    Facing(next, h, a, [n] + b);
    next' := next[pred := next[pred][h := Link(next[n][h].ptr, false)]];
    ThreadsRemove(next, next', h, a, n, b);
    TowerLowered(nodes, height, pos, h);
  }

  lemma TowerLowered(nodes: seq<Node>, height: map<Node, nat>, pos: nat, h: nat)
    requires Distinct(nodes) && pos < |nodes| && 0 < h
    ensures Tower(nodes, height[nodes[pos] := h - 1], h) == Tower(nodes[..pos], height, h) + Tower(nodes[pos + 1..], height, h)
  {
    var n := nodes[pos];
    var a, b := Tower(nodes[..pos], height, h), Tower(nodes[pos + 1..], height, h);
    NotAmong(nodes, pos);
    TowerAround(nodes, height[n := h - 1], pos, h);
    TowerUntouched(nodes[..pos], height, n, h - 1, h);
    TowerUntouched(nodes[pos + 1..], height, n, h - 1, h);
    assert a + [] + b == a + b;
  }

  lemma DemotedShape(next: map<Node, Slots>, nodes: seq<Node>, height: map<Node, nat>, levels: nat, pos: nat, pred: Node)
      returns (next': map<Node, Slots>)
    requires Shaped(next, nodes, height, levels) && pos < |nodes| && nodes[pos] in height && height[nodes[pos]] > 0
    requires height[nodes[pos]] < MAX_HEIGHT && pred == LastOf(Tower(nodes[..pos], height, height[nodes[pos]]))
    ensures var n, h := nodes[pos], height[nodes[pos]];
            && pred in next && n in next
            && next' == next[pred := next[pred][h := Link(next[n][h].ptr, false)]]
            && Shaped(next', nodes, height[n := h - 1], levels)
  {
    var n, h := nodes[pos], height[nodes[pos]];
    assert n in nodes && CleanAt(next, height, n) && Fits(height, levels, n) && LevelThreads(next, nodes, height, h);
    next' := DemotedLevel(next, nodes, height, pos, h, pred);
    OtherLevels(next, next', nodes, height, levels, n, h - 1, h);
  }
}
