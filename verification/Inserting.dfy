/**
  A node half linked: what a search sees that runs while an insert is under
  way, and what the insert may do with its own slots.
 */
module Inserting {
  import opened LevelChain
  import opened Towers
  import opened Searching

  /** Linked below level `i`, the new node looks like a member that ends there. */
  lemma PartlyInserted(next: map<Node, Slots>, nodes: seq<Node>, height: map<Node, nat>, levels: nat, k: nat, n: Node, i: nat)
    requires k <= |nodes| && Distinct(nodes) && Interior(nodes) && n !in nodes && n != HEAD && n != TAIL
    requires 0 < i <= levels < MAX_HEIGHT && AllFit(nodes, height, levels)
    requires LinkedUpTo(next, nodes, height, k, n, i) && Clean(next, nodes, height)
    requires n in next && Plain(next[n], i)
    ensures Shaped(next, Inserted(nodes, k, n), height[n := i - 1], levels)
  {
    var nodes', height' := Inserted(nodes, k, n), height[n := i - 1];
    assert nodes == nodes[..k] + nodes[k..];
    ApartFrom(nodes[..k], n, nodes[k..]);
    InsertedFits(next, nodes, height, levels, k, n, i - 1);
    forall l | 0 <= l < MAX_HEIGHT
      ensures LevelThreads(next, nodes', height', l)
    {
      InsertedTower(nodes, height', k, n, l);
      TowerUntouched(nodes, height, n, i - 1, l);
      TowerUntouched(nodes[..k], height, n, i - 1, l);
      TowerUntouched(nodes[k..], height, n, i - 1, l);
      assert LinkedAt(next, nodes, height, k, n, i, l);
    }
  }

  lemma InsertedFits(next: map<Node, Slots>, nodes: seq<Node>, height: map<Node, nat>, levels: nat, k: nat, n: Node, h: nat)
    requires k <= |nodes| && h < levels && AllFit(nodes, height, levels) && Clean(next, nodes, height)
    requires n !in nodes && n in next && Plain(next[n], h)
    ensures AllFit(Inserted(nodes, k, n), height[n := h], levels) && Clean(next, Inserted(nodes, k, n), height[n := h])
  {
    assert nodes == nodes[..k] + nodes[k..];
    forall x | x in Inserted(nodes, k, n)
      ensures Fits(height[n := h], levels, x) && CleanAt(next, height[n := h], x)
    {
      assert x in nodes || x == n;
      assert x in nodes ==> Fits(height, levels, x) && CleanAt(next, height, x);
    }
  }

  /** Storing into the new node's slot of a level it is not linked at. */
  lemma SlotStored(next: map<Node, Slots>, nodes: seq<Node>, height: map<Node, nat>, k: nat, n: Node, i: nat, link: Link)
    requires k <= |nodes| && n !in nodes && n != HEAD && i < MAX_HEIGHT && n in next
    requires LinkedUpTo(next, nodes, height, k, n, i) && Clean(next, nodes, height)
    ensures var next' := next[n := next[n][i := link]];
            LinkedUpTo(next', nodes, height, k, n, i) && Clean(next', nodes, height)
  {
    var next' := next[n := next[n][i := link]];
    forall l | 0 <= l < MAX_HEIGHT
      ensures LinkedAt(next', nodes, height, k, n, i, l)
    {
      assert LinkedAt(next, nodes, height, k, n, i, l);
      if l != i {
        ThreadsFrame(next, next', l, if l < i then Spliced(nodes, height, k, n, l) else Tower(nodes, height, l));
      } else {
        var c := Tower(nodes, height, i);
        TowerMembers(nodes, height, i, n);
        forall j | 0 <= j <= |c|
          ensures Leads(next', i, c, j)
        {
          assert Leads(next, i, c, j);
          assert Chain(c)[j] == HEAD || (Chain(c)[j] == c[j - 1] && c[j - 1] in c);
        }
      }
    }
    forall x | x in nodes
      ensures CleanAt(next', height, x)
    {
      assert CleanAt(next, height, x);
    }
  }

  /** The new node's key has its place where the new node is. */
  lemma PlaceOfInserted(nodes: seq<Node>, key: map<Node, int>, k: nat, n: Node)
    requires Ascending(nodes, key) && n in key && k == Below(nodes, key, key[n])
    ensures Ascending(Inserted(nodes, k, n), key) && Below(Inserted(nodes, k, n), key, key[n]) == k
  {
    InsertedWithin(nodes, k, n, key.Keys);
    AscendingAround(nodes, k, n, key);
    BelowIs(Inserted(nodes, k, n), key, key[n], k);
  }

  lemma TowersBeside(nodes: seq<Node>, height: map<Node, nat>, k: nat, n: Node, h: nat, l: nat)
    requires k <= |nodes| && n !in nodes
    ensures Tower(Inserted(nodes, k, n)[..k], height[n := h], l) == Tower(nodes[..k], height, l)
    ensures h < l ==> Tower(Inserted(nodes, k, n)[k..], height[n := h], l) == Tower(nodes[k..], height, l)
  {
    var height' := height[n := h];
    assert Inserted(nodes, k, n)[..k] == nodes[..k] && Inserted(nodes, k, n)[k..] == [n] + nodes[k..];
    TowerUntouched(nodes[..k], height, n, h, l);
    TowerUntouched(nodes[k..], height, n, h, l);
    if h < l {
      assert ([n] + nodes[k..])[1..] == nodes[k..];
      assert [] + Tower(nodes[k..], height', l) == Tower(nodes[k..], height', l);
    }
  }

  /** On the levels from `i` up, a search that runs when the node is linked
      below `i` finds what a search without the node would. */
  lemma FoundAfresh(nodes: seq<Node>, key: map<Node, int>, height: map<Node, nat>, k: nat, n: Node, i: nat, l: nat, pred: Node, succ: Node)
    requires Ascending(nodes, key) && n in key && k == Below(nodes, key, key[n]) && n !in nodes && 0 < i
    requires Ascending(Inserted(nodes, k, n), key)
    requires IsPath(Inserted(nodes, k, n), key, height[n := i - 1], key[n], l, pred, succ)
    ensures l >= i ==> AtLevel(nodes, height, k, l, pred, succ)
    ensures pred == LastOf(Tower(nodes[..k], height, l))
  {
    PlaceOfInserted(nodes, key, k, n);
    TowersBeside(nodes, height, k, n, i - 1, l);
  }
}
