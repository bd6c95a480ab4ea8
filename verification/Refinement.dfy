/**
  The stateful property test: the skip list and the sorted array run side by
  side over any sequence of calls, and never disagree.
 */
module Refinement {
  import opened LevelChain
  import opened OrderedItems
  import opened SkipList
  import opened SortedArray

  /** `due` says whether the read runs into a rebalance, `wants` what the hit
      counts ask for then. */
  datatype Op =
    | PutOp(key: int, val: int, toss: nat, wants: Wants)
    | DelOp(key: int)
    | SetOp(key: int, val: int, due: bool, wants: Wants)
    | AskOp(key: int, due: bool, wants: Wants)

  /** The walk that compares the list with the model, item by item. */
  method ListMatchesModel(list: List, m: Model) returns (same: bool)
    requires list.Valid() && m.Valid()
    ensures same <==> list.Items() == m.Contents()
  {
    if list.length != m.len {
      return false;
    }
    ghost var items, contents := list.Items(), m.Contents();
    list.Successor(0);
    var seen, prevKey := 0, 0;
    var node := list.next[HEAD][0].ptr;
    while node != TAIL
      invariant seen <= |list.nodes| && node == Towers.FirstOf(list.nodes[seen..])
      invariant seen > 0 ==> prevKey == items[seen - 1].key
      invariant SameSoFar(items, contents, seen)
      decreases |list.nodes| - seen
    {
      assert seen < |list.nodes|;
      list.Successor(seen);
      if seen > 0 && !(prevKey < list.key[node]) {
        NotStrict(items, contents, seen);
        return false;
      }
      if list.key[node] != m.keys[seen] || list.val[node] != m.vals[seen] {
        assert contents[seen] != items[seen];
        return false;
      }
      prevKey := list.key[node];
      list.Successor(seen + 1);
      node := list.next[node][0].ptr;
      seen := seen + 1;
    }
    list.Successor(seen);
    return true;
  }

  ghost predicate SameSoFar(items: seq<Item>, contents: seq<Item>, n: nat) {
    n <= |items| && n <= |contents| && forall i :: 0 <= i < n ==> items[i] == contents[i]
  }

  lemma NotStrict(items: seq<Item>, contents: seq<Item>, i: nat)
    requires Unique(contents) && 0 < i < |items| && items[i - 1].key >= items[i].key
    ensures items != contents
  {
    if i < |contents| {
      assert NotAfter(contents, i - 1, i) && Unlike(contents, i - 1, i);
    }
  }

  /** A put on both sides; the return codes are compared as the test does. */
  method PutBoth(list: List, m: Model, k: int, v: int, toss: nat, wants: Wants, n: Node) returns (failed: bool)
    requires list.Valid() && m.Valid() && list.Items() == m.Contents() && !list.hasDups
    requires n != HEAD && n != TAIL && n !in list.nodes
    modifies list, m, m.keys, m.vals
    ensures !failed && list.Valid() && m.Valid() && list.Items() == m.Contents() && !list.hasDups
    ensures (m.keys == old(m.keys) || fresh(m.keys)) && (m.vals == old(m.vals) || fresh(m.vals))
    ensures forall x <- list.nodes :: x in old(list.nodes) || x == n
  {
    var most := if list.headHeight > MAX_HEIGHT - 2 then MAX_HEIGHT - 2 else list.headHeight;
    var rc := list.Put(n, k, v, if toss < most then toss else most, false, wants);
    var inserted := m.Insert(k, v);
    failed := inserted != (rc == Outcome.Ok);
  }

  method DelBoth(list: List, m: Model, k: int) returns (failed: bool)
    requires list.Valid() && m.Valid() && list.Items() == m.Contents() && !list.hasDups
    modifies list, m, m.keys, m.vals
    ensures !failed && list.Valid() && m.Valid() && list.Items() == m.Contents() && !list.hasDups
    ensures m.keys == old(m.keys) && m.vals == old(m.vals)
    ensures forall x <- list.nodes :: x in old(list.nodes)
  {
    var rc := list.Del(k);
    var removed := m.Remove(k);
    failed := removed != (rc == Outcome.Ok);
  }

  method SetBoth(list: List, m: Model, k: int, v: int, due: bool, wants: Wants) returns (failed: bool)
    requires list.Valid() && m.Valid() && list.Items() == m.Contents() && !list.hasDups
    modifies list, m.vals
    ensures !failed && list.Valid() && m.Valid() && list.Items() == m.Contents() && !list.hasDups && list.nodes == old(list.nodes)
  {
    var rc := list.SetValue(k, v, due, wants);
    var f := m.Find(k);
    if f >= 0 {
      m.Store(f, v);
    }
    failed := (f >= 0) != (rc == Outcome.Ok);
  }

  method AskBoth(list: List, m: Model, k: int, due: bool, wants: Wants) returns (failed: bool)
    requires list.Valid() && m.Valid() && list.Items() == m.Contents()
    modifies list
    ensures !failed && list.Valid() && list.Items() == m.Contents() && list.nodes == old(list.nodes) && list.hasDups == old(list.hasDups)
  {
    var present, got := list.Get(k, due, wants);
    var expected := m.Contains(k);
    var f := m.Find(k);
    failed := present != expected || (f >= 0 && got != m.vals[f]);
  }

  method Step(list: List, m: Model, op: Op, n: Node) returns (failed: bool)
    requires list.Valid() && m.Valid() && list.Items() == m.Contents() && !list.hasDups
    requires n != HEAD && n != TAIL && n !in list.nodes
    modifies list, m, m.keys, m.vals
    ensures !failed && list.Valid() && m.Valid() && list.Items() == m.Contents() && !list.hasDups
    ensures (m.keys == old(m.keys) || fresh(m.keys)) && (m.vals == old(m.vals) || fresh(m.vals))
    ensures forall x <- list.nodes :: x in old(list.nodes) || x == n
  {
    match op {
      case PutOp(k, v, toss, wants) => failed := PutBoth(list, m, k, v, toss, wants, n);
      case DelOp(k) => failed := DelBoth(list, m, k);
      case SetOp(k, v, due, wants) => failed := SetBoth(list, m, k, v, due, wants);
      case AskOp(k, due, wants) => failed := AskBoth(list, m, k, due, wants);
    }
    if !failed {
      var same := ListMatchesModel(list, m);
      failed := !same;
    }
  }

  method PropModel(ops: seq<Op>) returns (failed: bool)
    ensures !failed
  {
    var list := new List();
    var m := new Model();
    failed := false;
    var i := 0;
    while i < |ops| && !failed
      invariant 0 <= i <= |ops| && !failed && fresh(list) && fresh(m) && fresh(m.keys) && fresh(m.vals)
      invariant list.Valid() && m.Valid() && list.Items() == m.Contents() && !list.hasDups
      invariant forall x <- list.nodes :: x < i + 2
    {
      failed := Step(list, m, ops[i], i + 2);
      i := i + 1;
    }
  }
}
