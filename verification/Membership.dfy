/**
  What the lock-free list contains.

  A node is in the list while it is linked at level 0 and not marked there.
  Membership changes at two kinds of step only: the level-0 swing of an insert
  and the level-0 mark of a remove.
 */
module Membership {
  import opened LevelChain
  import opened LockFree

  predicate Member(s: State, n: Node)
    requires |s.levels| == MAX_HEIGHT
  {
    && n != HEAD && n in s.levels[0].rank
    && n in s.levels[0].next && !s.levels[0].next[n].marked
  }

  /** Membership is what a walk from the head shows, deleted nodes skipped. */
  lemma MembersAreTheUnmarkedChain(s: State, nd: Nodes, n: Node)
    requires Inv(s, nd) && n != HEAD
    ensures Member(s, n) <==> Reachable(s.levels[0], n) && n != TAIL && !IsMarked(s, n, 0)
  {
    assert LevelOk(s, nd, 0) && LeadsOn(s.levels[0], n);
    LinkedIsReached(s.levels[0], nd.key, n);
    ReachedIsReachable(s.levels[0], n);
  }

  /** The linearization points: no other step changes membership. */
  lemma MembershipChanges(s: State, nd: Nodes, step: Step, n: Node)
    requires Inv(s, nd) && Enabled(s, nd, step)
    ensures Member(Apply(s, nd, step), n) <==>
            || (step.LinkBase? && step.n == n)
            || (Member(s, n) && !(step.Mark? && step.level == 0 && step.n == n))
  {
    var (i, w) := WriteOf(s, nd, step);
    WriteFits(s, nd, step);
    assert LevelOk(s, nd, 0);
    if i == 0 {
      if WritesOwn(w, n) {
        OwnBaseWrite(s, nd, step);
      } else {
        WriteKeepsSlot(s.levels[0], w, n);
        assert w.LinkIn? || (w.SetMark? && w.n == n) || Apply(s, nd, step).levels[0].rank == s.levels[0].rank;
      }
    }
  }

  /** Which steps write a node's own slot at level 0. */
  lemma OwnBaseWrite(s: State, nd: Nodes, step: Step)
    requires Inv(s, nd) && Enabled(s, nd, step) && WriteOf(s, nd, step).0 == 0
    ensures var w := WriteOf(s, nd, step).1;
            && (w.LinkIn? ==> step.LinkBase? && step.n == w.n && !IsMarked(s, w.n, 0) && w.n != HEAD)
            && (w.SetMark? ==> step.Mark? && step.level == 0 && step.n == w.n)
            && (w.Put? ==> w.n !in s.levels[0].rank)
  {
    if step.LinkBase? || step.Fill? || step.LinkUpper? || step.StoreSlot? {
      assert InsertOk(s, nd, step.n, 0);
    }
  }

  // ------------------------------------------------------------------
  // Distinct keys until the first duplicate
  // ------------------------------------------------------------------

  ghost predicate DistinctKeys(s: State, nd: Nodes)
    requires |s.levels| == MAX_HEIGHT
  {
    forall c, d :: c in s.levels[0].linked && d in s.levels[0].linked && c != d ==> Compare(nd.key, c, d) != 0
  }

  ghost predicate FlagOk(s: State, nd: Nodes)
    requires |s.levels| == MAX_HEIGHT
  {
    !s.hasDups ==> DistinctKeys(s, nd)
  }

  /** The flag that lets lookups stop early is sound in every run: as long as
      it is clear, all keys of the level-0 chain differ. */
  lemma StepKeepsFlagOk(s: State, nd: Nodes, step: Step)
    requires Inv(s, nd) && Enabled(s, nd, step) && FlagOk(s, nd)
    ensures FlagOk(Apply(s, nd, step), nd)
  {
    var (i, w) := WriteOf(s, nd, step);
    WriteFits(s, nd, step);
    assert LevelOk(s, nd, 0);
    if i == 0 && w.LinkIn? && !s.hasDups {
      OwnBaseWrite(s, nd, step);
      NewKeyDiffers(s.levels[0], nd.key, step.pred, step.succ, step.n);
    }
  }

  lemma NewKeyDiffers(l: Level, key: Node -> int, pred: Node, succ: Node, n: Node)
    requires Valid(l, key) && CanLink(l, pred, succ, n) && Compare(key, pred, n) < 0 && Compare(key, n, succ) < 0
    ensures forall c <- l.linked :: Compare(key, c, n) != 0
  {
    forall c | c in l.linked
      ensures Compare(key, c, n) != 0
    {
      assert NodeOk(l, pred) && LeadsOn(l, pred) && LeadsOn(l, c) && LeadsOn(l, succ);
      assert PairOk(l, key, c, pred) && PairOk(l, key, pred, c) && PairOk(l, key, succ, c);
      if l.rank[c] <= l.rank[pred] {
        assert Compare(key, c, pred) <= 0;
      } else {
        assert Compare(key, succ, c) <= 0;
      }
    }
  }

  lemma {:induction false} RunKeepsFlagOk(nd: Nodes, run: seq<Step>, k: nat)
    requires IsRun(Init(), nd, run) && k <= |run|
    ensures FlagOk(After(Init(), nd, run, k), nd)
    decreases k
  {
    InitInv(nd);
    if k > 0 {
      RunKeepsFlagOk(nd, run, k - 1);
      RunKeepsInv(Init(), nd, run, k - 1);
      RunStep(Init(), nd, run, k - 1);
      StepKeepsFlagOk(After(Init(), nd, run, k - 1), nd, run[k - 1]);
    }
  }
}
