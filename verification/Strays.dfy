/**
  Removed nodes that carry no mark at an upper level.

  Marks are set from the top down, so a node marked at level 0 is marked above,
  too -- unless the mark was erased, or the node linked there after its remover
  had gone by, with the slot cleared in between.  A lookup that stops at such a
  node on an upper level reports a node that has been removed.
 */
module Strays {
  import opened LevelChain
  import opened Removing
  import opened LockFree
  import opened Erasure
  import opened Membership

  predicate Stray(s: State, n: Node, level: nat)
    requires |s.levels| == MAX_HEIGHT && level < MAX_HEIGHT
  {
    level > 0 && n in s.levels[level].rank && !Slot(s.levels[level], n).marked && IsMarked(s, n, 0)
  }

  /** A node seen unmarked at some level is a member at that moment, unless it is
      a stray. */
  lemma UnmarkedIsMemberIff(s: State, nd: Nodes, n: Node, level: nat)
    requires Inv(s, nd) && level < MAX_HEIGHT && n != HEAD && n != TAIL
    requires n in s.levels[level].rank && !Slot(s.levels[level], n).marked
    ensures Member(s, n) <==> !Stray(s, n, level)
    decreases level
  {
    InBase(s, nd, n, level);
    assert LevelOk(s, nd, 0) && LeadsOn(s.levels[0], n);
  }

  lemma {:induction false} InBase(s: State, nd: Nodes, n: Node, level: nat)
    requires Inv(s, nd) && level < MAX_HEIGHT && n in s.levels[level].rank
    ensures n in s.levels[0].rank
  {
    assert LadderOk(s, n, level);
    if level > 0 {
      InBase(s, nd, n, level - 1);
    }
  }

  // ------------------------------------------------------------------
  // How a node becomes one
  // ------------------------------------------------------------------

  /** The node is marked at level 0 while its slot of the level, where it is
      linked, carries no mark; or it is linked there, without one, after that. */
  predicate MakesStray(s: State, step: Step, n: Node, level: nat)
    requires |s.levels| == MAX_HEIGHT && level < MAX_HEIGHT
  {
    || (step == Mark(n, 0) && n in s.levels[level].rank && !Slot(s.levels[level], n).marked)
    || (step == LinkUpper(n) && n in s.inserts && s.inserts[n].Publishing? && s.inserts[n].level == level
        && !Slot(s.levels[level], n).marked && IsMarked(s, n, 0))
  }

  lemma OthersMakeNoStray(s: State, nd: Nodes, step: Step, n: Node, level: nat)
    requires Inv(s, nd) && Enabled(s, nd, step) && 0 < level < MAX_HEIGHT && !ActsOn(step, n)
    ensures Stray(Apply(s, nd, step), n, level) <==> Stray(s, n, level)
  {
    OthersUntouched(s, nd, step, n, level);
    OthersUntouched(s, nd, step, n, 0);
  }

  lemma UnlinkMakesNoStray(s: State, nd: Nodes, n: Node, level: nat)
    requires Inv(s, nd) && Enabled(s, nd, Unlink(n)) && 0 < level < MAX_HEIGHT
    ensures Stray(Apply(s, nd, Unlink(n)), n, level) <==> Stray(s, n, level)
  {
    var (i, w) := WriteOf(s, nd, Unlink(n));
    UnlinkFits(s, nd, n);
    WriteKeepsSlot(s.levels[i], w, n);
  }

  /** A step leaves a node a stray exactly if it makes it one, or finds it one and
      does not mark it there. */
  lemma StrayAfterIff(s: State, nd: Nodes, step: Step, n: Node, level: nat)
    requires Inv(s, nd) && Enabled(s, nd, step) && 0 < level < MAX_HEIGHT && n != HEAD && n != TAIL
    ensures Stray(Apply(s, nd, step), n, level) <==>
            MakesStray(s, step, n, level) || (Stray(s, n, level) && step != Mark(n, level))
  {
    if !ActsOn(step, n) {
      OthersMakeNoStray(s, nd, step, n, level);
    } else if step.Unlink? {
      UnlinkMakesNoStray(s, nd, n, level);
    } else {
      OwnStrayIff(s, nd, step, n, level);
    }
  }

  lemma OwnStrayIff(s: State, nd: Nodes, step: Step, n: Node, level: nat)
    requires Inv(s, nd) && Enabled(s, nd, step) && 0 < level < MAX_HEIGHT && n != HEAD && n != TAIL
    requires ActsOn(step, n) && !step.Unlink?
    ensures Stray(Apply(s, nd, step), n, level) <==>
            MakesStray(s, step, n, level) || (Stray(s, n, level) && step != Mark(n, level))
  {
    if step.LinkUpper? {
      LinkStrayIff(s, nd, n, level);
    } else if step.Mark? {
      MarkStrayIff(s, nd, n, step.level, level);
    } else {
      StoreMakesNoStray(s, nd, step, n, level);
    }
  }

  lemma LinkStrayIff(s: State, nd: Nodes, n: Node, level: nat)
    requires Inv(s, nd) && Enabled(s, nd, LinkUpper(n)) && 0 < level < MAX_HEIGHT && n != HEAD && n != TAIL
    ensures Stray(Apply(s, nd, LinkUpper(n)), n, level) <==> MakesStray(s, LinkUpper(n), n, level) || Stray(s, n, level)
  {
    assert InsertOk(s, nd, n, s.inserts[n].level) && InsertOk(s, nd, n, level);
  }

  lemma MarkStrayIff(s: State, nd: Nodes, n: Node, at: nat, level: nat)
    requires Inv(s, nd) && Enabled(s, nd, Mark(n, at)) && 0 < level < MAX_HEIGHT
    ensures Stray(Apply(s, nd, Mark(n, at)), n, level) <==>
            MakesStray(s, Mark(n, at), n, level) || (Stray(s, n, level) && at != level)
  {
  }

  /** The other steps of an insert leave linked slots alone. */
  lemma StoreMakesNoStray(s: State, nd: Nodes, step: Step, n: Node, level: nat)
    requires Inv(s, nd) && Enabled(s, nd, step) && 0 < level < MAX_HEIGHT && n != HEAD && n != TAIL
    requires ActsOn(step, n) && !step.Unlink? && !step.LinkUpper? && !step.Mark?
    ensures Stray(Apply(s, nd, step), n, level) <==> Stray(s, n, level)
  {
    assert InsertOk(s, nd, n, level) && InsertOk(s, nd, n, 0);
    if step.StoreSlot? {
      assert InsertOk(s, nd, n, s.inserts[n].level);
    }
  }

  /** The last step that made the node a stray was followed by none that marked it
      at the level. */
  ghost predicate MadeStray(nd: Nodes, run: seq<Step>, k: nat, n: Node, level: nat)
    requires IsRun(Init(), nd, run) && k <= |run| && level < MAX_HEIGHT
  {
    k > 0 && (MakesStray(After(Init(), nd, run, k - 1), run[k - 1], n, level) ||
              (MadeStray(nd, run, k - 1, n, level) && run[k - 1] != Mark(n, level)))
  }

  /** Over whole runs: which nodes are strays, and when. */
  lemma {:induction false} RunMadeStrayIff(nd: Nodes, run: seq<Step>, k: nat, n: Node, level: nat)
    requires IsRun(Init(), nd, run) && k <= |run| && 0 < level < MAX_HEIGHT && n != HEAD && n != TAIL
    ensures Stray(After(Init(), nd, run, k), n, level) <==> MadeStray(nd, run, k, n, level)
  {
    InitInv(nd);
    if k > 0 {
      RunMadeStrayIff(nd, run, k - 1, n, level);
      NextIsStrayIff(nd, run, k - 1, n, level);
    }
  }

  lemma NextIsStrayIff(nd: Nodes, run: seq<Step>, k: nat, n: Node, level: nat)
    requires IsRun(Init(), nd, run) && k < |run| && 0 < level < MAX_HEIGHT && n != HEAD && n != TAIL
    ensures Stray(After(Init(), nd, run, k + 1), n, level) <==>
            MakesStray(After(Init(), nd, run, k), run[k], n, level) ||
            (Stray(After(Init(), nd, run, k), n, level) && run[k] != Mark(n, level))
  {
    InitInv(nd);
    RunKeepsInv(Init(), nd, run, k);
    RunStep(Init(), nd, run, k);
    StrayAfterIff(After(Init(), nd, run, k), nd, run[k], n, level);
  }

  /** As long as no mark is erased there are no strays. */
  lemma KeptHasNoStrays(s: State, nd: Nodes, n: Node, level: nat)
    requires Kept(s, nd) && level < MAX_HEIGHT
    ensures !Stray(s, n, level)
  {
    assert LevelOk(s, nd, 0) && LevelOk(s, nd, level) && InsertOk(s, nd, n, level) && InsertOk(s, nd, n, 0);
    assert RemovalOk(s, nd, n) && PassedOk(s, nd, n, level) && StandsAt(s, nd, n, level);
    assert LeadsOn(s.levels[level], n);
  }
}
