/**
  What a thread can come to that goes down from the top.

  A search does not walk each level from the head: it enters a level at a node
  it met one level up, if that carries no mark here.  Such a node is on the
  chain of the level it enters -- unless its insert has linked it behind a node
  that was off the chain, which takes an erased mark (`Strands`).  Where that
  never happened and nothing was spoiled, no way down leads to a retired node.
 */
module Descents {
  import opened LevelChain
  import opened Removing
  import opened LockFree
  import opened Erasure
  import opened Retirement

  // ------------------------------------------------------------------
  // Which marks an insert can have lost
  // ------------------------------------------------------------------

  /** At most the one of the level it stores at, and once it has lost that it
      links no further: the level above is marked. */
  ghost predicate SteadyAt(s: State, nd: Nodes, n: Node, k: nat)
    requires |s.levels| == MAX_HEIGHT && k < MAX_HEIGHT
  {
    n in s.inserts ==>
      match s.inserts[n]
      case Filling => true
      case Linking(m, _) => StandsAt(s, nd, n, k) || k == m || (k + 1 == m && (m < MAX_HEIGHT ==> StandsAt(s, nd, n, m)))
      case Storing(m, _, _) => StandsAt(s, nd, n, k) || k == m
      case Publishing(m, _, _, _) => StandsAt(s, nd, n, k) || k == m
      case Finished => StandsAt(s, nd, n, k) || (k + 1 < MAX_HEIGHT ==> n !in s.levels[k + 1].rank)
  }

  lemma OthersKeepStanding(s: State, nd: Nodes, step: Step, n: Node, k: nat)
    requires Inv(s, nd) && Enabled(s, nd, step) && k < MAX_HEIGHT && !ActsOn(step, n)
    ensures StandsAt(Apply(s, nd, step), nd, n, k) <==> StandsAt(s, nd, n, k)
  {
    OthersUntouched(s, nd, step, n, k);
  }

  lemma OthersKeepSteady(s: State, nd: Nodes, step: Step, n: Node, k: nat)
    requires Inv(s, nd) && Enabled(s, nd, step) && k < MAX_HEIGHT && !ActsOn(step, n) && SteadyAt(s, nd, n, k)
    ensures SteadyAt(Apply(s, nd, step), nd, n, k)
  {
    OthersKeepStanding(s, nd, step, n, k);
    OthersKeepPhase(s, nd, step, n);
    if k + 1 < MAX_HEIGHT {
      OthersKeepStanding(s, nd, step, n, k + 1);
      OthersUntouched(s, nd, step, n, k + 1);
    }
  }

  /** Only the plain store of phase 6 lets a mark fall, at its own level. */
  lemma OwnKeepsStanding(s: State, nd: Nodes, step: Step, n: Node, k: nat)
    requires Inv(s, nd) && Enabled(s, nd, step) && k < MAX_HEIGHT && ActsOn(step, n) && StandsAt(s, nd, n, k)
    requires step.StoreSlot? ==> s.inserts[n].level != k
    ensures StandsAt(Apply(s, nd, step), nd, n, k)
  {
    if IsMarked(s, n, k) && !step.StoreSlot? {
      MarkStays(s, nd, step, n, k);
    }
  }

  /** A test goes on only with a slot that carries no mark. */
  lemma TestKeepsSteady(s: State, nd: Nodes, step: Step, n: Node, k: nat)
    requires Inv(s, nd) && Enabled(s, nd, step) && k < MAX_HEIGHT && step.TestSlot? && step.n == n && SteadyAt(s, nd, n, k)
    ensures SteadyAt(Apply(s, nd, step), nd, n, k)
  {
    assert StandsAt(Apply(s, nd, step), nd, n, k) <==> StandsAt(s, nd, n, k);
    if k + 1 < MAX_HEIGHT {
      assert InsertOk(s, nd, n, k + 1);
    }
  }

  /** An insert ends without having linked above the mark it lost. */
  lemma EndKeepsSteady(s: State, nd: Nodes, step: Step, n: Node, k: nat)
    requires Inv(s, nd) && Enabled(s, nd, step) && k < MAX_HEIGHT && (step.FinishInsert? || step.Relocate?) && step.n == n
    requires SteadyAt(s, nd, n, k)
    ensures SteadyAt(Apply(s, nd, step), nd, n, k)
  {
    assert StandsAt(Apply(s, nd, step), nd, n, k) <==> StandsAt(s, nd, n, k);
    if k + 1 < MAX_HEIGHT {
      assert InsertOk(s, nd, n, k + 1);
    }
  }

  lemma LinkKeepsSteady(s: State, nd: Nodes, step: Step, n: Node, k: nat)
    requires Inv(s, nd) && Enabled(s, nd, step) && k < MAX_HEIGHT && (step.LinkUpper? || step.StoreSlot?) && step.n == n
    requires SteadyAt(s, nd, n, k) && (k + 1 < MAX_HEIGHT ==> SteadyAt(s, nd, n, k + 1))
    ensures SteadyAt(Apply(s, nd, step), nd, n, k)
  {
    if StandsAt(s, nd, n, k) && k != s.inserts[n].level {
      OwnKeepsStanding(s, nd, step, n, k);
    }
    if k + 1 < MAX_HEIGHT && k == s.inserts[n].level {
      OwnKeepsStanding(s, nd, step, n, k + 1);
    }
  }

  /** Nobody removes a node that is not in the list yet. */
  lemma BeginKeepsSteady(s: State, nd: Nodes, step: Step, n: Node, k: nat)
    requires Inv(s, nd) && Enabled(s, nd, step) && k < MAX_HEIGHT && (step.Allocate? || step.Fill? || step.LinkBase?) && step.n == n
    ensures SteadyAt(Apply(s, nd, step), nd, n, k)
  {
    assert InsertOk(s, nd, n, 0) && PassedOk(s, nd, n, k);
  }

  /** The steps that leave the insert of the node where it is. */
  predicate LeavesInsert(step: Step) {
    step.Mark? || step.ReadBound? || step.Unlink? || step.HelpAhead?
  }

  lemma RestKeepsSteady(s: State, nd: Nodes, step: Step, n: Node, k: nat)
    requires Inv(s, nd) && Enabled(s, nd, step) && k < MAX_HEIGHT && LeavesInsert(step) && step.n == n
    requires SteadyAt(s, nd, n, k)
    ensures SteadyAt(Apply(s, nd, step), nd, n, k)
  {
    var s' := Apply(s, nd, step);
    var (i, w) := WriteOf(s, nd, step);
    WriteFits(s, nd, step);
    if StandsAt(s, nd, n, k) {
      OwnKeepsStanding(s, nd, step, n, k);
    }
    if k + 1 < MAX_HEIGHT {
      WriteRanks(s.levels[i], w, n);
      if StandsAt(s, nd, n, k + 1) {
        OwnKeepsStanding(s, nd, step, n, k + 1);
      }
    }
    assert n in s.inserts <==> n in s'.inserts;
    assert n in s.inserts ==> s'.inserts[n] == s.inserts[n];
  }

  lemma StepKeepsSteady(s: State, nd: Nodes, step: Step, n: Node, k: nat)
    requires Inv(s, nd) && Enabled(s, nd, step) && k < MAX_HEIGHT
    requires SteadyAt(s, nd, n, k) && (k + 1 < MAX_HEIGHT ==> SteadyAt(s, nd, n, k + 1))
    ensures SteadyAt(Apply(s, nd, step), nd, n, k)
  {
    if !ActsOn(step, n) {
      OthersKeepSteady(s, nd, step, n, k);
    } else if LeavesInsert(step) {
      RestKeepsSteady(s, nd, step, n, k);
    } else if step.TestSlot? {
      TestKeepsSteady(s, nd, step, n, k);
    } else if step.FinishInsert? || step.Relocate? {
      EndKeepsSteady(s, nd, step, n, k);
    } else if step.LinkUpper? || step.StoreSlot? {
      LinkKeepsSteady(s, nd, step, n, k);
    } else {
      BeginKeepsSteady(s, nd, step, n, k);
    }
  }

  ghost predicate Steady(s: State, nd: Nodes)
    requires |s.levels| == MAX_HEIGHT
  {
    forall n, k :: 0 <= k < MAX_HEIGHT ==> SteadyAt(s, nd, n, k)
  }

  /** In every run, erased marks or not. */
  lemma {:induction false} RunKeepsSteady(nd: Nodes, run: seq<Step>, k: nat)
    requires IsRun(Init(), nd, run) && k <= |run|
    ensures Steady(After(Init(), nd, run, k), nd)
    decreases k
  {
    InitInv(nd);
    if k > 0 {
      var s := After(Init(), nd, run, k - 1);
      RunKeepsSteady(nd, run, k - 1);
      RunKeepsInv(Init(), nd, run, k - 1);
      RunStep(Init(), nd, run, k - 1);
      forall n, i | 0 <= i < MAX_HEIGHT
        ensures SteadyAt(After(Init(), nd, run, k), nd, n, i)
      {
        assert SteadyAt(s, nd, n, i) && (i + 1 < MAX_HEIGHT ==> SteadyAt(s, nd, n, i + 1));
        StepKeepsSteady(s, nd, run[k - 1], n, i);
      }
    }
  }

  /** Below a level at which a node is linked, all its marks stand. */
  lemma StandsBelow(s: State, nd: Nodes, n: Node, i: nat)
    requires Inv(s, nd) && Steady(s, nd) && i + 1 < MAX_HEIGHT && n in s.levels[i + 1].rank && n != HEAD && n != TAIL
    ensures StandsAt(s, nd, n, i)
  {
    assert SteadyAt(s, nd, n, i) && InsertOk(s, nd, n, i + 1);
  }

  // ------------------------------------------------------------------
  // Off the chain
  // ------------------------------------------------------------------

  /** A node without a mark is on the chain of a level where it was linked, if it
      has lost no mark there. */
  ghost predicate OnAt(s: State, nd: Nodes, n: Node, i: nat)
    requires |s.levels| == MAX_HEIGHT && i < MAX_HEIGHT
  {
    var l := s.levels[i];
    Forward(l) && n in l.rank && !Slot(l, n).marked && StandsAt(s, nd, n, i) ==> Reached(l, n)
  }

  /** A node that no remover has come to at the level is linked there behind one
      that is off the chain. */
  ghost predicate Strands(s: State, nd: Nodes, step: Step, i: nat)
    requires |s.levels| == MAX_HEIGHT && i < MAX_HEIGHT
  {
    && step.LinkUpper? && step.n in s.inserts && s.inserts[step.n].Publishing? && s.inserts[step.n].level == i
    && Forward(s.levels[i]) && !Reached(s.levels[i], s.inserts[step.n].pred)
    && !Slot(s.levels[i], step.n).marked && StandsAt(s, nd, step.n, i)
  }

  /** What is taken out is marked there, or has lost its mark. */
  lemma TakesOutFallen(s: State, nd: Nodes, step: Step, i: nat)
    requires Inv(s, nd) && Enabled(s, nd, step) && i < MAX_HEIGHT && WriteAt(s, nd, step, i).TakeOut?
    ensures var n := WriteAt(s, nd, step, i).n; Slot(s.levels[i], n).marked || !StandsAt(s, nd, n, i)
  {
    var n := WriteAt(s, nd, step, i).n;
    WriteFits(s, nd, step);
    if step.Unlink? {
      assert RemovalOk(s, nd, step.n) && InsertOk(s, nd, n, i) && PassedOk(s, nd, n, i);
      assert LevelOk(s, nd, i) && LeadsOn(s.levels[i], n);
    }
  }

  /** Marks and standing, when a step is over. */
  lemma StandsBefore(s: State, nd: Nodes, step: Step, n: Node, i: nat)
    requires Inv(s, nd) && Enabled(s, nd, step) && i < MAX_HEIGHT && n in s.levels[i].rank
    requires var m := Apply(s, nd, step).levels[i]; !Slot(m, n).marked && StandsAt(Apply(s, nd, step), nd, n, i)
    ensures !Slot(s.levels[i], n).marked && StandsAt(s, nd, n, i)
  {
    StepKeepsLevel(s, nd, step, i);
    assert NodeEvolves(s.levels[i], Apply(s, nd, step).levels[i], n);
    assert LevelOk(s, nd, i) && LeadsOn(s.levels[i], n);
  }

  /** A node already linked there stays on the chain. */
  lemma OldStaysOn(s: State, nd: Nodes, step: Step, n: Node, i: nat)
    requires Inv(s, nd) && Enabled(s, nd, step) && i < MAX_HEIGHT && !Outdated(s, step, i) && OnAt(s, nd, n, i)
    requires n in s.levels[i].rank
    ensures OnAt(Apply(s, nd, step), nd, n, i)
  {
    var l, w, s' := s.levels[i], WriteAt(s, nd, step, i), Apply(s, nd, step);
    WriteAtFits(s, nd, step, i);
    IsExactIff(s, nd, step, i);
    if !Slot(s'.levels[i], n).marked && StandsAt(s', nd, n, i) {
      StandsBefore(s, nd, step, n, i);
      WriteKeepsForward(l, w);
      if IsQuiet(w) {
        QuietWalks(l, w, HEAD);
      } else if w.LinkIn? {
        LinkWalks(l, w.pred, w.succ, w.n, HEAD);
      } else {
        TakesOutFallen(s, nd, step, i);
        ExactSwingWalks(l, w.pred, w.n, HEAD, n);
      }
    }
  }

  /** And one that is linked now is on it, unless it is stranded. */
  lemma NewIsOnIff(s: State, nd: Nodes, step: Step, n: Node, i: nat)
    requires Inv(s, nd) && Enabled(s, nd, step) && 0 < i < MAX_HEIGHT
    requires n !in s.levels[i].rank && n in Apply(s, nd, step).levels[i].rank
    ensures OnAt(Apply(s, nd, step), nd, n, i) <==> !(Strands(s, nd, step, i) && step.n == n)
  {
    var l, w, s' := s.levels[i], WriteAt(s, nd, step, i), Apply(s, nd, step);
    WriteAtFits(s, nd, step, i);
    WriteRanks(l, w, n);
    WriteKeepsForward(l, w);
    LinkWalks(l, w.pred, w.succ, w.n, HEAD);
    if Reached(l, w.pred) {
      assert Reached(s'.levels[i], n);
    } else if Reached(l, n) {
      WalkedIsAhead(l, HEAD, n);
    }
    assert Slot(s'.levels[i], n) == Slot(l, n);
    assert StandsAt(s', nd, n, i) <==> StandsAt(s, nd, n, i);
  }

  ghost predicate AllOn(s: State, nd: Nodes, i: nat)
    requires |s.levels| == MAX_HEIGHT && i < MAX_HEIGHT
  {
    forall n :: OnAt(s, nd, n, i)
  }

  /** A step that is not outdated keeps the nodes of an upper level on its chain
      exactly if it strands none. */
  lemma StaysOnIff(s: State, nd: Nodes, step: Step, i: nat)
    requires Inv(s, nd) && Enabled(s, nd, step) && 0 < i < MAX_HEIGHT && !Outdated(s, step, i) && AllOn(s, nd, i)
    ensures AllOn(Apply(s, nd, step), nd, i) <==> !Strands(s, nd, step, i)
  {
    var s' := Apply(s, nd, step);
    forall n | !(Strands(s, nd, step, i) && step.n == n)
      ensures OnAt(s', nd, n, i)
    {
      assert OnAt(s, nd, n, i);
      if n in s.levels[i].rank {
        OldStaysOn(s, nd, step, n, i);
      } else if n in s'.levels[i].rank {
        NewIsOnIff(s, nd, step, n, i);
      }
    }
    if Strands(s, nd, step, i) {
      NewIsOnIff(s, nd, step, step.n, i);
      assert !OnAt(s', nd, step.n, i);
    }
  }

  // ------------------------------------------------------------------
  // Over whole runs
  // ------------------------------------------------------------------

  ghost predicate StrandedBy(nd: Nodes, run: seq<Step>, j: nat, i: nat)
    requires IsRun(Init(), nd, run) && j < |run| && i < MAX_HEIGHT
  {
    Strands(After(Init(), nd, run, j), nd, run[j], i)
  }

  ghost predicate NeverStranded(nd: Nodes, run: seq<Step>, k: nat, i: nat)
    requires IsRun(Init(), nd, run) && k <= |run| && i < MAX_HEIGHT
  {
    k == 0 || (NeverStranded(nd, run, k - 1, i) && !StrandedBy(nd, run, k - 1, i))
  }

  ghost predicate OnUntil(nd: Nodes, run: seq<Step>, k: nat, i: nat)
    requires IsRun(Init(), nd, run) && k <= |run| && i < MAX_HEIGHT
  {
    AllOn(After(Init(), nd, run, k), nd, i)
  }

  ghost predicate AlwaysOn(nd: Nodes, run: seq<Step>, k: nat, i: nat)
    requires IsRun(Init(), nd, run) && k <= |run| && i < MAX_HEIGHT
  {
    OnUntil(nd, run, k, i) && (k == 0 || AlwaysOn(nd, run, k - 1, i))
  }

  /** Over whole runs that do not spoil a level: its nodes are on its chain
      throughout if and only if none was ever stranded. */
  lemma {:induction false} RunIsOnIff(nd: Nodes, run: seq<Step>, k: nat, i: nat)
    requires IsRun(Init(), nd, run) && k <= |run| && 0 < i < MAX_HEIGHT && NeverSpoiled(nd, run, k, i)
    ensures AlwaysOn(nd, run, k, i) <==> NeverStranded(nd, run, k, i)
  {
    if k == 0 {
      StartIsOn(nd, run, i);
    } else {
      RunIsOnIff(nd, run, k - 1, i);
      if OnUntil(nd, run, k - 1, i) {
        NextIsOnIff(nd, run, k - 1, i);
      }
    }
  }

  lemma StartIsOn(nd: Nodes, run: seq<Step>, i: nat)
    requires IsRun(Init(), nd, run) && i < MAX_HEIGHT
    ensures OnUntil(nd, run, 0, i)
  {
    var l := Init().levels[i];
    EmptyIsValid(nd.key);
    LinkedIsReached(l, nd.key, HEAD);
    LinkedIsReached(l, nd.key, TAIL);
  }

  lemma NextIsOnIff(nd: Nodes, run: seq<Step>, k: nat, i: nat)
    requires IsRun(Init(), nd, run) && k < |run| && 0 < i < MAX_HEIGHT && OnUntil(nd, run, k, i) && !SpoiledBy(nd, run, k, i)
    ensures OnUntil(nd, run, k + 1, i) <==> !StrandedBy(nd, run, k, i)
  {
    InitInv(nd);
    RunKeepsInv(Init(), nd, run, k);
    RunStep(Init(), nd, run, k);
    StaysOnIff(After(Init(), nd, run, k), nd, run[k], i);
  }

  /** Level 0 is a chain in every run. */
  lemma BaseIsOn(s: State, nd: Nodes)
    requires Inv(s, nd)
    ensures AllOn(s, nd, 0)
  {
    var l := s.levels[0];
    assert LevelOk(s, nd, 0);
    forall n
      ensures OnAt(s, nd, n, 0)
    {
      assert LeadsOn(l, n);
      LinkedIsReached(l, nd.key, n);
    }
  }

  // ------------------------------------------------------------------
  // Ways down
  // ------------------------------------------------------------------

  /** From a node to the next on the same level, or one level down, if it is not
      marked there. */
  predicate GoesOn(s: State, p: (nat, Node), q: (nat, Node))
    requires |s.levels| == MAX_HEIGHT
  {
    && p.0 < MAX_HEIGHT && p.1 != TAIL
    && (q == (p.0, Slot(s.levels[p.0], p.1).ptr) || (p.0 > 0 && q == (p.0 - 1, p.1) && !Slot(s.levels[p.0 - 1], p.1).marked))
  }

  /** A way down starts from the head at any level. */
  predicate IsWay(s: State, way: seq<(nat, Node)>)
    requires |s.levels| == MAX_HEIGHT
  {
    && way != [] && way[0].0 < MAX_HEIGHT && way[0].1 == HEAD
    && forall j :: 0 <= j < |way| - 1 ==> GoesOn(s, way[j], way[j + 1])
  }

  ghost predicate OnChain(s: State, p: (nat, Node))
    requires |s.levels| == MAX_HEIGHT
  {
    p.0 < MAX_HEIGHT && Forward(s.levels[p.0]) && Reached(s.levels[p.0], p.1)
  }

  lemma GoesOnOnChain(s: State, nd: Nodes, p: (nat, Node), q: (nat, Node))
    requires Inv(s, nd) && Steady(s, nd) && OnChain(s, p) && GoesOn(s, p, q)
    requires forall i :: 0 <= i < MAX_HEIGHT ==> AllOn(s, nd, i)
    ensures OnChain(s, q)
  {
    var (i, c) := p;
    var l := s.levels[i];
    assert LevelOk(s, nd, i) && LeadsOn(l, c) && LeadsOn(l, l.next[c].ptr);
    WalkGoesOn(l, HEAD, c);
    if q != (i, l.next[c].ptr) && c != HEAD {
      assert LevelOk(s, nd, i - 1) && LadderOk(s, c, i) && AllOn(s, nd, i - 1) && OnAt(s, nd, c, i - 1);
      StandsBelow(s, nd, c, i - 1);
    }
    assert q.0 < MAX_HEIGHT && LevelOk(s, nd, q.0);
  }

  /** No way down leaves the chains. */
  lemma {:induction false} WaysAreOnChains(s: State, nd: Nodes, way: seq<(nat, Node)>, j: nat)
    requires Inv(s, nd) && Steady(s, nd) && IsWay(s, way) && j < |way|
    requires forall i :: 0 <= i < MAX_HEIGHT ==> AllOn(s, nd, i)
    ensures OnChain(s, way[j])
    decreases j
  {
    if j == 0 {
      assert LevelOk(s, nd, way[0].0);
    } else {
      WaysAreOnChains(s, nd, way, j - 1);
      GoesOnOnChain(s, nd, way[j - 1], way[j]);
    }
  }

  /** A run that spoils no level and strands no node. */
  ghost predicate IsSound(nd: Nodes, run: seq<Step>, k: nat)
    requires IsRun(Init(), nd, run) && k <= |run|
  {
    forall i :: 0 < i < MAX_HEIGHT ==> NeverSpoiled(nd, run, k, i) && NeverStranded(nd, run, k, i)
  }

  /** No way down leads to a retired node. */
  lemma RetiredIsOnNoWay(nd: Nodes, run: seq<Step>, k: nat, n: Node, way: seq<(nat, Node)>, j: nat)
    requires IsRun(Init(), nd, run) && k <= |run| && IsSound(nd, run, k)
    requires IsRetired(After(Init(), nd, run, k), n)
    requires IsWay(After(Init(), nd, run, k), way) && j < |way|
    ensures way[j].1 != n
  {
    var s := After(Init(), nd, run, k);
    InitInv(nd);
    RunKeepsInv(Init(), nd, run, k);
    RunKeepsSteady(nd, run, k);
    forall i | 0 <= i < MAX_HEIGHT
      ensures AllOn(s, nd, i)
    {
      if i == 0 {
        BaseIsOn(s, nd);
      } else {
        RunIsOnIff(nd, run, k, i);
        assert AlwaysOn(nd, run, k, i) && OnUntil(nd, run, k, i);
      }
    }
    WaysAreOnChains(s, nd, way, j);
    RetiredIsUnreachable(nd, run, k, n, way[j].0);
    ReachedIsReachable(s.levels[way[j].0], n);
  }

  // ------------------------------------------------------------------
  // Who can rule it out
  // ------------------------------------------------------------------

  /** While no mark has been erased no node is stranded. */
  lemma UnerasedStrandsNone(nd: Nodes, run: seq<Step>, j: nat, i: nat)
    requires IsRun(Init(), nd, run) && j < |run| && i < MAX_HEIGHT && NeverErases(nd, run, j)
    ensures !StrandedBy(nd, run, j, i)
  {
    var s := After(Init(), nd, run, j);
    RunKeepsKept(nd, run, j);
    RunStep(Init(), nd, run, j);
    if Strands(s, nd, run[j], i) {
      LinkedIsReached(s.levels[i], nd.key, s.inserts[run[j].n].pred);
    }
  }

  lemma {:induction false} UnerasedIsNeverStranded(nd: Nodes, run: seq<Step>, k: nat, i: nat)
    requires IsRun(Init(), nd, run) && k <= |run| && i < MAX_HEIGHT && NeverErases(nd, run, k)
    ensures NeverStranded(nd, run, k, i)
    decreases k
  {
    if k > 0 {
      UnerasedIsNeverStranded(nd, run, k - 1, i);
      UnerasedStrandsNone(nd, run, k - 1, i);
    }
  }

  /** For callers who only remove nodes whose insert has returned, no way down ever
      leads to a retired node. */
  lemma InsertedFirstIsOnNoWay(nd: Nodes, run: seq<Step>, k: nat, n: Node, way: seq<(nat, Node)>, j: nat)
    requires IsRun(Init(), nd, run) && k <= |run| && RemovesOnlyInserted(nd, run, k)
    requires IsRetired(After(Init(), nd, run, k), n)
    requires IsWay(After(Init(), nd, run, k), way) && j < |way|
    ensures way[j].1 != n
  {
    forall i | 0 < i < MAX_HEIGHT
      ensures NeverSpoiled(nd, run, k, i) && NeverStranded(nd, run, k, i)
    {
      InsertedFirstIsNeverSpoiled(nd, run, k, i);
      UnerasedIsNeverStranded(nd, run, k, i);
    }
    RetiredIsOnNoWay(nd, run, k, n, way, j);
  }
}
