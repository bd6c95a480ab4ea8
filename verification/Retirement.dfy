/**
  When a removed node may be handed to reclamation.

  `remove` marks a node from the top down, swings it out of every level, scans
  every level from the head until none shows it, and retires it.  The question
  is whether a retired node can be reached again.  At level 0 it never can.  At
  an upper level three kinds of step can bring that about, all of them later
  than the removal of a node whose insert was still at work there:

  - the insert swings the predecessor after the remover's scan has gone by
    (`Overtakes`);
  - a remover swings a node out to a successor it loaded before, which is no
    longer the node's: nodes behind it are lost, or come back (`Outdated`);
  - a node is spliced out from behind one that is itself off the chain, and its
    own scan is about to go that way (`Hides`).

  The last two need an erased mark.  `RunIsSafeIff` says that there are no
  others, and that none of them is harmless.
 */
module Retirement {
  import opened LevelChain
  import opened Removing
  import opened LockFree
  import opened Erasure

  // ------------------------------------------------------------------
  // What a remover knows about a level
  // ------------------------------------------------------------------

  /** Levels its scan is done with do not lead to the node; at the level being
      scanned the node, if it can be reached, is still ahead of the scan. */
  ghost predicate KnownSafe(l: Level, r: Removal, n: Node, level: nat)
    requires Forward(l)
  {
    match r
    case Verifying(i, cur) =>
      && (level > i ==> !Reached(l, n))
      && (level == i && Reached(l, n) ==> cur in l.rank && n in Walked(l, cur) && cur != n)
    case Retired => !Reached(l, n)
    case _ => true
  }

  /** Behind `pred` the node would be where its scan no longer comes by. */
  ghost predicate Missed(l: Level, r: Removal, pred: Node, level: nat)
    requires Forward(l)
  {
    match r
    case Verifying(i, cur) => i < level || (i == level && (cur !in l.rank || pred !in Walked(l, cur)))
    case Retired => true
    case _ => false
  }

  /** The scan is on a way to the node that does not come from the head, and the
      node is about to be taken off that way only. */
  ghost predicate OnSideWay(l: Level, r: Removal, pred: Node, n: Node, level: nat)
    requires Forward(l)
  {
    r.Verifying? && r.level == level && r.cur in l.rank && pred in Walked(l, r.cur) && !Reached(l, pred) && Reached(l, n)
  }

  /** A write that moves no pointer of a linked node. */
  predicate IsQuiet(w: Write) {
    w.Keep? || w.Put? || w.SetMark?
  }

  lemma QuietWalks(l: Level, w: Write, c: Node)
    requires Forward(l) && CanWrite(l, w) && IsQuiet(w) && c in l.rank
    ensures Forward(DoWrite(l, w)) && c in DoWrite(l, w).rank && Walked(DoWrite(l, w), c) == Walked(l, c)
  {
    var m := DoWrite(l, w);
    WriteKeepsForward(l, w);
    forall x | x in Walked(l, c) && x != TAIL
      ensures x in l.next && x in m.next && m.next[x].ptr == l.next[x].ptr
    {
      assert LeadsOn(l, x);
    }
    SameWalk(l, m, c);
  }

  /** A node is taken out to where it points now. */
  predicate IsExact(l: Level, w: Write) {
    w.TakeOut? ==> w.n in l.next && w.succ == l.next[w.n].ptr
  }

  /** A write that takes nodes out exactly keeps what the remover of `n` knows,
      unless it links or takes out `n` itself in a place the scan will miss. */
  lemma WriteStaysSafeIff(l: Level, w: Write, r: Removal, n: Node, level: nat)
    requires Forward(l) && CanWrite(l, w) && IsExact(l, w) && KnownSafe(l, r, n, level) && n != HEAD
    requires r.Verifying? && r.level == level ==> r.cur in l.rank
    ensures Forward(DoWrite(l, w))
    ensures KnownSafe(DoWrite(l, w), r, n, level) <==>
            && !(w.LinkIn? && w.n == n && Reached(l, w.pred) && Missed(l, r, w.pred, level))
            && !(w.TakeOut? && w.n == n && OnSideWay(l, r, w.pred, n, level))
  {
    var m := DoWrite(l, w);
    WriteKeepsForward(l, w);
    var cur := if r.Verifying? && r.level == level then r.cur else HEAD;
    if IsQuiet(w) {
      QuietWalks(l, w, HEAD);
      QuietWalks(l, w, cur);
    } else if w.LinkIn? {
      LinkWalks(l, w.pred, w.succ, w.n, HEAD);
      LinkWalks(l, w.pred, w.succ, w.n, cur);
    } else {
      ExactSwingWalks(l, w.pred, w.n, HEAD, n);
      ExactSwingWalks(l, w.pred, w.n, cur, n);
      if w.n == n {
        TakenOutFromSide(l, w, cur, n);
      }
    }
  }

  /** If the way from the head and the way from `cur` both lead to the node, they
      meet before it -- or one of them is the way through `pred`. */
  lemma TakenOutFromSide(l: Level, w: Write, cur: Node, n: Node)
    requires Forward(l) && CanWrite(l, w) && w.TakeOut? && w.n == n && cur in l.rank
    ensures Reached(l, w.pred) ==> n in Walked(l, HEAD)
    ensures w.pred in Walked(l, cur) ==> n in Walked(l, cur)
  {
    assert LeadsOn(l, w.pred) && LeadsOn(l, n);
    if Reached(l, w.pred) {
      WalkGoesOn(l, HEAD, w.pred);
    }
    if w.pred in Walked(l, cur) {
      WalkGoesOn(l, cur, w.pred);
    }
  }

  /** A scan starts from the head, no lower than the node's own top level. */
  lemma BeginsSafe(l: Level, bound: nat, n: Node, level: nat)
    requires n != HEAD && (level > bound ==> n !in l.rank)
    ensures Forward(l) ==> KnownSafe(l, Verifying(bound, HEAD), n, level)
  {
  }

  /** No walk to `n` comes by a larger key. */
  ghost predicate NoneLarger(l: Level, key: Node -> int, n: Node)
    requires Forward(l)
  {
    forall c :: c in l.rank && n in Walked(l, c) ==> Compare(key, c, n) <= 0
  }

  lemma SortedHasNoneLarger(l: Level, key: Node -> int, n: Node)
    requires Forward(l) && Sorted(l, key)
    ensures NoneLarger(l, key, n)
  {
    forall c | c in l.rank && n in Walked(l, c)
      ensures Compare(key, c, n) <= 0
    {
      WalkIsSorted(l, key, c, n);
    }
  }

  /** One pointer of the scan, and its conclusion. */
  lemma ScanStaysSafe(l: Level, key: Node -> int, cur: Node, n: Node)
    requires Forward(l) && NoneLarger(l, key, n) && cur in l.rank && cur != TAIL && n != TAIL
    requires Reached(l, n) ==> n in Walked(l, cur) && cur != n
    ensures cur in l.next && l.next[cur].ptr in l.rank
    ensures var c := l.next[cur].ptr;
            && (Reached(l, n) ==> n in Walked(l, c))
            && (c == TAIL || (c != n && Compare(key, c, n) > 0) ==> !Reached(l, n))
  {
    assert LeadsOn(l, cur) && LeadsOn(l, l.next[cur].ptr);
  }

  // ------------------------------------------------------------------
  // Steps
  // ------------------------------------------------------------------

  /** (In runs every level is in order.) */
  ghost predicate SafeAt(s: State, n: Node, level: nat)
    requires |s.levels| == MAX_HEIGHT && level < MAX_HEIGHT
  {
    n in s.removals && Forward(s.levels[level]) ==> KnownSafe(s.levels[level], s.removals[n], n, level)
  }

  /** The swing of an insert's phase 6 behind the back of the remover of the
      same node: the scan has left the level, or will not come by the
      predecessor any more. */
  ghost predicate Overtakes(s: State, step: Step, level: nat)
    requires |s.levels| == MAX_HEIGHT && level < MAX_HEIGHT
  {
    && step.LinkUpper? && step.n in s.inserts && step.n in s.removals
    && s.inserts[step.n].Publishing? && s.inserts[step.n].level == level && Forward(s.levels[level])
    && var pred := s.inserts[step.n].pred;
    Reached(s.levels[level], pred) && Missed(s.levels[level], s.removals[step.n], pred, level)
  }

  /** What a step takes out, and where: a splice by a helper, or a remover's own
      swing. */
  function TakesOut(s: State, step: Step): (nat, Write)
    requires |s.levels| == MAX_HEIGHT
  {
    match step
    case Splice(i, pred, curr) => if i < MAX_HEIGHT then (i, TakeOut(pred, curr, Slot(s.levels[i], curr).ptr)) else (0, Keep)
    case Unlink(n) =>
      if n in s.removals && HasLevel(s.removals[n]) && s.removals[n].level < MAX_HEIGHT then SwingOf(s.levels, n, s.removals[n])
      else (0, Keep)
    case _ => (0, Keep)
  }

  /** A node is taken out from behind a node off the chain, on the way its own
      scan is taking. */
  ghost predicate Hides(s: State, step: Step, level: nat)
    requires |s.levels| == MAX_HEIGHT && level < MAX_HEIGHT
  {
    var (i, w) := TakesOut(s, step);
    && i == level && w.TakeOut? && w.n in s.removals && Forward(s.levels[level])
    && OnSideWay(s.levels[level], s.removals[w.n], w.pred, w.n, level)
  }

  /** A remover swings its node out, but the successor it loaded is no longer
      the node's. */
  predicate Outdated(s: State, step: Step, level: nat)
    requires |s.levels| == MAX_HEIGHT && level < MAX_HEIGHT
  {
    && step.Unlink? && step.n in s.removals && s.removals[step.n].Swinging? && s.removals[step.n].level == level
    && Points(s.levels[level], s.removals[step.n].pred, step.n)
    && s.removals[step.n].link.ptr != Slot(s.levels[level], step.n).ptr
  }

  /** What a step writes at one level. */
  function WriteAt(s: State, nd: Nodes, step: Step, level: nat): Write
    requires |s.levels| == MAX_HEIGHT && Enabled(s, nd, step) && level < MAX_HEIGHT
  {
    if WriteOf(s, nd, step).0 == level then WriteOf(s, nd, step).1 else Keep
  }

  lemma WriteAtFits(s: State, nd: Nodes, step: Step, level: nat)
    requires Inv(s, nd) && Enabled(s, nd, step) && level < MAX_HEIGHT
    ensures var l, w := s.levels[level], WriteAt(s, nd, step, level);
            && Forward(l) && Sorted(l, nd.key) && CanWrite(l, w) && KeysFit(nd.key, w)
            && Apply(s, nd, step).levels[level] == DoWrite(l, w)
  {
    assert LevelOk(s, nd, level);
    WriteFits(s, nd, step);
  }

  lemma IsExactIff(s: State, nd: Nodes, step: Step, level: nat)
    requires Inv(s, nd) && Enabled(s, nd, step) && level < MAX_HEIGHT
    ensures IsExact(s.levels[level], WriteAt(s, nd, step, level)) <==> !Outdated(s, step, level)
  {
    assert LevelOk(s, nd, level);
    if step.Unlink? {
      assert RemovalOk(s, nd, step.n);
      if s.removals[step.n].Swinging? {
        assert LeadsOn(s.levels[level], step.n);
      }
    }
  }

  predicate IsOwn(step: Step, n: Node) {
    ActsOn(step, n) && (step.ReadBound? || step.Unlink? || (step.Mark? && step.level == 0))
  }

  /** The remover's own step is a pointer of its scan, at the level in question. */
  predicate ScansAt(s: State, step: Step, n: Node, level: nat) {
    step.Unlink? && step.n == n && n in s.removals && s.removals[n].Verifying? && s.removals[n].level == level
  }

  lemma ScanKeepsSafe(s: State, nd: Nodes, step: Step, n: Node, level: nat)
    requires Inv(s, nd) && Enabled(s, nd, step) && level < MAX_HEIGHT && SafeAt(s, n, level) && ScansAt(s, step, n, level)
    ensures SafeAt(Apply(s, nd, step), n, level)
  {
    assert LevelOk(s, nd, level) && LevelOk(s, nd, 0) && RemovalOk(s, nd, n);
    SortedHasNoneLarger(s.levels[level], nd.key, n);
    ScanStaysSafe(s.levels[level], nd.key, s.removals[n].cur, n);
  }

  /** The remover's other steps: while it sweeps it knows nothing, and when it
      starts to verify all is still to come. */
  lemma OwnKeepsSafe(s: State, nd: Nodes, step: Step, n: Node, level: nat)
    requires Inv(s, nd) && Enabled(s, nd, step) && level < MAX_HEIGHT && SafeAt(s, n, level)
    requires IsOwn(step, n) && !ScansAt(s, step, n, level)
    ensures SafeAt(Apply(s, nd, step), n, level)
  {
    assert LevelOk(s, nd, 0) && LevelOk(s, nd, level) && RemovalOk(s, nd, n) && InsertOk(s, nd, n, 0);
    if step.Unlink? {
      var u' := GoOn(s.levels, nd.key, n, s.removals[n]);
      if HasBound(s.removals[n]) && u'.Verifying? {
        UnlinkFits(s, nd, n);
        BeginsVerifying(s, nd, n, level);
      } else if s.removals[n].Verifying? {
        assert Apply(s, nd, step).levels[level] == s.levels[level];
      }
    }
  }

  lemma BeginsVerifying(s: State, nd: Nodes, n: Node, level: nat)
    requires Inv(s, nd) && Enabled(s, nd, Unlink(n)) && level < MAX_HEIGHT
    requires HasBound(s.removals[n]) && GoOn(s.levels, nd.key, n, s.removals[n]).Verifying?
    ensures SafeAt(Apply(s, nd, Unlink(n)), n, level)
  {
    var s' := Apply(s, nd, Unlink(n));
    assert RemovalOk(s, nd, n) && InsertOk(s, nd, n, level) && InsertOk(s, nd, n, 0) && LevelOk(s, nd, 0);
    var (i, w) := WriteOf(s, nd, Unlink(n));
    UnlinkFits(s, nd, n);
    WriteRanks(s.levels[i], w, n);
    BeginsSafe(s'.levels[level], s.removals[n].bound, n, level);
  }

  /** Anybody's other steps. */
  lemma RestStaysSafeIff(s: State, nd: Nodes, step: Step, n: Node, level: nat)
    requires Inv(s, nd) && Enabled(s, nd, step) && level < MAX_HEIGHT && SafeAt(s, n, level) && !Outdated(s, step, level)
    requires n in s.removals && !IsOwn(step, n)
    ensures SafeAt(Apply(s, nd, step), n, level) <==>
            !(Overtakes(s, step, level) && step.n == n) && !(Hides(s, step, level) && TakesOut(s, step).1.n == n)
  {
    var l, w, s' := s.levels[level], WriteAt(s, nd, step, level), Apply(s, nd, step);
    WriteAtFits(s, nd, step, level);
    IsExactIff(s, nd, step, level);
    assert RemovalOk(s, nd, n) && InsertOk(s, nd, n, 0);
    WriteStaysSafeIff(l, w, s.removals[n], n, level);
    assert s'.removals[n] == s.removals[n];
    LinkOf(s, nd, step, level);
    TakeOutOf(s, nd, step, level);
  }

  lemma TakeOutOf(s: State, nd: Nodes, step: Step, level: nat)
    requires |s.levels| == MAX_HEIGHT && Enabled(s, nd, step) && level < MAX_HEIGHT
    ensures var w, (i, t) := WriteAt(s, nd, step, level), TakesOut(s, step);
            (w.TakeOut? <==> i == level && t.TakeOut?) && (w.TakeOut? ==> w == t)
  {
  }

  /** Which step a link of a node under removal comes from. */
  lemma LinkOf(s: State, nd: Nodes, step: Step, level: nat)
    requires Inv(s, nd) && Enabled(s, nd, step) && level < MAX_HEIGHT
    ensures var w := WriteAt(s, nd, step, level);
            && (w.LinkIn? && w.n in s.removals <==>
                  step.LinkUpper? && step.n in s.removals && s.inserts[step.n].level == level)
            && (w.LinkIn? ==> step.n == w.n && (step.LinkUpper? ==> w.pred == s.inserts[step.n].pred))
  {
    if step.LinkBase? {
      assert RemovalOk(s, nd, step.n);
    }
  }

  /** The remover of a node is not scanning for it while it takes it out itself. */
  lemma OwnHidesNothing(s: State, step: Step, n: Node, level: nat)
    requires |s.levels| == MAX_HEIGHT && level < MAX_HEIGHT && IsOwn(step, n)
    ensures !(Hides(s, step, level) && TakesOut(s, step).1.n == n) && !Overtakes(s, step, level)
  {
  }

  /** One step keeps what the remover of `n` knows about a level exactly if it
      neither overtakes nor hides `n` there. */
  lemma StaysSafeIff(s: State, nd: Nodes, step: Step, n: Node, level: nat)
    requires Inv(s, nd) && Enabled(s, nd, step) && level < MAX_HEIGHT && SafeAt(s, n, level) && !Outdated(s, step, level)
    ensures SafeAt(Apply(s, nd, step), n, level) <==>
            !(Overtakes(s, step, level) && step.n == n) && !(Hides(s, step, level) && TakesOut(s, step).1.n == n)
  {
    if IsOwn(step, n) {
      OwnHidesNothing(s, step, n, level);
      if ScansAt(s, step, n, level) {
        ScanKeepsSafe(s, nd, step, n, level);
      } else {
        OwnKeepsSafe(s, nd, step, n, level);
      }
    } else if n in s.removals {
      RestStaysSafeIff(s, nd, step, n, level);
    } else {
      assert n !in Apply(s, nd, step).removals;
    }
  }

  /** Whatever a step takes out of the level, it takes out that and nothing
      else: no other node is lost or comes back. */
  ghost predicate StepIsExact(s: State, nd: Nodes, step: Step, level: nat)
    requires |s.levels| == MAX_HEIGHT && Enabled(s, nd, step) && level < MAX_HEIGHT
  {
    var l, m, w := s.levels[level], Apply(s, nd, step).levels[level], WriteAt(s, nd, step, level);
    w.TakeOut? && Forward(l) && Forward(m) && l.rank == m.rank ==> TakesOutOnly(l, m, w.n)
  }

  lemma StepIsExactIff(s: State, nd: Nodes, step: Step, level: nat)
    requires Inv(s, nd) && Enabled(s, nd, step) && level < MAX_HEIGHT
    ensures StepIsExact(s, nd, step, level) <==> !Outdated(s, step, level)
  {
    var l, w := s.levels[level], WriteAt(s, nd, step, level);
    WriteAtFits(s, nd, step, level);
    IsExactIff(s, nd, step, level);
    WriteKeepsForward(l, w);
    if w.TakeOut? {
      SwingIsExactIff(l, w.pred, w.n, w.succ);
    }
  }

  /** A node that was linked at a level and cannot be reached there any more
      comes back exactly if a remover, swinging from a node of the chain, swings
      to a successor from which a walk still meets it. */
  lemma ReturnsIff(s: State, nd: Nodes, step: Step, x: Node, level: nat)
    requires Inv(s, nd) && Enabled(s, nd, step) && level < MAX_HEIGHT
    requires x in s.levels[level].rank && Forward(s.levels[level]) && !Reached(s.levels[level], x)
    ensures var l, m, w := s.levels[level], Apply(s, nd, step).levels[level], WriteAt(s, nd, step, level);
            && Forward(m)
            && (Reached(m, x) <==> w.TakeOut? && Reached(l, w.pred) && w.succ in l.rank && x in Walked(l, w.succ))
            && (Reached(m, x) ==> Outdated(s, step, level))
  {
    var l, w := s.levels[level], WriteAt(s, nd, step, level);
    WriteAtFits(s, nd, step, level);
    IsExactIff(s, nd, step, level);
    WriteKeepsForward(l, w);
    if IsQuiet(w) {
      QuietWalks(l, w, HEAD);
    } else if w.LinkIn? {
      LinkWalks(l, w.pred, w.succ, w.n, HEAD);
    } else {
      SwingWalks(l, w.pred, w.n, w.succ, HEAD, x);
      if IsExact(l, w) {
        ExactSwingWalks(l, w.pred, w.n, HEAD, x);
      }
    }
  }

  // ------------------------------------------------------------------
  // Over whole runs
  // ------------------------------------------------------------------

  ghost predicate Safe(s: State, level: nat)
    requires |s.levels| == MAX_HEIGHT && level < MAX_HEIGHT
  {
    forall n :: SafeAt(s, n, level)
  }

  ghost predicate Spoils(s: State, step: Step, level: nat)
    requires |s.levels| == MAX_HEIGHT && level < MAX_HEIGHT
  {
    Overtakes(s, step, level) || Hides(s, step, level) || Outdated(s, step, level)
  }

  lemma StepIsSafeIff(s: State, nd: Nodes, step: Step, level: nat)
    requires Inv(s, nd) && Enabled(s, nd, step) && level < MAX_HEIGHT && Safe(s, level)
    ensures Safe(Apply(s, nd, step), level) && StepIsExact(s, nd, step, level) <==> !Spoils(s, step, level)
  {
    StepIsExactIff(s, nd, step, level);
    if !Outdated(s, step, level) {
      forall n
        ensures SafeAt(Apply(s, nd, step), n, level) <==>
                !(Overtakes(s, step, level) && step.n == n) && !(Hides(s, step, level) && TakesOut(s, step).1.n == n)
      {
        assert SafeAt(s, n, level);
        StaysSafeIff(s, nd, step, n, level);
      }
      if Overtakes(s, step, level) {
        assert !SafeAt(Apply(s, nd, step), step.n, level);
      }
      if Hides(s, step, level) {
        assert !SafeAt(Apply(s, nd, step), TakesOut(s, step).1.n, level);
      }
    }
  }

  ghost predicate SpoiledBy(nd: Nodes, run: seq<Step>, i: nat, level: nat)
    requires IsRun(Init(), nd, run) && i < |run| && level < MAX_HEIGHT
  {
    Spoils(After(Init(), nd, run, i), run[i], level)
  }

  ghost predicate NeverSpoiled(nd: Nodes, run: seq<Step>, k: nat, level: nat)
    requires IsRun(Init(), nd, run) && k <= |run| && level < MAX_HEIGHT
  {
    k == 0 || (NeverSpoiled(nd, run, k - 1, level) && !SpoiledBy(nd, run, k - 1, level))
  }

  ghost predicate SafeUntil(nd: Nodes, run: seq<Step>, i: nat, level: nat)
    requires IsRun(Init(), nd, run) && i <= |run| && level < MAX_HEIGHT
  {
    Safe(After(Init(), nd, run, i), level)
  }

  ghost predicate ExactAt(nd: Nodes, run: seq<Step>, i: nat, level: nat)
    requires IsRun(Init(), nd, run) && i < |run| && level < MAX_HEIGHT
  {
    Enabled(After(Init(), nd, run, i), nd, run[i]) && StepIsExact(After(Init(), nd, run, i), nd, run[i], level)
  }

  /** In every state up to the `k`-th all findings are true, and all unlinks on
      the way there are exact. */
  ghost predicate AllWell(nd: Nodes, run: seq<Step>, k: nat, level: nat)
    requires IsRun(Init(), nd, run) && k <= |run| && level < MAX_HEIGHT
  {
    SafeUntil(nd, run, k, level) && (k == 0 || (ExactAt(nd, run, k - 1, level) && AllWell(nd, run, k - 1, level)))
  }

  /** Over whole runs: what removers find out about a level stays true, and all
      their unlinks are exact there, if and only if no step overtakes, hides or
      is outdated. */
  lemma {:induction false} RunIsSafeIff(nd: Nodes, run: seq<Step>, k: nat, level: nat)
    requires IsRun(Init(), nd, run) && k <= |run| && level < MAX_HEIGHT
    ensures AllWell(nd, run, k, level) <==> NeverSpoiled(nd, run, k, level)
  {
    if k == 0 {
      StartIsSafe(nd, run, level);
    } else {
      RunIsSafeIff(nd, run, k - 1, level);
      if SafeUntil(nd, run, k - 1, level) {
        NextIsSafeIff(nd, run, k - 1, level);
      }
    }
  }

  lemma StartIsSafe(nd: Nodes, run: seq<Step>, level: nat)
    requires IsRun(Init(), nd, run) && level < MAX_HEIGHT
    ensures SafeUntil(nd, run, 0, level)
  {
  }

  lemma NextIsSafeIff(nd: Nodes, run: seq<Step>, k: nat, level: nat)
    requires IsRun(Init(), nd, run) && k < |run| && level < MAX_HEIGHT && SafeUntil(nd, run, k, level)
    ensures SafeUntil(nd, run, k + 1, level) && ExactAt(nd, run, k, level) <==> !SpoiledBy(nd, run, k, level)
  {
    InitInv(nd);
    RunKeepsInv(Init(), nd, run, k);
    RunStep(Init(), nd, run, k);
    StepIsSafeIff(After(Init(), nd, run, k), nd, run[k], level);
  }

  /** At level 0 nothing is ever spoiled, erased marks or not. */
  lemma {:induction false} LevelZeroNeverSpoiled(nd: Nodes, run: seq<Step>, k: nat)
    requires IsRun(Init(), nd, run) && k <= |run|
    ensures NeverSpoiled(nd, run, k, 0)
  {
    if k > 0 {
      LevelZeroNeverSpoiled(nd, run, k - 1);
      InitInv(nd);
      RunKeepsInv(Init(), nd, run, k - 1);
      RunStep(Init(), nd, run, k - 1);
      assert LevelOk(After(Init(), nd, run, k - 1), nd, 0);
      ChainIsNotSpoiled(After(Init(), nd, run, k - 1), nd, run[k - 1], 0);
    }
  }

  /** A level that is a chain, and from which only marked nodes are swung out,
      can only be overtaken. */
  lemma ChainIsNotSpoiled(s: State, nd: Nodes, step: Step, level: nat)
    requires Inv(s, nd) && Enabled(s, nd, step) && level < MAX_HEIGHT && Valid(s.levels[level], nd.key)
    requires level == 0 || forall n :: SwingKept(s, n)
    ensures !Hides(s, step, level) && !Outdated(s, step, level)
    ensures level == 0 ==> !Overtakes(s, step, level)
  {
    var (i, w) := TakesOut(s, step);
    if i == level && w.TakeOut? {
      LinkedIsReached(s.levels[level], nd.key, w.pred);
      WriteFits(s, nd, step);
    }
    if step.Unlink? {
      assert RemovalOk(s, nd, step.n) && (level > 0 ==> SwingKept(s, step.n));
    }
    if step.LinkUpper? {
      assert InsertOk(s, nd, step.n, 0);
    }
  }

  predicate IsRetired(s: State, n: Node) {
    n in s.removals && s.removals[n].Retired?
  }

  /** A retired node cannot be reached from the head at any level at which
      nothing was spoiled -- so never at level 0. */
  lemma RetiredIsUnreachable(nd: Nodes, run: seq<Step>, k: nat, n: Node, level: nat)
    requires IsRun(Init(), nd, run) && k <= |run| && level < MAX_HEIGHT
    requires IsRetired(After(Init(), nd, run, k), n)
    requires level == 0 || NeverSpoiled(nd, run, k, level)
    ensures !Reachable(After(Init(), nd, run, k).levels[level], n)
  {
    InitInv(nd);
    var s := After(Init(), nd, run, k);
    if level == 0 {
      LevelZeroNeverSpoiled(nd, run, k);
    }
    RunIsSafeIff(nd, run, k, level);
    assert AllWell(nd, run, k, level) && SafeUntil(nd, run, k, level) && SafeAt(s, n, level);
    RunKeepsInv(Init(), nd, run, k);
    assert LevelOk(s, nd, level);
    ReachedIsReachable(s.levels[level], n);
  }

  // ------------------------------------------------------------------
  // Who can rule it out
  // ------------------------------------------------------------------

  /** While no mark has been erased, overtaking is all that can happen. */
  lemma UnerasedIsOnlyOvertaken(nd: Nodes, run: seq<Step>, i: nat, level: nat)
    requires IsRun(Init(), nd, run) && i < |run| && level < MAX_HEIGHT && NeverErases(nd, run, i)
    ensures SpoiledBy(nd, run, i, level) <==> Overtakes(After(Init(), nd, run, i), run[i], level)
  {
    RunKeepsKept(nd, run, i);
    RunStep(Init(), nd, run, i);
    ChainIsNotSpoiled(After(Init(), nd, run, i), nd, run[i], level);
  }

  /** The insert of `n` has nothing left to link. */
  predicate InsertReturned(s: State, nd: Nodes, n: Node) {
    n in s.inserts && (s.inserts[n].Finished? || (s.inserts[n].Linking? && nd.height(n) < s.inserts[n].level))
  }

  /** A run in which nodes are only marked once their insert has returned. */
  ghost predicate RemovesOnlyInserted(nd: Nodes, run: seq<Step>, k: nat)
    requires IsRun(Init(), nd, run) && k <= |run|
  {
    forall i :: 0 <= i < k && run[i].Mark? ==> InsertReturned(After(Init(), nd, run, i), nd, run[i].n)
  }

  ghost predicate RemovalsFollowInserts(s: State, nd: Nodes) {
    forall n <- s.passed.Keys :: InsertReturned(s, nd, n)
  }

  lemma ReturnedStays(s: State, nd: Nodes, step: Step, n: Node)
    requires Inv(s, nd) && Enabled(s, nd, step) && InsertReturned(s, nd, n)
    ensures InsertReturned(Apply(s, nd, step), nd, n)
  {
    assert InsertOk(s, nd, n, 0) && InsertOk(s, nd, n, 1);
  }

  lemma StepKeepsRemovalsFollowInserts(s: State, nd: Nodes, step: Step)
    requires Inv(s, nd) && Enabled(s, nd, step) && RemovalsFollowInserts(s, nd)
    requires step.Mark? ==> InsertReturned(s, nd, step.n)
    ensures RemovalsFollowInserts(Apply(s, nd, step), nd)
    ensures !Erases(s, step)
    ensures forall level :: 0 <= level < MAX_HEIGHT ==> !Overtakes(s, step, level)
  {
    var s' := Apply(s, nd, step);
    forall n | n in s'.passed
      ensures InsertReturned(s', nd, n)
    {
      ReturnedStays(s, nd, step, if n in s.passed then n else step.n);
    }
    if step.StoreSlot? {
      assert InsertOk(s, nd, step.n, 0) && PassedOk(s, nd, step.n, s.inserts[step.n].level);
    }
    if step.LinkUpper? {
      assert PassedOk(s, nd, step.n, 0);
    }
  }

  lemma NextFollows(nd: Nodes, run: seq<Step>, k: nat)
    requires IsRun(Init(), nd, run) && k < |run| && RemovalsFollowInserts(After(Init(), nd, run, k), nd)
    requires run[k].Mark? ==> InsertReturned(After(Init(), nd, run, k), nd, run[k].n)
    ensures RemovalsFollowInserts(After(Init(), nd, run, k + 1), nd) && !Erases(After(Init(), nd, run, k), run[k])
    ensures forall level :: 0 <= level < MAX_HEIGHT ==> !Overtakes(After(Init(), nd, run, k), run[k], level)
  {
    InitInv(nd);
    RunKeepsInv(Init(), nd, run, k);
    RunStep(Init(), nd, run, k);
    StepKeepsRemovalsFollowInserts(After(Init(), nd, run, k), nd, run[k]);
  }

  /** Callers none of whom ever removes a node before its insert has returned
      see nothing of this: no mark is erased, and at no level is anything
      spoiled.  (One such remove is enough to endanger other nodes too.) */
  lemma {:induction false} InsertedFirstIsNeverSpoiled(nd: Nodes, run: seq<Step>, k: nat, level: nat)
    requires IsRun(Init(), nd, run) && k <= |run| && RemovesOnlyInserted(nd, run, k) && level < MAX_HEIGHT
    ensures RemovalsFollowInserts(After(Init(), nd, run, k), nd)
    ensures NeverErases(nd, run, k) && NeverSpoiled(nd, run, k, level)
    decreases k
  {
    InitInv(nd);
    if k > 0 {
      InsertedFirstIsNeverSpoiled(nd, run, k - 1, level);
      NextFollows(nd, run, k - 1);
      UnerasedIsOnlyOvertaken(nd, run, k - 1, level);
    }
  }
}
