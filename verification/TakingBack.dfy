/**
  What becomes of a node that is promoted and removed at the same time.

  Once the promotion has ended and the remove has retired the node, no walk
  from the head may meet it, at any level.  For the levels it had before, the
  remover's last scan says so; for the new one, the promoter's swing back or its
  own scan, or the remover's scan if the promotion was over before level 0 was
  marked.  Three kinds of step can spoil it, all in the code:

  - the promoter loads the node's pointer and swings the predecessor over to it
    later; a pointer written in between is lost (`Outdated`);
  - the predecessor it swings has itself been taken off the level, while the
    node is still met on another way (`Aside`);
  - the node is taken out from behind such a predecessor, on the way its own
    scan is taking (`Hides`).

  `RunIsSafeIff` says that there are no others, and that each does harm.
 */
module TakingBack {
  import opened LevelChain
  import opened Removing
  import opened Promotion
  import Retirement

  /** The remover's unlink, as far as it has come. */
  function RemSearch(r: Remover): Removal {
    if r.Unlinking? then r.unlink else Starting
  }

  /** Whose findings count at a level: at the new one, first the promoter's. */
  function Search(p: Promoter, r: Remover, isNew: bool): Removal {
    if !isNew then RemSearch(r) else
      match p
      case Again(_, u) => u
      case Done(tookBack) => if tookBack then Retired else RemSearch(r)
      case _ => Starting
  }

  ghost predicate Known(s: State, c: Setting, level: nat)
    requires |s.levels| == MAX_HEIGHT && level < MAX_HEIGHT
  {
    Forward(s.levels[level]) ==> Retirement.KnownSafe(s.levels[level], Search(s.prom, s.rem, level == c.h + 1), c.n, level)
  }

  /** What a step writes at one level. */
  function WriteAt(s: State, c: Setting, step: Step, level: nat): Write
    requires |s.levels| == MAX_HEIGHT && c.h + 1 < MAX_HEIGHT && level < MAX_HEIGHT
  {
    if WriteOf(s, c, step).0 == level then WriteOf(s, c, step).1 else Keep
  }

  // ------------------------------------------------------------------
  // The steps that do harm
  // ------------------------------------------------------------------

  /** A node is swung out to a pointer that is no longer its own. */
  predicate Outdated(s: State, c: Setting, step: Step, level: nat)
    requires |s.levels| == MAX_HEIGHT && c.h + 1 < MAX_HEIGHT && level < MAX_HEIGHT
  {
    var w := WriteAt(s, c, step, level);
    w.TakeOut? && w.n in s.levels[level].next && w.succ != s.levels[level].next[w.n].ptr
  }

  /** The node is taken out from behind a node off the chain, on the way its
      scan is taking. */
  ghost predicate Hides(s: State, c: Setting, step: Step, level: nat)
    requires |s.levels| == MAX_HEIGHT && c.h + 1 < MAX_HEIGHT && level < MAX_HEIGHT
  {
    var w := WriteAt(s, c, step, level);
    && w.TakeOut? && w.n == c.n && Forward(s.levels[level])
    && Retirement.OnSideWay(s.levels[level], Search(s.prom, s.rem, level == c.h + 1), w.pred, c.n, level)
  }

  /** The promoter takes the node back from a predecessor off the chain, while
      the node is on it. */
  ghost predicate Aside(s: State, c: Setting, step: Step, level: nat)
    requires |s.levels| == MAX_HEIGHT && c.h + 1 < MAX_HEIGHT && level < MAX_HEIGHT
  {
    var l := s.levels[level];
    && step.Promote? && s.prom.Undoing? && level == c.h + 1 && Points(l, s.prom.pred, c.n) && Forward(l)
    && !Reached(l, s.prom.pred) && Reached(l, c.n)
  }

  ghost predicate Spoils(s: State, c: Setting, step: Step, level: nat)
    requires |s.levels| == MAX_HEIGHT && c.h + 1 < MAX_HEIGHT && level < MAX_HEIGHT
  {
    Outdated(s, c, step, level) || Hides(s, c, step, level) || Aside(s, c, step, level)
  }

  // ------------------------------------------------------------------
  // Scans of a level that may be out of order
  // ------------------------------------------------------------------

  /** Behind a key larger than the node's, all keys are. */
  lemma {:induction false} StaysLarger(l: Level, key: Node -> int, n: Node, calm: bool, x: Node, y: Node)
    requires Forward(l) && Ordered(l, key, n, calm) && x in l.rank && y in Walked(l, x) && Compare(key, x, n) > 0
    ensures Compare(key, y, n) > 0
    decreases assert LeadsOn(l, x); l.rank[TAIL] - l.rank[x]
  {
    assert LeadsOn(l, x) && OrderedAt(l, key, n, calm, x) && RisesAt(l, key, x);
    if x != TAIL && x != y {
      assert LeadsOn(l, l.next[x].ptr);
      StaysLarger(l, key, n, calm, l.next[x].ptr, y);
    }
  }

  lemma NoneIsLarger(l: Level, key: Node -> int, n: Node, calm: bool)
    requires Forward(l) && Ordered(l, key, n, calm)
    ensures Retirement.NoneLarger(l, key, n)
  {
    forall x | x in l.rank && n in Walked(l, x)
      ensures Compare(key, x, n) <= 0
    {
      if Compare(key, x, n) > 0 {
        StaysLarger(l, key, n, calm, x, n);
      }
    }
  }

  // ------------------------------------------------------------------
  // One step
  // ------------------------------------------------------------------

  lemma WriteAtFits(s: State, c: Setting, step: Step, level: nat)
    requires Inv(s, c) && Enabled(s, c, step) && level < MAX_HEIGHT
    ensures var l, w := s.levels[level], WriteAt(s, c, step, level);
            && Forward(l) && CanWrite(l, w) && Apply(s, c, step).levels[level] == DoWrite(l, w)
            && (Retirement.IsExact(l, w) <==> !Outdated(s, c, step, level))
            && (w.LinkIn? && w.n == c.n ==> level == c.h + 1 && s.prom.Publishing?)
  {
    var l, w := s.levels[level], WriteAt(s, c, step, level);
    assert LevelOk(l, c, s.upset, level);
    WriteFits(s, c, step);
    if w.TakeOut? {
      assert LeadsOn(l, w.n);
    }
  }

  lemma CurInRank(s: State, c: Setting, level: nat)
    requires Inv(s, c) && level < MAX_HEIGHT
    ensures var r := Search(s.prom, s.rem, level == c.h + 1);
            r.Verifying? ==> r.level < MAX_HEIGHT && r.cur in s.levels[r.level].rank && r.cur != TAIL
  {
  }

  /** Where nobody's findings change, only the write matters. */
  lemma SameSearchIff(s: State, c: Setting, step: Step, level: nat)
    requires Inv(s, c) && Enabled(s, c, step) && level < MAX_HEIGHT && Known(s, c, level)
    requires !Outdated(s, c, step, level)
    requires var s' := Apply(s, c, step);
             Search(s'.prom, s'.rem, level == c.h + 1) == Search(s.prom, s.rem, level == c.h + 1)
    ensures Known(Apply(s, c, step), c, level) <==> !Hides(s, c, step, level)
  {
    WriteAtFits(s, c, step, level);
    CurInRank(s, c, level);
    var w := WriteAt(s, c, step, level);
    Retirement.WriteStaysSafeIff(s.levels[level], w, Search(s.prom, s.rem, level == c.h + 1), c.n, level);
  }

  /** A pointer of a scan, or its conclusion. */
  lemma ScanKeepsSafe(s: State, c: Setting, u: Removal, level: nat)
    requires Inv(s, c) && level < MAX_HEIGHT && u.Verifying? && u.level < MAX_HEIGHT
    requires StandsOk(s.levels[u.level], c.n, u)
    requires Forward(s.levels[level]) && Retirement.KnownSafe(s.levels[level], u, c.n, level)
    ensures Retirement.KnownSafe(s.levels[level], GoOn(s.levels, c.key, c.n, u), c.n, level)
  {
    var l := s.levels[level];
    if u.level == level {
      assert LevelOk(l, c, s.upset, level);
      NoneIsLarger(l, c.key, c.n, Calm(s.upset, c, level));
      Retirement.ScanStaysSafe(l, c.key, u.cur, c.n);
    }
  }

  /** An unlink starts to verify no lower than the node's top level, and knows
      nothing before. */
  lemma SweepKeepsSafe(s: State, c: Setting, m: Level, height: nat, u: Removal, level: nat)
    requires |s.levels| == MAX_HEIGHT && HasBound(u) && RangeOk(height, u) && level < MAX_HEIGHT && c.n != HEAD
    requires Forward(m) && (level > height ==> c.n !in m.rank)
    ensures Retirement.KnownSafe(m, GoOn(s.levels, c.key, c.n, u), c.n, level)
  {
    Retirement.BeginsSafe(m, u.bound, c.n, level);
  }

  /** Nothing is claimed while the node is being swept out. */
  lemma SweepingIsSafe(s: State, c: Setting, level: nat)
    requires |s.levels| == MAX_HEIGHT && level < MAX_HEIGHT
    requires var r := Search(s.prom, s.rem, level == c.h + 1); !r.Verifying? && !r.Retired?
    ensures Known(s, c, level)
  {
  }

  /** The step is a step of the unlink whose findings count at the level. */
  predicate Advances(s: State, c: Setting, step: Step, level: nat) {
    || (step.PromoterUnlinks? && level == c.h + 1)
    || (step.RemoverUnlinks? && (level != c.h + 1 || s.prom == Done(false)))
  }

  lemma AdvanceKeepsKnown(s: State, c: Setting, step: Step, level: nat)
    requires Inv(s, c) && Enabled(s, c, step) && level < MAX_HEIGHT && Known(s, c, level) && Advances(s, c, step, level)
    ensures Known(Apply(s, c, step), c, level)
  {
    var u := if step.PromoterUnlinks? then s.prom.unlink else s.rem.unlink;
    var height := if step.PromoterUnlinks? then s.prom.height else s.rem.height;
    var w := WriteAt(s, c, step, level);
    WriteAtFits(s, c, step, level);
    if u.Verifying? {
      ScanKeepsKnown(s, c, step, level);
    } else {
      WriteKeepsForward(s.levels[level], w);
      LinkedToHeight(s, c, step, level);
      SweepKeepsSafe(s, c, DoWrite(s.levels[level], w), height, u, level);
    }
  }

  lemma ScanKeepsKnown(s: State, c: Setting, step: Step, level: nat)
    requires Inv(s, c) && Enabled(s, c, step) && level < MAX_HEIGHT && Known(s, c, level) && Advances(s, c, step, level)
    requires (if step.PromoterUnlinks? then s.prom.unlink else s.rem.unlink).Verifying?
    ensures Known(Apply(s, c, step), c, level)
  {
    assert Apply(s, c, step).levels[level] == s.levels[level];
    ScanKeepsSafe(s, c, if step.PromoterUnlinks? then s.prom.unlink else s.rem.unlink, level);
  }

  lemma LinkedToHeight(s: State, c: Setting, step: Step, level: nat)
    requires Inv(s, c) && Enabled(s, c, step) && level < MAX_HEIGHT && Advances(s, c, step, level)
    ensures var height := if step.PromoterUnlinks? then s.prom.height else s.rem.height;
            level > height ==> c.n !in DoWrite(s.levels[level], WriteAt(s, c, step, level)).rank
  {
    WriteAtFits(s, c, step, level);
    WriteRanks(s.levels[level], WriteAt(s, c, step, level), c.n);
    assert LevelOk(s.levels[level], c, s.upset, level);
  }

  /** An unlink that is advanced is not scanning while it swings. */
  lemma AdvanceHidesNothing(s: State, c: Setting, step: Step, level: nat)
    requires Inv(s, c) && level < MAX_HEIGHT && Advances(s, c, step, level)
    ensures !Hides(s, c, step, level) && !Aside(s, c, step, level)
  {
  }

  /** After an exact swing a node is off the chain exactly if it was not on it, or
      the predecessor was on it too. */
  lemma TakenBackIff(l: Level, pred: Node, n: Node)
    requires Forward(l) && n in l.next && CanSwing(l, pred, n, l.next[n].ptr)
    ensures Forward(DoSplice(l, pred, n))
    ensures Reached(DoSplice(l, pred, n), n) <==> Reached(l, n) && !Reached(l, pred)
  {
    SwingKeepsForward(l, pred, n, l.next[n].ptr);
    ExactSwingWalks(l, pred, n, HEAD, n);
  }

  /** The promoter's own steps that decide about the new level. */
  lemma PromoteStaysSafeIff(s: State, c: Setting, level: nat)
    requires Inv(s, c) && Enabled(s, c, Promote) && level < MAX_HEIGHT && Known(s, c, level)
    requires !Outdated(s, c, Promote, level)
    ensures Known(Apply(s, c, Promote), c, level) <==> !Hides(s, c, Promote, level) && !Aside(s, c, Promote, level)
  {
    if level != c.h + 1 {
      SameSearchIff(s, c, Promote, level);
    } else if s.prom.Undoing? && Points(s.levels[level], s.prom.pred, c.n) {
      UndoStaysSafeIff(s, c);
    } else {
      PromoteOnIsSafe(s, c);
    }
  }

  lemma UndoStaysSafeIff(s: State, c: Setting)
    requires Inv(s, c) && Known(s, c, c.h + 1) && !Outdated(s, c, Promote, c.h + 1)
    requires s.prom.Undoing? && Points(s.levels[c.h + 1], s.prom.pred, c.n)
    ensures Known(Apply(s, c, Promote), c, c.h + 1) <==> !Hides(s, c, Promote, c.h + 1) && !Aside(s, c, Promote, c.h + 1)
  {
    WriteAtFits(s, c, Promote, c.h + 1);
    TakenBackIff(s.levels[c.h + 1], s.prom.pred, c.n);
  }

  lemma PromoteOnIsSafe(s: State, c: Setting)
    requires Inv(s, c) && Enabled(s, c, Promote) && Known(s, c, c.h + 1) && !Outdated(s, c, Promote, c.h + 1)
    requires !(s.prom.Undoing? && Points(s.levels[c.h + 1], s.prom.pred, c.n))
    ensures Known(Apply(s, c, Promote), c, c.h + 1) <==> !Hides(s, c, Promote, c.h + 1) && !Aside(s, c, Promote, c.h + 1)
  {
    var l, s' := s.levels[c.h + 1], Apply(s, c, Promote);
    WriteAtFits(s, c, Promote, c.h + 1);
    if s.prom.Reverting? {
      assert c.n !in l.rank && s'.levels[c.h + 1] == l;
    }
  }

  /** One step keeps what is known about a level exactly if it neither hides the
      node nor takes it back aside. */
  lemma StaysSafeIff(s: State, c: Setting, step: Step, level: nat)
    requires Inv(s, c) && Enabled(s, c, step) && level < MAX_HEIGHT && Known(s, c, level)
    requires !Outdated(s, c, step, level)
    ensures Known(Apply(s, c, step), c, level) <==> !Hides(s, c, step, level) && !Aside(s, c, step, level)
  {
    if step.Promote? {
      PromoteStaysSafeIff(s, c, level);
    } else if Advances(s, c, step, level) {
      AdvanceHidesNothing(s, c, step, level);
      AdvanceKeepsKnown(s, c, step, level);
    } else if step.PromoterReadsBound? && level == c.h + 1 {
      SweepingIsSafe(Apply(s, c, step), c, level);
    } else if step.RemoverReadsBound? && (level != c.h + 1 || s.prom == Done(false)) {
      SweepingIsSafe(Apply(s, c, step), c, level);
    } else {
      SameSearchIff(s, c, step, level);
    }
  }

  // ------------------------------------------------------------------
  // The other nodes
  // ------------------------------------------------------------------

  /** Every walk meets the same nodes as before, `n` apart. */
  ghost predicate SameBut(l: Level, m: Level, n: Node)
    requires Forward(l) && Forward(m) && l.rank.Keys <= m.rank.Keys
  {
    forall x, y :: x in l.rank && y != n ==> (y in Walked(m, x) <==> y in Walked(l, x))
  }

  ghost predicate IsExactChange(l: Level, m: Level, w: Write) {
    Forward(l) && Forward(m) && l.rank.Keys <= m.rank.Keys ==> SameBut(l, m, if w.LinkIn? || w.TakeOut? then w.n else HEAD)
  }

  /** Whatever a step links or takes out, it links or takes out that and nothing
      else. */
  ghost predicate StepIsExact(s: State, c: Setting, step: Step, level: nat)
    requires |s.levels| == MAX_HEIGHT && c.h + 1 < MAX_HEIGHT && Enabled(s, c, step) && level < MAX_HEIGHT
  {
    var l, m, w := s.levels[level], Apply(s, c, step).levels[level], WriteAt(s, c, step, level);
    IsExactChange(l, m, w)
  }

  lemma LinkIsExact(l: Level, pred: Node, succ: Node, n: Node)
    requires Forward(l) && CanLink(l, pred, succ, n) && Forward(DoLink(l, pred, n))
    ensures SameBut(l, DoLink(l, pred, n), n)
  {
    forall x, y | x in l.rank && y != n
      ensures y in Walked(DoLink(l, pred, n), x) <==> y in Walked(l, x)
    {
      LinkWalks(l, pred, succ, n, x);
    }
  }

  lemma QuietIsExact(l: Level, w: Write)
    requires Forward(l) && CanWrite(l, w) && Retirement.IsQuiet(w) && Forward(DoWrite(l, w))
    ensures SameBut(l, DoWrite(l, w), HEAD)
  {
    forall x, y | x in l.rank && y != HEAD
      ensures y in Walked(DoWrite(l, w), x) <==> y in Walked(l, x)
    {
      Retirement.QuietWalks(l, w, x);
    }
  }

  /** The promoter's undo, like every other unlink, leaves all other nodes where
      they are if and only if nobody has moved the node's pointer between the
      load and the swing. */
  lemma StepIsExactIff(s: State, c: Setting, step: Step, level: nat)
    requires Inv(s, c) && Enabled(s, c, step) && level < MAX_HEIGHT
    ensures StepIsExact(s, c, step, level) <==> !Outdated(s, c, step, level)
  {
    var l, w := s.levels[level], WriteAt(s, c, step, level);
    WriteAtFits(s, c, step, level);
    WriteKeepsForward(l, w);
    if w.TakeOut? {
      SwingIsExactIff(l, w.pred, w.n, w.succ);
      assert SameBut(l, DoWrite(l, w), w.n) <==> TakesOutOnly(l, DoWrite(l, w), w.n);
    } else if w.LinkIn? {
      LinkIsExact(l, w.pred, w.succ, w.n);
    } else {
      QuietIsExact(l, w);
    }
  }

  // ------------------------------------------------------------------
  // Over whole runs
  // ------------------------------------------------------------------

  lemma StepIsSafeIff(s: State, c: Setting, step: Step, level: nat)
    requires Inv(s, c) && Enabled(s, c, step) && level < MAX_HEIGHT && Known(s, c, level)
    ensures Known(Apply(s, c, step), c, level) && StepIsExact(s, c, step, level) <==> !Spoils(s, c, step, level)
  {
    StepIsExactIff(s, c, step, level);
    if !Outdated(s, c, step, level) {
      StaysSafeIff(s, c, step, level);
    }
  }

  ghost predicate GoesWell(s: State, c: Setting, run: seq<Step>, k: nat, level: nat)
    requires |s.levels| == MAX_HEIGHT && c.h + 1 < MAX_HEIGHT && IsRun(s, c, run)
    requires k < |run| && level < MAX_HEIGHT
  {
    IsExactChange(After(s, c, run, k).levels[level], After(s, c, run, k + 1).levels[level],
                  WriteAt(After(s, c, run, k), c, run[k], level))
  }

  /** In every state up to the `k`-th what is known about the level is true, and
      every step on the way was exact. */
  ghost predicate AllWell(s: State, c: Setting, run: seq<Step>, k: nat, level: nat)
    requires |s.levels| == MAX_HEIGHT && c.h + 1 < MAX_HEIGHT && IsRun(s, c, run) && k <= |run| && level < MAX_HEIGHT
  {
    && Known(After(s, c, run, k), c, level)
    && (k == 0 || (GoesWell(s, c, run, k - 1, level) && AllWell(s, c, run, k - 1, level)))
  }

  ghost predicate NeverSpoiled(s: State, c: Setting, run: seq<Step>, k: nat, level: nat)
    requires |s.levels| == MAX_HEIGHT && c.h + 1 < MAX_HEIGHT && IsRun(s, c, run) && k <= |run| && level < MAX_HEIGHT
  {
    k == 0 || (!Spoils(After(s, c, run, k - 1), c, run[k - 1], level) && NeverSpoiled(s, c, run, k - 1, level))
  }

  /** The `k`-th step does harm exactly if it is one of the three. */
  ghost predicate NextIffUnspoiled(s: State, c: Setting, run: seq<Step>, k: nat, level: nat)
    requires |s.levels| == MAX_HEIGHT && c.h + 1 < MAX_HEIGHT && IsRun(s, c, run) && k < |run| && level < MAX_HEIGHT
  {
    Known(After(s, c, run, k), c, level) ==>
      (Known(After(s, c, run, k + 1), c, level) && GoesWell(s, c, run, k, level) <==>
         !Spoils(After(s, c, run, k), c, run[k], level))
  }

  lemma {:induction false} WellIsUnspoiled(s: State, c: Setting, run: seq<Step>, k: nat, level: nat)
    requires |s.levels| == MAX_HEIGHT && c.h + 1 < MAX_HEIGHT && IsRun(s, c, run) && k <= |run| && level < MAX_HEIGHT
    requires forall i :: 0 <= i < k ==> NextIffUnspoiled(s, c, run, i, level)
    requires AllWell(s, c, run, k, level)
    ensures NeverSpoiled(s, c, run, k, level)
  {
    if k > 0 {
      WellIsUnspoiled(s, c, run, k - 1, level);
      assert NextIffUnspoiled(s, c, run, k - 1, level);
    }
  }

  lemma {:induction false} UnspoiledIsWell(s: State, c: Setting, run: seq<Step>, k: nat, level: nat)
    requires |s.levels| == MAX_HEIGHT && c.h + 1 < MAX_HEIGHT && IsRun(s, c, run) && k <= |run| && level < MAX_HEIGHT
    requires Known(After(s, c, run, 0), c, level) && forall i :: 0 <= i < k ==> NextIffUnspoiled(s, c, run, i, level)
    requires NeverSpoiled(s, c, run, k, level)
    ensures AllWell(s, c, run, k, level)
  {
    if k > 0 {
      UnspoiledIsWell(s, c, run, k - 1, level);
      assert NextIffUnspoiled(s, c, run, k - 1, level);
    }
  }

  /** Over whole runs, at every level: what the promoter and the remover find out
      about the node is true in every state, and no step ever touches any other
      node, if and only if no step is outdated, hides, or takes back aside. */
  lemma RunIsSafeIff(s: State, c: Setting, run: seq<Step>, k: nat, level: nat)
    requires Start(s, c) && IsRun(s, c, run) && k <= |run| && level < MAX_HEIGHT
    ensures AllWell(s, c, run, k, level) <==> NeverSpoiled(s, c, run, k, level)
  {
    StartIsSafe(s, c, run, level);
    forall i | 0 <= i < k
      ensures NextIffUnspoiled(s, c, run, i, level)
    {
      NextIsSafeIff(s, c, run, i, level);
    }
    if AllWell(s, c, run, k, level) {
      WellIsUnspoiled(s, c, run, k, level);
    }
    if NeverSpoiled(s, c, run, k, level) {
      UnspoiledIsWell(s, c, run, k, level);
    }
  }

  lemma StartIsSafe(s: State, c: Setting, run: seq<Step>, level: nat)
    requires Start(s, c) && IsRun(s, c, run) && level < MAX_HEIGHT
    ensures Known(After(s, c, run, 0), c, level)
  {
    SweepingIsSafe(s, c, level);
  }

  lemma NextIsSafeIff(s: State, c: Setting, run: seq<Step>, k: nat, level: nat)
    requires Inv(s, c) && IsRun(s, c, run) && k < |run| && level < MAX_HEIGHT
    ensures NextIffUnspoiled(s, c, run, k, level)
  {
    RunKeepsInv(s, c, run, k);
    RunStep(s, c, run, k);
    if Known(After(s, c, run, k), c, level) {
      StepIsSafeIff(After(s, c, run, k), c, run[k], level);
    }
  }

  /** The promotion is over and the remove has retired the node. */
  predicate Ended(s: State) {
    s.prom.Done? && s.rem.Unlinking? && s.rem.unlink.Retired?
  }

  /** Then the node cannot be reached at any level at which nothing was spoiled,
      the new one included. */
  lemma EndedIsUnreachable(s: State, c: Setting, run: seq<Step>, k: nat, level: nat)
    requires Start(s, c) && IsRun(s, c, run) && k <= |run| && level < MAX_HEIGHT
    requires Ended(After(s, c, run, k)) && NeverSpoiled(s, c, run, k, level)
    ensures !Reachable(After(s, c, run, k).levels[level], c.n)
  {
    var t := After(s, c, run, k);
    RunIsSafeIff(s, c, run, k, level);
    RunKeepsInv(s, c, run, k);
    assert LevelOk(t.levels[level], c, t.upset, level) && Known(t, c, level);
    ReachedIsReachable(t.levels[level], c.n);
  }
}
