/**
  The lock-free list as a step system: any number of threads inserting,
  removing and helping, one atomic access to shared memory per step.

  An insert and the removal that wins a node's level-0 mark are tracked per
  node, since each node has exactly one of either.  What a thread learned by
  reading -- a predecessor with a smaller key, a successor with a key not
  smaller -- concerns immutable keys only, so a step takes it as an argument
  and the compare-and-swap checks the rest.
 */
module LockFree {
  import opened LevelChain
  import opened Removing

  /** What never changes about the nodes: their keys, and the heights drawn by
      the coin tosses.  A height of 0 means one level. */
  datatype Nodes = Nodes(key: Node -> int, height: Node -> nat)

  /** `again` says that the insert has searched once more since it filled its
      slots; before that it links where its slots point. */
  datatype Insert =
    | Filling                                                     // private: slots are being filled
    | Linking(level: nat, again: bool)                            // linked below `level`; tests its own slot next
    | Storing(level: nat, pred: Node, succ: Node)                 // the slot was unmarked but stale; stores `succ` next
    | Publishing(level: nat, pred: Node, succ: Node, again: bool) // the slot holds `succ`; swings `pred` next
    | Finished

  /** `removals` has the nodes marked at level 0, and how far the remover that won
      that mark has come.  `passed` is auxiliary: the lowest level at which a node
      was ever marked. */
  datatype State = State(
    levels: seq<Level>,
    inserts: map<Node, Insert>,
    removals: map<Node, Removal>,
    passed: map<Node, nat>,
    headHeight: nat,
    hasDups: bool)

  datatype Step =
    | Allocate(n: Node)
    | Fill(n: Node, level: nat, succ: Node)
    | NoteDuplicate
    | LinkBase(n: Node, pred: Node, succ: Node)
    | TestSlot(n: Node, pred: Node, succ: Node)
    | StoreSlot(n: Node)
    | LinkUpper(n: Node)
    | Relocate(n: Node)
    | FinishInsert(n: Node)
    | Splice(level: nat, pred: Node, curr: Node)
    | Mark(n: Node, level: nat)
    | ReadBound(n: Node)
    | Unlink(n: Node)
    | HelpAhead(n: Node, level: nat)
    | SetHeadHeight(h: nat)

  function Init(): State {
    State(seq(MAX_HEIGHT, _ => Empty()), map[], map[], map[], 1, false)
  }

  predicate IsMarked(s: State, n: Node, level: nat)
    requires level < |s.levels|
  {
    n in s.levels[level].next && s.levels[level].next[n].marked
  }

  /** When the access a thread is about to make can happen.  A swing that
      fails is `Relocate`; a level-0 swing that fails is another `Fill`. */
  predicate Enabled(s: State, nd: Nodes, step: Step)
    requires |s.levels| == MAX_HEIGHT
  {
    match step
    case Allocate(n) =>
      n != HEAD && n != TAIL && n !in s.inserts && nd.height(n) <= MAX_HEIGHT - 2
    case Fill(n, level, succ) =>
      && n in s.inserts && s.inserts[n].Filling? && level <= nd.height(n) < MAX_HEIGHT
      && succ in s.levels[level].rank && Compare(nd.key, n, succ) <= 0
    case NoteDuplicate =>
      true
    case LinkBase(n, pred, succ) =>
      && n in s.inserts && s.inserts[n].Filling? && nd.height(n) < MAX_HEIGHT
      && (forall l :: 0 <= l <= nd.height(n) ==> n in s.levels[l].next)
      && CanLink(s.levels[0], pred, succ, n) && FitsBetween(nd.key, pred, n, succ)
      && (s.hasDups || Compare(nd.key, n, succ) < 0)
    case TestSlot(n, pred, succ) =>
      && n in s.inserts && s.inserts[n].Linking?
      && s.inserts[n].level <= nd.height(n) < MAX_HEIGHT
      && var l := s.levels[s.inserts[n].level];
      && n in l.next && pred in l.rank && succ in l.rank
      && Compare(nd.key, pred, n) < 0 && Compare(nd.key, n, succ) <= 0
      && (s.inserts[n].again || succ == l.next[n].ptr)
    case StoreSlot(n) =>
      n in s.inserts && s.inserts[n].Storing? && s.inserts[n].level < MAX_HEIGHT
    case LinkUpper(n) =>
      && n in s.inserts && s.inserts[n].Publishing? && s.inserts[n].level < MAX_HEIGHT
      && Points(s.levels[s.inserts[n].level], s.inserts[n].pred, s.inserts[n].succ)
      // by the invariant these two always hold here
      && s.inserts[n].pred in s.levels[s.inserts[n].level].rank && n !in s.levels[s.inserts[n].level].rank
    case Relocate(n) =>
      && n in s.inserts && s.inserts[n].Publishing? && s.inserts[n].level < MAX_HEIGHT
      && !Points(s.levels[s.inserts[n].level], s.inserts[n].pred, s.inserts[n].succ)
    case FinishInsert(n) =>
      n in s.inserts && s.inserts[n].Linking? && nd.height(n) < s.inserts[n].level
    case Splice(level, pred, curr) =>
      level < MAX_HEIGHT && CanSplice(s.levels[level], pred, curr)
    case Mark(n, level) =>
      // a remover goes down from the top, past levels others have marked
      && n in s.levels[0].rank && level <= nd.height(n) < MAX_HEIGHT
      && CanMark(s.levels[level], n)
      && (level == nd.height(n) || (n in s.passed && s.passed[n] <= level + 1))
    case ReadBound(n) =>
      n in s.removals && s.removals[n].Starting? && s.headHeight < MAX_HEIGHT && nd.height(n) < MAX_HEIGHT
    case Unlink(n) =>
      n in s.removals && HasLevel(s.removals[n]) && s.removals[n].level < MAX_HEIGHT
    case HelpAhead(n, level) =>
      // the insert is done linking, and looks at what its slot of a level points
      // to; where the node is linked this is a `Splice`
      && n in s.inserts && s.inserts[n].Finished? && level < MAX_HEIGHT && CanStore(s.levels[level], n)
      && n in s.levels[level].next && !s.levels[level].next[n].marked
      && Slot(s.levels[level], s.levels[level].next[n].ptr).marked
    case SetHeadHeight(h) =>
      // growing by insert; shrinking by remove, which found the level empty before
      || s.headHeight < h < MAX_HEIGHT
      || (1 < s.headHeight < MAX_HEIGHT && h == s.headHeight - 1)
  }

  /** What a step writes, and at which level. */
  function WriteOf(s: State, nd: Nodes, step: Step): (w: (nat, Write))
    requires |s.levels| == MAX_HEIGHT && Enabled(s, nd, step)
    ensures w.0 < MAX_HEIGHT
    ensures w.1.LinkIn? ==> w.1.pred in s.levels[w.0].rank && w.1.n !in s.levels[w.0].rank
    ensures w.1.SetMark? ==> w.1.n in s.levels[w.0].next
  {
    match step
    case Fill(n, i, succ) => (i, Put(n, succ))
    case LinkBase(n, pred, succ) => (0, LinkIn(pred, succ, n))
    case StoreSlot(n) => (s.inserts[n].level, Put(n, s.inserts[n].succ))
    case LinkUpper(n) => (s.inserts[n].level, LinkIn(s.inserts[n].pred, s.inserts[n].succ, n))
    case Splice(i, pred, curr) => (i, TakeOut(pred, curr, s.levels[i].next[curr].ptr))
    case Mark(n, i) => (i, SetMark(n))
    case Unlink(n) => SwingOf(s.levels, n, s.removals[n])
    case HelpAhead(n, i) => (i, Put(n, Slot(s.levels[i], s.levels[i].next[n].ptr).ptr))
    case _ => (0, Keep)
  }

  function InsertsAfter(s: State, nd: Nodes, step: Step): map<Node, Insert>
    requires |s.levels| == MAX_HEIGHT && Enabled(s, nd, step)
  {
    match step
    case Allocate(n) => s.inserts[n := Filling]
    case LinkBase(n, _, _) => s.inserts[n := Linking(1, false)]
    case TestSlot(n, pred, succ) =>
      var i := s.inserts[n].level;
      var slot := s.levels[i].next[n];
      s.inserts[n := if slot.marked then Finished
                     else if slot.ptr != succ then Storing(i, pred, succ)
                     else Publishing(i, pred, succ, s.inserts[n].again)]
    case StoreSlot(n) =>
      var Storing(i, pred, succ) := s.inserts[n];
      s.inserts[n := Publishing(i, pred, succ, true)]
    case LinkUpper(n) => s.inserts[n := Linking(s.inserts[n].level + 1, s.inserts[n].again)]
    case Relocate(n) =>
      // the swing failed: give up if the node was removed meanwhile, else retry
      s.inserts[n := if IsMarked(s, n, 0) then Finished else Linking(s.inserts[n].level, true)]
    case FinishInsert(n) => s.inserts[n := Finished]
    case _ => s.inserts
  }

  function RemovalsAfter(s: State, nd: Nodes, step: Step): map<Node, Removal>
    requires |s.levels| == MAX_HEIGHT && Enabled(s, nd, step)
  {
    match step
    case Mark(n, i) => if i == 0 then s.removals[n := Starting] else s.removals
    case ReadBound(n) =>
      var bound := if nd.height(n) > s.headHeight then nd.height(n) else s.headHeight;
      s.removals[n := Descending(bound, bound, false)]
    case Unlink(n) => s.removals[n := GoOn(s.levels, nd.key, n, s.removals[n])]
    case _ => s.removals
  }

  function PassedAfter(s: State, step: Step): map<Node, nat> {
    if step.Mark? && !(step.n in s.passed && s.passed[step.n] < step.level) then s.passed[step.n := step.level] else s.passed
  }

  function Apply(s: State, nd: Nodes, step: Step): (s': State)
    requires |s.levels| == MAX_HEIGHT && Enabled(s, nd, step)
    ensures |s'.levels| == MAX_HEIGHT
  {
    var (i, w) := WriteOf(s, nd, step);
    State(s.levels[i := DoWrite(s.levels[i], w)], InsertsAfter(s, nd, step), RemovalsAfter(s, nd, step), PassedAfter(s, step),
          if step.SetHeadHeight? then step.h else s.headHeight, s.hasDups || step.NoteDuplicate?)
  }

  // ------------------------------------------------------------------
  // The invariant
  // ------------------------------------------------------------------

  /** How far an insert got decides the levels its node was ever linked at. */
  ghost predicate InsertOk(s: State, nd: Nodes, n: Node, level: nat)
    requires |s.levels| == MAX_HEIGHT && level < MAX_HEIGHT
  {
    if n == HEAD || n == TAIL then n !in s.inserts else
      var l := s.levels[level];
      && (n !in s.inserts ==> n !in l.rank && n !in l.next)
      && (n in s.inserts ==>
            && nd.height(n) <= MAX_HEIGHT - 2
            && (n in l.rank ==> level <= nd.height(n) && n in s.levels[0].rank)
            && (n in s.levels[0].rank && level <= nd.height(n) ==> n in l.next)
            && (n !in s.levels[0].rank && n in l.next ==> !l.next[n].marked)
            && match s.inserts[n]
               case Filling => n !in l.rank
               case Linking(i, _) => 1 <= i && (n in l.rank <==> level < i)
               case Storing(i, p, q) =>
                 && 1 <= i <= nd.height(n) && (n in l.rank <==> level < i)
                 && (level == i ==> p in l.rank && q in l.rank && Compare(nd.key, p, n) < 0 && Compare(nd.key, n, q) <= 0)
               case Publishing(i, p, q, _) =>
                 && 1 <= i <= nd.height(n) && (n in l.rank <==> level < i)
                 && (level == i ==>
                       && p in l.rank && q in l.rank && Compare(nd.key, p, n) < 0 && Compare(nd.key, n, q) <= 0
                       && n in l.next && l.next[n].ptr == q)
               case Finished => n in s.levels[0].rank)
  }

  /** A removal exists exactly for the nodes marked at level 0, and a pointer
      loaded for a swing leads on; at level 0 it was marked. */
  ghost predicate RemovalOk(s: State, nd: Nodes, n: Node)
    requires |s.levels| == MAX_HEIGHT
  {
    && (n in s.removals <==> n != HEAD && n in s.levels[0].rank && IsMarked(s, n, 0))
    && (n in s.removals ==> UnlinkOk(s.levels, n, nd.height(n), s.removals[n]) && LoadOk(nd.key, n, s.removals[n]))
  }

  ghost predicate LoadOk(key: Node -> int, n: Node, u: Removal) {
    u.Swinging? ==> Compare(key, n, u.link.ptr) <= 0 && (u.level == 0 ==> u.link.marked)
  }

  /** What is marked was passed by a remover. */
  ghost predicate PassedOk(s: State, nd: Nodes, n: Node, level: nat)
    requires |s.levels| == MAX_HEIGHT && level < MAX_HEIGHT
  {
    && (n in s.passed ==> n in s.levels[0].rank && n != HEAD)
    && (n in s.removals ==> n in s.passed && s.passed[n] == 0)
    && (n in s.levels[0].rank && IsMarked(s, n, level) ==> n in s.passed && s.passed[n] <= level <= nd.height(n))
  }

  /** A tower has no gaps. */
  ghost predicate LadderOk(s: State, n: Node, level: nat)
    requires |s.levels| == MAX_HEIGHT && level < MAX_HEIGHT
  {
    level > 0 && n in s.levels[level].rank ==> n in s.levels[level - 1].rank
  }

  /** In all runs every level is in order; level 0 is a proper chain as well. */
  ghost predicate LevelOk(s: State, nd: Nodes, level: nat)
    requires |s.levels| == MAX_HEIGHT && level < MAX_HEIGHT
  {
    Forward(s.levels[level]) && Sorted(s.levels[level], nd.key) && (level == 0 ==> Valid(s.levels[0], nd.key))
  }

  ghost predicate Inv(s: State, nd: Nodes) {
    && |s.levels| == MAX_HEIGHT
    && 1 <= s.headHeight < MAX_HEIGHT
    && (forall l :: 0 <= l < MAX_HEIGHT ==> LevelOk(s, nd, l))
    && (forall n, l :: 0 <= l < MAX_HEIGHT ==> InsertOk(s, nd, n, l))
    && (forall n :: RemovalOk(s, nd, n))
    && (forall n, l :: 0 <= l < MAX_HEIGHT ==> PassedOk(s, nd, n, l) && LadderOk(s, n, l))
  }

  lemma InitInv(nd: Nodes)
    ensures Inv(Init(), nd)
  {
    EmptyIsValid(nd.key);
    forall l | 0 <= l < MAX_HEIGHT
      ensures LevelOk(Init(), nd, l)
    {
    }
  }

  // ------------------------------------------------------------------
  // Every step keeps the order of the levels
  // ------------------------------------------------------------------

  lemma UnlinkFits(s: State, nd: Nodes, n: Node)
    requires Inv(s, nd) && Enabled(s, nd, Unlink(n))
    ensures var (i, w) := WriteOf(s, nd, Unlink(n));
            && i < MAX_HEIGHT && CanWrite(s.levels[i], w) && KeysFit(nd.key, w) && (i == 0 ==> TakesOutMarked(s.levels[0], w))
  {
    var u := s.removals[n];
    assert RemovalOk(s, nd, n) && LevelOk(s, nd, u.level);
    SwingFits(s.levels, n, nd.height(n), u);
    if u.Helping? {
      assert RisesAt(s.levels[u.level], nd.key, u.curr);
    }
  }

  /** The write of a step is one the order of its level allows. */
  lemma WriteFits(s: State, nd: Nodes, step: Step)
    requires Inv(s, nd) && Enabled(s, nd, step)
    ensures var (i, w) := WriteOf(s, nd, step);
            CanWrite(s.levels[i], w) && KeysFit(nd.key, w) && (i == 0 ==> TakesOutMarked(s.levels[0], w))
  {
    match step
    case Fill(n, i, succ) =>
      assert InsertOk(s, nd, n, i);
    case LinkBase(n, pred, succ) =>
    case StoreSlot(n) =>
      assert InsertOk(s, nd, n, s.inserts[n].level);
    case LinkUpper(n) =>
      assert InsertOk(s, nd, n, s.inserts[n].level);
    case Splice(i, pred, curr) =>
      assert LevelOk(s, nd, i);
      assert LeadsOn(s.levels[i], curr) && RisesAt(s.levels[i], nd.key, curr);
      SpliceIsSwing(s.levels[i], pred, curr);
    case Mark(n, i) =>
    case Unlink(n) =>
      UnlinkFits(s, nd, n);
    case _ =>
  }

  /** Every level stays in order and level 0 a chain; marks once set on a linked
      node stay and freeze its pointer; no two nodes change places. */
  lemma StepKeepsLevel(s: State, nd: Nodes, step: Step, l: nat)
    requires Inv(s, nd) && Enabled(s, nd, step) && l < MAX_HEIGHT
    ensures LevelOk(Apply(s, nd, step), nd, l) && Evolves(s.levels[l], Apply(s, nd, step).levels[l])
  {
    assert LevelOk(s, nd, l);
    var (i, w) := WriteOf(s, nd, step);
    WriteFits(s, nd, step);
    if l == i {
      WriteKeepsForward(s.levels[l], w);
      WriteKeepsSorted(s.levels[l], nd.key, w);
      if l == 0 {
        WriteKeepsValid(s.levels[l], nd.key, w);
      }
    }
  }

  // ------------------------------------------------------------------
  // Steps for other nodes
  // ------------------------------------------------------------------

  /** Whether a step advances the insert or the removal of `n`. */
  predicate ActsOn(step: Step, n: Node) {
    !step.NoteDuplicate? && !step.Splice? && !step.SetHeadHeight? && step.n == n
  }

  ghost predicate PhaseUntouched(s: State, s': State, n: Node) {
    && (n in s.inserts <==> n in s'.inserts) && (n in s.inserts ==> s.inserts[n] == s'.inserts[n])
    && (n in s.removals <==> n in s'.removals) && (n in s.removals ==> s.removals[n] == s'.removals[n])
    && (n in s.passed <==> n in s'.passed) && (n in s.passed ==> s.passed[n] == s'.passed[n])
  }

  lemma OthersKeepPhase(s: State, nd: Nodes, step: Step, n: Node)
    requires |s.levels| == MAX_HEIGHT && Enabled(s, nd, step) && !ActsOn(step, n)
    ensures PhaseUntouched(s, Apply(s, nd, step), n)
  {
  }

  lemma OthersKeepSlot(s: State, nd: Nodes, step: Step, n: Node, l: nat)
    requires Inv(s, nd) && Enabled(s, nd, step) && l < MAX_HEIGHT && !ActsOn(step, n)
    ensures SlotUntouched(s.levels[l], Apply(s, nd, step).levels[l], n)
  {
    var (i, w) := WriteOf(s, nd, step);
    WriteFits(s, nd, step);
    WriteKeepsSlot(s.levels[i], w, n);
  }

  /** A step names the node it works for, and leaves the others' slots, inserts
      and removals alone. */
  lemma OthersUntouched(s: State, nd: Nodes, step: Step, n: Node, l: nat)
    requires Inv(s, nd) && Enabled(s, nd, step) && l < MAX_HEIGHT && !ActsOn(step, n)
    ensures SlotUntouched(s.levels[l], Apply(s, nd, step).levels[l], n) && PhaseUntouched(s, Apply(s, nd, step), n)
  {
    OthersKeepPhase(s, nd, step, n);
    OthersKeepSlot(s, nd, step, n, l);
  }

  lemma OthersKeepInsert(s: State, nd: Nodes, step: Step, n: Node, l: nat)
    requires Inv(s, nd) && Enabled(s, nd, step) && l < MAX_HEIGHT && !ActsOn(step, n)
    ensures InsertOk(Apply(s, nd, step), nd, n, l)
  {
    var s' := Apply(s, nd, step);
    OthersUntouched(s, nd, step, n, l);
    OthersUntouched(s, nd, step, n, 0);
    StepKeepsLevel(s, nd, step, l);
    assert InsertOk(s, nd, n, l);
    InsertCarries(s, s', nd, n, l);
  }

  /** An insert stays all right if nothing of it has changed. */
  lemma InsertCarries(s: State, s': State, nd: Nodes, n: Node, l: nat)
    requires |s.levels| == |s'.levels| == MAX_HEIGHT && l < MAX_HEIGHT && InsertOk(s, nd, n, l)
    requires SlotUntouched(s.levels[l], s'.levels[l], n) && SlotUntouched(s.levels[0], s'.levels[0], n)
    requires (n in s.inserts <==> n in s'.inserts) && (n in s.inserts ==> s.inserts[n] == s'.inserts[n])
    requires Evolves(s.levels[l], s'.levels[l])
    ensures InsertOk(s', nd, n, l)
  {
    if n in s.inserts && (s.inserts[n].Storing? || s.inserts[n].Publishing?) {
      assert NodeEvolves(s.levels[l], s'.levels[l], s.inserts[n].pred) && NodeEvolves(s.levels[l], s'.levels[l], s.inserts[n].succ);
    }
  }

  lemma OthersKeepRemoval(s: State, nd: Nodes, step: Step, n: Node)
    requires Inv(s, nd) && Enabled(s, nd, step) && !ActsOn(step, n)
    ensures RemovalOk(Apply(s, nd, step), nd, n)
  {
    assert RemovalOk(s, nd, n);
    OthersUntouched(s, nd, step, n, 0);
    if n in s.removals && HasLevel(s.removals[n]) {
      StepKeepsLevel(s, nd, step, s.removals[n].level);
    }
    RemovalCarries(s, Apply(s, nd, step), nd, n);
  }

  lemma RemovalCarries(s: State, s': State, nd: Nodes, n: Node)
    requires |s.levels| == |s'.levels| == MAX_HEIGHT && RemovalOk(s, nd, n)
    requires SlotUntouched(s.levels[0], s'.levels[0], n) && PhaseUntouched(s, s', n)
    requires n in s.removals && HasLevel(s.removals[n]) ==>
               Evolves(s.levels[s.removals[n].level], s'.levels[s.removals[n].level])
    ensures RemovalOk(s', nd, n)
  {
    if n in s.removals {
      UnlinkStays(s.levels, s'.levels, n, nd.height(n), s.removals[n]);
    }
  }

  lemma OthersKeepPassed(s: State, nd: Nodes, step: Step, n: Node, l: nat)
    requires Inv(s, nd) && Enabled(s, nd, step) && l < MAX_HEIGHT && !ActsOn(step, n)
    ensures PassedOk(Apply(s, nd, step), nd, n, l)
  {
    assert PassedOk(s, nd, n, l);
    OthersUntouched(s, nd, step, n, l);
    OthersUntouched(s, nd, step, n, 0);
  }

  // ------------------------------------------------------------------
  // Steps for the node itself
  // ------------------------------------------------------------------

  predicate WritesSlot(step: Step) {
    step.Fill? || step.LinkBase? || step.StoreSlot? || step.LinkUpper? || step.Mark? || step.Unlink? || step.HelpAhead?
  }

  lemma OwnPhaseKeepsInsert(s: State, nd: Nodes, step: Step, n: Node, l: nat)
    requires Inv(s, nd) && Enabled(s, nd, step) && l < MAX_HEIGHT && ActsOn(step, n) && !WritesSlot(step)
    ensures InsertOk(Apply(s, nd, step), nd, n, l)
  {
    assert InsertOk(s, nd, n, l) && InsertOk(s, nd, n, 0) && RemovalOk(s, nd, n);
  }

  predicate IsStore(step: Step) {
    step.Fill? || step.StoreSlot? || step.HelpAhead?
  }

  lemma OwnStoreKeepsInsert(s: State, nd: Nodes, step: Step, n: Node, l: nat)
    requires Inv(s, nd) && Enabled(s, nd, step) && l < MAX_HEIGHT && ActsOn(step, n) && IsStore(step)
    ensures InsertOk(Apply(s, nd, step), nd, n, l)
  {
    assert InsertOk(s, nd, n, l) && InsertOk(s, nd, n, 0);
    assert step.StoreSlot? ==> InsertOk(s, nd, n, s.inserts[n].level);
  }

  lemma OwnLinkKeepsInsert(s: State, nd: Nodes, step: Step, n: Node, l: nat)
    requires Inv(s, nd) && Enabled(s, nd, step) && l < MAX_HEIGHT && ActsOn(step, n) && (step.LinkBase? || step.LinkUpper?)
    ensures InsertOk(Apply(s, nd, step), nd, n, l)
  {
    assert InsertOk(s, nd, n, l) && InsertOk(s, nd, n, 0);
    assert step.LinkUpper? ==> InsertOk(s, nd, n, s.inserts[n].level);
  }

  /** Marks and swings leave the insert of the node itself where it is. */
  lemma OwnMarkKeepsInsert(s: State, nd: Nodes, step: Step, n: Node, l: nat)
    requires Inv(s, nd) && Enabled(s, nd, step) && l < MAX_HEIGHT && ActsOn(step, n) && step.Mark?
    ensures InsertOk(Apply(s, nd, step), nd, n, l)
  {
    assert InsertOk(s, nd, n, l) && InsertOk(s, nd, n, 0) && RemovalOk(s, nd, n);
  }

  lemma OwnUnlinkKeepsInsert(s: State, nd: Nodes, n: Node, l: nat)
    requires Inv(s, nd) && Enabled(s, nd, Unlink(n)) && l < MAX_HEIGHT
    ensures InsertOk(Apply(s, nd, Unlink(n)), nd, n, l)
  {
    var s' := Apply(s, nd, Unlink(n));
    var (i, w) := WriteOf(s, nd, Unlink(n));
    assert InsertOk(s, nd, n, l);
    UnlinkFits(s, nd, n);
    WriteKeepsSlot(s.levels[i], w, n);
    StepKeepsLevel(s, nd, Unlink(n), l);
    InsertCarries(s, s', nd, n, l);
  }

  /** The remover's steps, marks apart. */
  predicate IsRemoval(step: Step) {
    step.ReadBound? || step.Unlink?
  }

  lemma AllForward(s: State, nd: Nodes)
    requires Inv(s, nd)
    ensures forall i :: 0 <= i < MAX_HEIGHT ==> Forward(s.levels[i])
  {
    forall i | 0 <= i < MAX_HEIGHT
      ensures Forward(s.levels[i])
    {
      assert LevelOk(s, nd, i);
    }
  }

  /** What the remover is about to swing to, if it meets its node now. */
  lemma LoadIsOk(s: State, nd: Nodes, n: Node)
    requires Inv(s, nd) && Enabled(s, nd, Unlink(n))
    ensures LoadOk(nd.key, n, GoOn(s.levels, nd.key, n, s.removals[n]))
  {
    var u := s.removals[n];
    assert RemovalOk(s, nd, n);
    if u.Walking? && u.curr == n {
      assert LevelOk(s, nd, u.level) && LeadsOn(s.levels[u.level], n) && RisesAt(s.levels[u.level], nd.key, n);
    }
  }

  lemma OwnUnlinkKeepsRemoval(s: State, nd: Nodes, step: Step, n: Node)
    requires Inv(s, nd) && Enabled(s, nd, step) && ActsOn(step, n) && IsRemoval(step)
    ensures RemovalOk(Apply(s, nd, step), nd, n)
  {
    var s' := Apply(s, nd, step);
    assert RemovalOk(s, nd, n) && InsertOk(s, nd, n, 0);
    if step.Unlink? {
      var u' := GoOn(s.levels, nd.key, n, s.removals[n]);
      AllForward(s, nd);
      GoOnStands(s.levels, nd.key, n, nd.height(n), s.removals[n]);
      LoadIsOk(s, nd, n);
      if HasLevel(u') {
        StepKeepsLevel(s, nd, step, u'.level);
      }
      UnlinkStays(s.levels, s'.levels, n, nd.height(n), u');
      OwnUnlinkKeepsMark(s, nd, n);
    }
  }

  lemma OwnUnlinkKeepsMark(s: State, nd: Nodes, n: Node)
    requires Inv(s, nd) && Enabled(s, nd, Unlink(n))
    ensures SlotUntouched(s.levels[0], Apply(s, nd, Unlink(n)).levels[0], n)
  {
    var (i, w) := WriteOf(s, nd, Unlink(n));
    UnlinkFits(s, nd, n);
    if i == 0 {
      WriteKeepsSlot(s.levels[0], w, n);
    }
  }

  lemma OwnMarkKeepsRemoval(s: State, nd: Nodes, step: Step, n: Node)
    requires Inv(s, nd) && Enabled(s, nd, step) && ActsOn(step, n) && step.Mark?
    ensures RemovalOk(Apply(s, nd, step), nd, n)
  {
    assert RemovalOk(s, nd, n) && InsertOk(s, nd, n, 0) && LevelOk(s, nd, 0);
    if step.level > 0 && n in s.removals && HasLevel(s.removals[n]) {
      StepKeepsLevel(s, nd, step, s.removals[n].level);
      UnlinkStays(s.levels, Apply(s, nd, step).levels, n, nd.height(n), s.removals[n]);
    }
  }

  /** Insert steps write slots of levels the node is not linked at; at level 0
      those are written before the node is a member. */
  lemma OwnInsertKeepsRemoval(s: State, nd: Nodes, step: Step, n: Node)
    requires Inv(s, nd) && Enabled(s, nd, step) && ActsOn(step, n)
    requires !step.Mark? && !IsRemoval(step)
    ensures RemovalOk(Apply(s, nd, step), nd, n)
  {
    assert RemovalOk(s, nd, n) && InsertOk(s, nd, n, 0);
    if n in s.removals && HasLevel(s.removals[n]) {
      StepKeepsLevel(s, nd, step, s.removals[n].level);
      UnlinkStays(s.levels, Apply(s, nd, step).levels, n, nd.height(n), s.removals[n]);
    }
  }

  lemma OwnMarkKeepsPassed(s: State, nd: Nodes, step: Step, n: Node, l: nat)
    requires Inv(s, nd) && Enabled(s, nd, step) && l < MAX_HEIGHT && ActsOn(step, n) && step.Mark?
    ensures PassedOk(Apply(s, nd, step), nd, n, l)
  {
    assert PassedOk(s, nd, n, l) && PassedOk(s, nd, n, 0) && RemovalOk(s, nd, n) && InsertOk(s, nd, n, 0);
  }

  /** Removers swing other nodes' pointers. */
  lemma OwnRemovalKeepsPassed(s: State, nd: Nodes, step: Step, n: Node, l: nat)
    requires Inv(s, nd) && Enabled(s, nd, step) && l < MAX_HEIGHT && ActsOn(step, n)
    requires IsRemoval(step)
    ensures PassedOk(Apply(s, nd, step), nd, n, l)
  {
    assert PassedOk(s, nd, n, l) && RemovalOk(s, nd, n);
    if step.Unlink? {
      UnlinkFits(s, nd, n);
      var (i, w) := WriteOf(s, nd, step);
      if l == i {
        WriteKeepsSlot(s.levels[l], w, n);
      }
      OwnUnlinkKeepsMark(s, nd, n);
    }
  }

  lemma OwnInsertKeepsPassed(s: State, nd: Nodes, step: Step, n: Node, l: nat)
    requires Inv(s, nd) && Enabled(s, nd, step) && l < MAX_HEIGHT && ActsOn(step, n)
    requires !step.Mark? && !IsRemoval(step)
    ensures PassedOk(Apply(s, nd, step), nd, n, l)
  {
    assert PassedOk(s, nd, n, l) && RemovalOk(s, nd, n) && InsertOk(s, nd, n, l) && InsertOk(s, nd, n, 0);
    if step.LinkUpper? || step.StoreSlot? {
      assert InsertOk(s, nd, n, s.inserts[n].level);
    }
  }

  lemma StepKeepsInsert(s: State, nd: Nodes, step: Step, n: Node, l: nat)
    requires Inv(s, nd) && Enabled(s, nd, step) && l < MAX_HEIGHT
    ensures InsertOk(Apply(s, nd, step), nd, n, l)
  {
    if !ActsOn(step, n) {
      OthersKeepInsert(s, nd, step, n, l);
    } else if IsStore(step) {
      OwnStoreKeepsInsert(s, nd, step, n, l);
    } else if step.LinkBase? || step.LinkUpper? {
      OwnLinkKeepsInsert(s, nd, step, n, l);
    } else if step.Mark? {
      OwnMarkKeepsInsert(s, nd, step, n, l);
    } else if step.Unlink? {
      OwnUnlinkKeepsInsert(s, nd, n, l);
    } else {
      OwnPhaseKeepsInsert(s, nd, step, n, l);
    }
  }

  lemma StepKeepsPassed(s: State, nd: Nodes, step: Step, n: Node, l: nat)
    requires Inv(s, nd) && Enabled(s, nd, step) && l < MAX_HEIGHT
    ensures PassedOk(Apply(s, nd, step), nd, n, l)
  {
    if !ActsOn(step, n) {
      OthersKeepPassed(s, nd, step, n, l);
    } else if step.Mark? {
      OwnMarkKeepsPassed(s, nd, step, n, l);
    } else if IsRemoval(step) {
      OwnRemovalKeepsPassed(s, nd, step, n, l);
    } else {
      OwnInsertKeepsPassed(s, nd, step, n, l);
    }
  }

  lemma StepKeepsLadder(s: State, nd: Nodes, step: Step, n: Node, l: nat)
    requires Inv(s, nd) && Enabled(s, nd, step) && l < MAX_HEIGHT
    ensures LadderOk(Apply(s, nd, step), n, l)
  {
    var (i, w) := WriteOf(s, nd, step);
    assert LadderOk(s, n, l);
    WriteFits(s, nd, step);
    WriteRanks(s.levels[i], w, n);
    if l > 0 && i == l && w.LinkIn? && w.n == n {
      LinkedBelow(s, nd, step, n, l);
    }
  }

  /** A node is linked bottom up. */
  lemma LinkedBelow(s: State, nd: Nodes, step: Step, n: Node, l: nat)
    requires Inv(s, nd) && Enabled(s, nd, step) && 0 < l < MAX_HEIGHT
    requires var (i, w) := WriteOf(s, nd, step); i == l && w.LinkIn? && w.n == n
    ensures n in s.levels[l - 1].rank
  {
    assert InsertOk(s, nd, n, l - 1) && InsertOk(s, nd, n, l);
  }

  lemma StepKeepsRemoval(s: State, nd: Nodes, step: Step, n: Node)
    requires Inv(s, nd) && Enabled(s, nd, step)
    ensures RemovalOk(Apply(s, nd, step), nd, n)
  {
    if !ActsOn(step, n) {
      OthersKeepRemoval(s, nd, step, n);
    } else if step.Mark? {
      OwnMarkKeepsRemoval(s, nd, step, n);
    } else if IsRemoval(step) {
      OwnUnlinkKeepsRemoval(s, nd, step, n);
    } else {
      OwnInsertKeepsRemoval(s, nd, step, n);
    }
  }

  lemma StepKeepsInv(s: State, nd: Nodes, step: Step)
    requires Inv(s, nd) && Enabled(s, nd, step)
    ensures Inv(Apply(s, nd, step), nd)
  {
    var s' := Apply(s, nd, step);
    forall l | 0 <= l < MAX_HEIGHT
      ensures LevelOk(s', nd, l)
    {
      StepKeepsLevel(s, nd, step, l);
    }
    forall n, l | 0 <= l < MAX_HEIGHT
      ensures InsertOk(s', nd, n, l) && PassedOk(s', nd, n, l) && LadderOk(s', n, l)
    {
      StepKeepsLadder(s, nd, step, n, l);
      StepKeepsInsert(s, nd, step, n, l);
      StepKeepsPassed(s, nd, step, n, l);
    }
    forall n
      ensures RemovalOk(s', nd, n)
    {
      StepKeepsRemoval(s, nd, step, n);
    }
  }
  // ------------------------------------------------------------------
  // Whole runs
  // ------------------------------------------------------------------

  /** `run` can be executed from `s`, one step after the other. */
  predicate IsRun(s: State, nd: Nodes, run: seq<Step>)
    requires |s.levels| == MAX_HEIGHT
    decreases |run|
  {
    run == [] || (Enabled(s, nd, run[0]) && IsRun(Apply(s, nd, run[0]), nd, run[1..]))
  }

  /** The state after the first `k` steps. */
  function After(s: State, nd: Nodes, run: seq<Step>, k: nat): (s': State)
    requires |s.levels| == MAX_HEIGHT && IsRun(s, nd, run) && k <= |run|
    ensures |s'.levels| == MAX_HEIGHT
    decreases k
  {
    if k == 0 then s else After(Apply(s, nd, run[0]), nd, run[1..], k - 1)
  }

  lemma {:induction false} RunStep(s: State, nd: Nodes, run: seq<Step>, k: nat)
    requires |s.levels| == MAX_HEIGHT && IsRun(s, nd, run) && k < |run|
    ensures Enabled(After(s, nd, run, k), nd, run[k])
    ensures After(s, nd, run, k + 1) == Apply(After(s, nd, run, k), nd, run[k])
    decreases k
  {
    if k > 0 {
      RunStep(Apply(s, nd, run[0]), nd, run[1..], k - 1);
    }
  }

  /** In every run from the empty list the invariant holds throughout. */
  lemma {:induction false} RunKeepsInv(s: State, nd: Nodes, run: seq<Step>, k: nat)
    requires Inv(s, nd) && IsRun(s, nd, run) && k <= |run|
    ensures Inv(After(s, nd, run, k), nd)
    decreases k
  {
    if k > 0 {
      StepKeepsInv(s, nd, run[0]);
      RunKeepsInv(Apply(s, nd, run[0]), nd, run[1..], k - 1);
    }
  }

  /** Between any two states of a run, at every level: no mark of a linked node
      is cleared, its pointer stays, and no two nodes change places. */
  lemma {:induction false} RunEvolves(s: State, nd: Nodes, run: seq<Step>, i: nat, j: nat, level: nat)
    requires Inv(s, nd) && IsRun(s, nd, run) && i <= j <= |run| && level < MAX_HEIGHT
    ensures Evolves(After(s, nd, run, i).levels[level], After(s, nd, run, j).levels[level])
    decreases j
  {
    if i < j {
      RunEvolves(s, nd, run, i, j - 1, level);
      RunKeepsInv(s, nd, run, j - 1);
      RunStep(s, nd, run, j - 1);
      StepKeepsLevel(After(s, nd, run, j - 1), nd, run[j - 1], level);
      EvolvesTransitive(After(s, nd, run, i).levels[level], After(s, nd, run, j - 1).levels[level], After(s, nd, run, j).levels[level]);
    }
  }

  /** One step more. */
  lemma {:induction false} RunMore(s: State, nd: Nodes, run: seq<Step>, step: Step)
    requires |s.levels| == MAX_HEIGHT && IsRun(s, nd, run) && Enabled(After(s, nd, run, |run|), nd, step)
    ensures IsRun(s, nd, run + [step])
    ensures After(s, nd, run + [step], |run| + 1) == Apply(After(s, nd, run, |run|), nd, step)
    decreases |run|
  {
    if run != [] {
      RunMore(Apply(s, nd, run[0]), nd, run[1..], step);
      assert (run + [step])[1..] == run[1..] + [step];
    }
  }
}
