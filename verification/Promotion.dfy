/**
  Raising a node's tower while the node is being removed.

  The splay rebalance raises the height first, then reads the predecessor's
  pointer, stores it in the node's new slot, publishes the node with a swing,
  re-checks level 0, and if the node has been removed meanwhile takes the link
  back: it loads the node's new pointer and swings the predecessor over to it,
  or, if that fails, unlinks the node like its remover does.  A remove of the
  same node runs beside it, and any other threads load and write at all levels,
  in the node's slots too where it is the predecessor.  One access is one step.

  The search that found the predecessor compared keys, but the pointer read
  afterwards is published without another comparison, so the new level can end
  up out of order.  `RunIsSortedIff` says when.
 */
module Promotion {
  import opened LevelChain
  import opened Removing

  /** What never changes: the keys, the node, and its old height. */
  datatype Setting = Setting(key: Node -> int, n: Node, h: nat)

  /** The promoting thread.  `pred` is the predecessor its locate recorded. */
  datatype Promoter =
    | Raising(pred: Node)
    | ReadingPred(pred: Node)
    | StoringNext(pred: Node, succ: Node)
    | Publishing(pred: Node, succ: Node)
    | Reverting
    | Rechecking(pred: Node)
    | LoadingNext(pred: Node)
    | Undoing(pred: Node, succ: Node)
    | Bounding
    | Again(height: nat, unlink: Removal)
    | Done(tookBack: bool)

  /** The removing thread; `Marking(i)` marks level `i` next. */
  datatype Remover =
    | ReadingHeight
    | Marking(level: nat)
    | ReadingBound
    | Unlinking(height: nat, unlink: Removal)

  /** `loaded` remembers who pointed where when some thread looked, by level;
      `upset`, whether the node was published in front of a smaller key. */
  datatype State = State(
    levels: seq<Level>,
    raised: bool,
    prom: Promoter,
    rem: Remover,
    loaded: set<(nat, Node, Node)>,
    upset: bool)

  /** `Forgo` finds the predecessor lowered meanwhile. */
  datatype Step =
    | Promote
    | Forgo
    | PromoterReadsBound(headHeight: nat)
    | PromoterUnlinks
    | Remove
    | RemoverReadsBound(headHeight: nat)
    | RemoverUnlinks
    | OtherLoads(level: nat, x: Node)
    | OtherWrites(level: nat, w: Write)

  /** The node is logically removed. */
  predicate Removed(s: State, c: Setting)
    requires |s.levels| == MAX_HEIGHT
  {
    Slot(s.levels[0], c.n).marked
  }

  function Larger(a: nat, b: nat): (m: nat)
    ensures a <= m && b <= m && (m == a || m == b)
  {
    if a < b then b else a
  }

  function Height(s: State, c: Setting): nat {
    if s.raised then c.h + 1 else c.h
  }

  // ------------------------------------------------------------------
  // Unlinking by identity
  // ------------------------------------------------------------------

  predicate CanUnlink(u: Removal) {
    HasLevel(u) && u.level < MAX_HEIGHT
  }

  function Bounded(height: nat, headHeight: nat): Removal {
    Descending(Larger(height, headHeight), Larger(height, headHeight), false)
  }

  function UnlinkLoads(levels: seq<Level>, u: Removal): set<(nat, Node, Node)> {
    if u.Walking? && u.level < |levels| then {(u.level, u.curr, Slot(levels[u.level], u.curr).ptr)} else {}
  }

  // ------------------------------------------------------------------
  // Steps
  // ------------------------------------------------------------------

  predicate CanPromote(l: Level, p: Promoter) {
    match p
    case ReadingPred(pred) => pred in l.next
    case Bounding => true
    case Again(_, _) => false
    case Done(_) => false
    case _ => true
  }

  predicate Enabled(s: State, c: Setting, step: Step)
    requires |s.levels| == MAX_HEIGHT && c.h + 1 < MAX_HEIGHT
  {
    match step
    case Promote => CanPromote(s.levels[c.h + 1], s.prom)
    case Forgo => s.prom.ReadingPred?
    case PromoterReadsBound(headHeight) => s.prom.Again? && s.prom.unlink.Starting? && headHeight < MAX_HEIGHT
    case PromoterUnlinks => s.prom.Again? && CanUnlink(s.prom.unlink)
    case Remove => !s.rem.Unlinking? && (s.rem.Marking? ==> s.rem.level < MAX_HEIGHT)
    case RemoverReadsBound(headHeight) => s.rem.Unlinking? && s.rem.unlink.Starting? && headHeight < MAX_HEIGHT
    case RemoverUnlinks => s.rem.Unlinking? && CanUnlink(s.rem.unlink)
    case OtherLoads(i, x) => i < MAX_HEIGHT && x in s.levels[i].rank && x in s.levels[i].next
    case OtherWrites(i, w) =>
      // others do not link, mark or fill in the node, but they may help it out;
      // they link where the keys fit, and swing to where a node was seen to point
      && i < MAX_HEIGHT && CanWrite(s.levels[i], w) && !WritesOwn(w, c.n)
      && (w.LinkIn? ==> FitsBetween(c.key, w.pred, w.n, w.succ))
      && (w.TakeOut? ==> (i, w.n, w.succ) in s.loaded)
  }

  function PromoteWrites(l: Level, c: Setting, p: Promoter): Write {
    match p
    case StoringNext(_, succ) => Put(c.n, succ)
    case Publishing(pred, succ) => if Points(l, pred, succ) then LinkIn(pred, succ, c.n) else Keep
    case Undoing(pred, succ) => if Points(l, pred, c.n) then TakeOut(pred, c.n, succ) else Keep
    case _ => Keep
  }

  function WriteOf(s: State, c: Setting, step: Step): (nat, Write)
    requires |s.levels| == MAX_HEIGHT && c.h + 1 < MAX_HEIGHT
  {
    match step
    case Promote => (c.h + 1, PromoteWrites(s.levels[c.h + 1], c, s.prom))
    case PromoterUnlinks =>
      if s.prom.Again? && CanUnlink(s.prom.unlink) then SwingOf(s.levels, c.n, s.prom.unlink) else (0, Keep)
    case Remove =>
      if s.rem.Marking? && s.rem.level < MAX_HEIGHT && CanMark(s.levels[s.rem.level], c.n) then (s.rem.level, SetMark(c.n)) else (0, Keep)
    case RemoverUnlinks =>
      if s.rem.Unlinking? && CanUnlink(s.rem.unlink) then SwingOf(s.levels, c.n, s.rem.unlink) else (0, Keep)
    case OtherWrites(i, w) => (i, w)
    case _ => (0, Keep)
  }

  function LoadsOf(s: State, c: Setting, step: Step): set<(nat, Node, Node)>
    requires |s.levels| == MAX_HEIGHT && c.h + 1 < MAX_HEIGHT
  {
    match step
    case Promote => if s.prom.LoadingNext? then {(c.h + 1, c.n, Slot(s.levels[c.h + 1], c.n).ptr)} else {}
    case PromoterUnlinks => if s.prom.Again? then UnlinkLoads(s.levels, s.prom.unlink) else {}
    case RemoverUnlinks => if s.rem.Unlinking? then UnlinkLoads(s.levels, s.rem.unlink) else {}
    case OtherLoads(i, x) => if i < MAX_HEIGHT then {(i, x, Slot(s.levels[i], x).ptr)} else {}
    case _ => {}
  }

  function PromoteOn(s: State, c: Setting): Promoter
    requires |s.levels| == MAX_HEIGHT && c.h + 1 < MAX_HEIGHT && CanPromote(s.levels[c.h + 1], s.prom)
  {
    var l := s.levels[c.h + 1];
    match s.prom
    case Raising(pred) => ReadingPred(pred)
    case ReadingPred(pred) => if l.next[pred].marked then Reverting else StoringNext(pred, l.next[pred].ptr)
    case StoringNext(pred, succ) => Promoter.Publishing(pred, succ)
    case Publishing(pred, succ) => if Points(l, pred, succ) then Rechecking(pred) else Reverting
    case Reverting => Done(false)
    case Rechecking(pred) => if Removed(s, c) then LoadingNext(pred) else Done(false)
    case LoadingNext(pred) => Undoing(pred, Slot(l, c.n).ptr)
    case Undoing(pred, _) => if Points(l, pred, c.n) then Done(true) else Bounding
    case Bounding => Again(Height(s, c), Starting)
    case _ => s.prom
  }

  function PromAfter(s: State, c: Setting, step: Step): Promoter
    requires |s.levels| == MAX_HEIGHT && c.h + 1 < MAX_HEIGHT && Enabled(s, c, step)
  {
    match step
    case Promote => PromoteOn(s, c)
    case Forgo => Reverting
    case PromoterReadsBound(headHeight) => Again(s.prom.height, Bounded(s.prom.height, headHeight))
    case PromoterUnlinks =>
      var u := GoOn(s.levels, c.key, c.n, s.prom.unlink);
      if u.Retired? then Done(true) else Again(s.prom.height, u)
    case _ => s.prom
  }

  function RemAfter(s: State, c: Setting, step: Step): Remover
    requires |s.levels| == MAX_HEIGHT && c.h + 1 < MAX_HEIGHT && Enabled(s, c, step)
  {
    match step
    case Remove =>
      (match s.rem
       case ReadingHeight => Marking(Height(s, c))
       case Marking(i) => if i > 0 then Marking(i - 1) else ReadingBound
       case ReadingBound => Unlinking(Height(s, c), Starting)
       case _ => s.rem)
    case RemoverReadsBound(headHeight) => Unlinking(s.rem.height, Bounded(s.rem.height, headHeight))
    case RemoverUnlinks => Unlinking(s.rem.height, GoOn(s.levels, c.key, c.n, s.rem.unlink))
    case _ => s.rem
  }

  function RaisedAfter(s: State, step: Step): bool {
    if step.Promote? && s.prom.Raising? then true
    else if step.Promote? && s.prom.Reverting? then false
    else s.raised
  }

  /** The node is published, and the pointer it was given leads to a smaller key. */
  predicate Upsets(s: State, c: Setting, step: Step)
    requires |s.levels| == MAX_HEIGHT && c.h + 1 < MAX_HEIGHT
  {
    && step.Promote? && s.prom.Publishing? && Points(s.levels[c.h + 1], s.prom.pred, s.prom.succ)
    && Compare(c.key, c.n, s.prom.succ) > 0
  }

  function Written(levels: seq<Level>, i: nat, w: Write): (r: seq<Level>)
    ensures |r| == |levels|
  {
    if i < |levels| && CanWrite(levels[i], w) then levels[i := DoWrite(levels[i], w)] else levels
  }

  function Apply(s: State, c: Setting, step: Step): (s': State)
    requires |s.levels| == MAX_HEIGHT && c.h + 1 < MAX_HEIGHT && Enabled(s, c, step)
    ensures |s'.levels| == MAX_HEIGHT
  {
    var (i, w) := WriteOf(s, c, step);
    State(Written(s.levels, i, w), RaisedAfter(s, step), PromAfter(s, c, step), RemAfter(s, c, step),
          s.loaded + LoadsOf(s, c, step), s.upset || Upsets(s, c, step))
  }

  // ------------------------------------------------------------------
  // The order of a level, the node's own pointer apart
  // ------------------------------------------------------------------

  /** In a calm level every pointer leads to a key not smaller; in any level,
      those behind the key of `n` do. */
  ghost predicate OrderedAt(l: Level, key: Node -> int, n: Node, calm: bool, x: Node) {
    calm || Compare(key, x, n) > 0 ==> RisesAt(l, key, x)
  }

  ghost predicate Ordered(l: Level, key: Node -> int, n: Node, calm: bool) {
    forall x :: OrderedAt(l, key, n, calm, x)
  }

  /** The pointer from `x` to `t` respects that. */
  predicate LeadsUp(key: Node -> int, n: Node, calm: bool, x: Node, t: Node) {
    calm || Compare(key, x, n) > 0 ==> Compare(key, x, t) <= 0
  }

  predicate WriteLeadsUp(key: Node -> int, n: Node, calm: bool, w: Write) {
    match w
    case LinkIn(pred, succ, x) => Compare(key, pred, x) < 0 && (calm || x != n ==> Compare(key, x, succ) <= 0)
    case TakeOut(_, x, t) => LeadsUp(key, n, calm, x, t)
    case _ => true
  }

  lemma WriteKeepsOrdered(l: Level, key: Node -> int, n: Node, calm: bool, w: Write)
    requires Forward(l) && Ordered(l, key, n, calm) && CanWrite(l, w) && WriteLeadsUp(key, n, calm, w)
    ensures Ordered(DoWrite(l, w), key, n, calm)
  {
    forall x
      ensures OrderedAt(DoWrite(l, w), key, n, calm, x)
    {
      assert OrderedAt(l, key, n, calm, x) && LeadsOn(l, x);
      if w.TakeOut? {
        assert LeadsOn(l, w.pred) && OrderedAt(l, key, n, calm, w.pred);
      }
    }
  }

  // ------------------------------------------------------------------
  // The invariant of every run
  // ------------------------------------------------------------------

  /** Published, and not yet known to be all right. */
  predicate Pending(p: Promoter) {
    p.Rechecking? || p.LoadingNext? || p.Undoing? || p.Bounding? || p.Again?
  }

  predicate Unpublished(p: Promoter) {
    p.Raising? || p.ReadingPred? || p.StoringNext? || p.Publishing? || p.Reverting?
  }

  predicate HasPred(p: Promoter) {
    p.Raising? || p.ReadingPred? || p.StoringNext? || p.Publishing? || p.Rechecking? || p.LoadingNext? || p.Undoing?
  }

  predicate Calm(upset: bool, c: Setting, i: nat) {
    i != c.h + 1 || !upset
  }

  ghost predicate LevelOk(l: Level, c: Setting, upset: bool, i: nat) {
    && Forward(l) && Ordered(l, c.key, c.n, Calm(upset, c, i))
    && (i <= c.h ==> c.n in l.rank) && (i <= c.h + 1 ==> c.n in l.next) && (i > c.h + 1 ==> c.n !in l.rank)
  }

  /** What was loaded once leads forward. */
  ghost predicate LoadOk(levels: seq<Level>, c: Setting, upset: bool, p: (nat, Node, Node))
    requires |levels| == MAX_HEIGHT
  {
    && p.0 < MAX_HEIGHT
    && var l := levels[p.0];
    && p.1 in l.rank && p.2 in l.rank && p.1 != TAIL && l.rank[p.1] < l.rank[p.2]
    && LeadsUp(c.key, c.n, Calm(upset, c, p.0), p.1, p.2)
  }

  /** A swing leads where the node was seen to point. */
  predicate SwingsLoaded(loaded: set<(nat, Node, Node)>, n: Node, u: Removal) {
    && (u.Helping? ==> (u.level, u.curr, u.succ) in loaded)
    && (u.Swinging? ==> (u.level, n, u.link.ptr) in loaded)
  }

  ghost predicate SweepOk(levels: seq<Level>, loaded: set<(nat, Node, Node)>, n: Node, height: nat, u: Removal)
    requires |levels| == MAX_HEIGHT
  {
    UnlinkOk(levels, n, height, u) && SwingsLoaded(loaded, n, u)
  }

  ghost predicate PhaseOk(l: Level, c: Setting, raised: bool, removed: bool, p: Promoter) {
    && (Unpublished(p) ==> c.n !in l.rank && (raised <==> !p.Raising?))
    && (Pending(p) || (p.Done? && p.tookBack) ==> c.n in l.rank)
    && (c.n in l.rank ==> raised) && (p.Done? && raised ==> c.n in l.rank)
    && (Pending(p) && !p.Rechecking? ==> removed)
  }

  ghost predicate PredOk(l: Level, c: Setting, p: Promoter) {
    && (HasPred(p) ==> p.pred in l.rank && Compare(c.key, p.pred, c.n) < 0)
    && (p.StoringNext? ==> p.succ in l.rank)
    && (p.Publishing? ==> p.succ in l.rank && Slot(l, c.n).ptr == p.succ)
  }

  ghost predicate PromOk(s: State, c: Setting)
    requires |s.levels| == MAX_HEIGHT && c.h + 1 < MAX_HEIGHT
  {
    var l := s.levels[c.h + 1];
    && PhaseOk(l, c, s.raised, Removed(s, c), s.prom) && PredOk(l, c, s.prom)
    && (s.prom.Undoing? ==> (c.h + 1, c.n, s.prom.succ) in s.loaded)
    && (s.prom.Again? ==> s.prom.height == c.h + 1 && !s.prom.unlink.Retired? && SweepOk(s.levels, s.loaded, c.n, c.h + 1, s.prom.unlink))
  }

  ghost predicate RemOk(s: State, c: Setting)
    requires |s.levels| == MAX_HEIGHT && c.h + 1 < MAX_HEIGHT
  {
    && (Removed(s, c) <==> s.rem.ReadingBound? || s.rem.Unlinking?)
    && (s.rem.Marking? ==> s.rem.level <= c.h + 1)
    && (s.rem.Unlinking? ==>
          && c.h <= s.rem.height <= c.h + 1 && SweepOk(s.levels, s.loaded, c.n, s.rem.height, s.rem.unlink)
          && (s.prom == Done(false) && c.n in s.levels[c.h + 1].rank ==> s.rem.height == c.h + 1))
  }

  ghost predicate Inv(s: State, c: Setting) {
    && |s.levels| == MAX_HEIGHT && c.h + 1 < MAX_HEIGHT && c.n != HEAD && c.n != TAIL
    && (forall i :: 0 <= i < MAX_HEIGHT ==> LevelOk(s.levels[i], c, s.upset, i))
    && (forall p <- s.loaded :: LoadOk(s.levels, c, s.upset, p))
    && PromOk(s, c) && RemOk(s, c)
  }

  // ------------------------------------------------------------------
  // Every step keeps it
  // ------------------------------------------------------------------

  /** The write of a step is one the order of its level allows. */
  lemma WriteFits(s: State, c: Setting, step: Step)
    requires Inv(s, c) && Enabled(s, c, step)
    ensures var (i, w) := WriteOf(s, c, step);
            && i < MAX_HEIGHT && CanWrite(s.levels[i], w)
            && WriteLeadsUp(c.key, c.n, Calm(s.upset || Upsets(s, c, step), c, i), w)
            && (w.TakeOut? ==> (i, w.n, w.succ) in s.loaded)
            && (WritesOwn(w, c.n) ==> (w.SetMark? && step.Remove?) || (i == c.h + 1 && step.Promote? && Unpublished(s.prom)))
  {
    var (i, w) := WriteOf(s, c, step);
    assert LevelOk(s.levels[c.h + 1], c, s.upset, c.h + 1);
    if w.TakeOut? {
      assert (i, w.n, w.succ) in s.loaded;
      assert LoadOk(s.levels, c, s.upset, (i, w.n, w.succ));
      if step.Promote? {
        assert LeadsOn(s.levels[i], w.pred);
      }
    }
  }

  lemma WriteKeepsLevel(l: Level, w: Write, c: Setting, upset: bool, upset': bool, i: nat)
    requires LevelOk(l, c, upset, i) && CanWrite(l, w) && (upset ==> upset')
    requires WriteLeadsUp(c.key, c.n, Calm(upset', c, i), w) && (w.LinkIn? && w.n == c.n ==> i <= c.h + 1)
    ensures LevelOk(DoWrite(l, w), c, upset', i) && Evolves(l, DoWrite(l, w))
  {
    forall x
      ensures OrderedAt(l, c.key, c.n, Calm(upset', c, i), x)
    {
      assert OrderedAt(l, c.key, c.n, Calm(upset, c, i), x);
    }
    WriteKeepsForward(l, w);
    WriteKeepsOrdered(l, c.key, c.n, Calm(upset', c, i), w);
    assert NodeEvolves(l, DoWrite(l, w), c.n);
    WriteKeepsNode(l, w, c, i);
  }

  lemma StepKeepsLevel(s: State, c: Setting, step: Step, i: nat)
    requires Inv(s, c) && Enabled(s, c, step) && i < MAX_HEIGHT
    ensures var s' := Apply(s, c, step); LevelOk(s'.levels[i], c, s'.upset, i) && Evolves(s.levels[i], s'.levels[i])
  {
    var (j, w) := WriteOf(s, c, step);
    assert LevelOk(s.levels[i], c, s.upset, i);
    WriteFits(s, c, step);
    WriteKeepsLevel(s.levels[i], if i == j then w else Keep, c, s.upset, s.upset || Upsets(s, c, step), i);
  }

  lemma WriteKeepsNode(l: Level, w: Write, c: Setting, i: nat)
    requires CanWrite(l, w) && (w.LinkIn? && w.n == c.n ==> i <= c.h + 1)
    requires (i <= c.h + 1 ==> c.n in l.next) && (i > c.h + 1 ==> c.n !in l.rank)
    ensures var m := DoWrite(l, w); (i <= c.h + 1 ==> c.n in m.next) && (i > c.h + 1 ==> c.n !in m.rank)
  {
  }

  lemma LoadStays(levels: seq<Level>, levels': seq<Level>, c: Setting, upset: bool, upset': bool, p: (nat, Node, Node))
    requires |levels| == |levels'| == MAX_HEIGHT && LoadOk(levels, c, upset, p) && (upset ==> upset')
    requires Evolves(levels[p.0], levels'[p.0])
    ensures LoadOk(levels', c, upset', p)
  {
    var l, m := levels[p.0], levels'[p.0];
    assert NodeEvolves(l, m, p.1) && NodeEvolves(l, m, p.2) && OrderEvolves(l, m, p.1, p.2);
  }

  /** A pointer just read leads forward. */
  lemma FreshLoadOk(levels: seq<Level>, c: Setting, upset: bool, i: nat, x: Node)
    requires |levels| == MAX_HEIGHT && i < MAX_HEIGHT && LevelOk(levels[i], c, upset, i)
    requires x in levels[i].rank && x in levels[i].next
    ensures LoadOk(levels, c, upset, (i, x, levels[i].next[x].ptr))
  {
    assert LeadsOn(levels[i], x) && OrderedAt(levels[i], c.key, c.n, Calm(upset, c, i), x);
  }

  lemma LoadsAreOk(s: State, c: Setting, step: Step, p: (nat, Node, Node))
    requires Inv(s, c) && Enabled(s, c, step) && p in s.loaded + LoadsOf(s, c, step)
    ensures LoadOk(s.levels, c, s.upset, p)
  {
    if p !in s.loaded {
      assert p.0 < MAX_HEIGHT && LevelOk(s.levels[p.0], c, s.upset, p.0);
      assert LeadsOn(s.levels[p.0], p.1);
      FreshLoadOk(s.levels, c, s.upset, p.0, p.1);
    }
  }

  /** An unlink under way stays as it should be while the levels change. */
  lemma SweepStays(levels: seq<Level>, levels': seq<Level>, loaded: set<(nat, Node, Node)>, loaded': set<(nat, Node, Node)>,
                   n: Node, height: nat, u: Removal)
    requires |levels| == |levels'| == MAX_HEIGHT && SweepOk(levels, loaded, n, height, u) && loaded <= loaded'
    requires forall i :: 0 <= i < MAX_HEIGHT ==> Evolves(levels[i], levels'[i])
    ensures SweepOk(levels', loaded', n, height, u)
  {
    UnlinkStays(levels, levels', n, height, u);
  }

  /** And as it goes on. */
  lemma SweepGoesOn(s: State, c: Setting, height: nat, u: Removal)
    requires Inv(s, c) && CanUnlink(u) && SweepOk(s.levels, s.loaded, c.n, height, u)
    ensures SweepOk(s.levels, s.loaded + UnlinkLoads(s.levels, u), c.n, height, GoOn(s.levels, c.key, c.n, u))
  {
    forall i | 0 <= i < MAX_HEIGHT
      ensures Forward(s.levels[i])
    {
      assert LevelOk(s.levels[i], c, s.upset, i);
    }
    GoOnStands(s.levels, c.key, c.n, height, u);
  }

  /** Only the marking step changes whether the node is removed. */
  lemma StepKeepsRemoved(s: State, c: Setting, step: Step)
    requires Inv(s, c) && Enabled(s, c, step)
    ensures Removed(Apply(s, c, step), c) <==> Removed(s, c) || (step.Remove? && s.rem == Marking(0))
  {
    var (i, w) := WriteOf(s, c, step);
    WriteFits(s, c, step);
    assert LevelOk(s.levels[0], c, s.upset, 0);
    if i == 0 && !WritesOwn(w, c.n) {
      WriteKeepsSlot(s.levels[0], w, c.n);
    }
  }

  /** Whether the node was ever linked at its new level. */
  lemma StepKeepsLinked(s: State, c: Setting, step: Step)
    requires Inv(s, c) && Enabled(s, c, step)
    ensures var l, m := s.levels[c.h + 1], Apply(s, c, step).levels[c.h + 1];
            c.n in m.rank <==>
              c.n in l.rank || (step.Promote? && s.prom.Publishing? && Points(l, s.prom.pred, s.prom.succ))
  {
    var (i, w) := WriteOf(s, c, step);
    WriteFits(s, c, step);
    WriteRanks(s.levels[i], w, c.n);
  }

  lemma StepKeepsPhase(s: State, c: Setting, step: Step)
    requires Inv(s, c) && Enabled(s, c, step)
    ensures var s' := Apply(s, c, step); PhaseOk(s'.levels[c.h + 1], c, s'.raised, Removed(s', c), s'.prom)
  {
    StepKeepsRemoved(s, c, step);
    StepKeepsLinked(s, c, step);
    if step.Promote? {
      var s' := Apply(s, c, step);
      PromoteKeepsPhase(s, c, s'.levels[c.h + 1], Removed(s', c));
    }
  }

  lemma PromoteKeepsPhase(s: State, c: Setting, m: Level, removed: bool)
    requires |s.levels| == MAX_HEIGHT && c.h + 1 < MAX_HEIGHT && CanPromote(s.levels[c.h + 1], s.prom)
    requires PhaseOk(s.levels[c.h + 1], c, s.raised, Removed(s, c), s.prom) && (Removed(s, c) ==> removed)
    requires var l := s.levels[c.h + 1];
             c.n in m.rank <==> c.n in l.rank || (s.prom.Publishing? && Points(l, s.prom.pred, s.prom.succ))
    ensures PhaseOk(m, c, RaisedAfter(s, Promote), removed, PromoteOn(s, c))
  {
  }

  lemma PromoteKeepsPred(s: State, c: Setting)
    requires Inv(s, c) && Enabled(s, c, Promote)
    ensures var s' := Apply(s, c, Promote); PredOk(s'.levels[c.h + 1], c, s'.prom)
  {
    var l := s.levels[c.h + 1];
    assert LevelOk(l, c, s.upset, c.h + 1);
    WriteFits(s, c, Promote);
    if s.prom.ReadingPred? {
      assert LeadsOn(l, s.prom.pred);
    }
  }

  /** The new slot belongs to the promoter until the node is linked. */
  lemma OthersKeepPred(l: Level, w: Write, c: Setting, p: Promoter)
    requires Forward(l) && PredOk(l, c, p) && CanWrite(l, w) && (p.Publishing? ==> c.n !in l.rank)
    requires WritesOwn(w, c.n) ==> w.SetMark?
    ensures PredOk(DoWrite(l, w), c, p)
  {
    var m := DoWrite(l, w);
    WriteKeepsForward(l, w);
    if HasPred(p) {
      assert NodeEvolves(l, m, p.pred);
    }
    if p.StoringNext? || p.Publishing? {
      assert NodeEvolves(l, m, p.succ);
    }
    if !WritesOwn(w, c.n) {
      WriteKeepsSlot(l, w, c.n);
    }
  }

  lemma StepKeepsPred(s: State, c: Setting, step: Step)
    requires Inv(s, c) && Enabled(s, c, step)
    ensures var s' := Apply(s, c, step); PredOk(s'.levels[c.h + 1], c, s'.prom)
  {
    if step.Promote? {
      PromoteKeepsPred(s, c);
    } else {
      var (i, w) := WriteOf(s, c, step);
      WriteFits(s, c, step);
      assert LevelOk(s.levels[c.h + 1], c, s.upset, c.h + 1);
      OthersKeepPred(s.levels[c.h + 1], if i == c.h + 1 then w else Keep, c, s.prom);
    }
  }

  lemma AllEvolve(s: State, c: Setting, step: Step)
    requires Inv(s, c) && Enabled(s, c, step)
    ensures forall i :: 0 <= i < MAX_HEIGHT ==> Evolves(s.levels[i], Apply(s, c, step).levels[i])
  {
    forall i | 0 <= i < MAX_HEIGHT
      ensures Evolves(s.levels[i], Apply(s, c, step).levels[i])
    {
      StepKeepsLevel(s, c, step, i);
    }
  }

  lemma StepKeepsProm(s: State, c: Setting, step: Step)
    requires Inv(s, c) && Enabled(s, c, step)
    ensures PromOk(Apply(s, c, step), c)
  {
    var s' := Apply(s, c, step);
    StepKeepsPhase(s, c, step);
    StepKeepsPred(s, c, step);
    if s'.prom.Again? && s.prom.Again? {
      AllEvolve(s, c, step);
      if step.PromoterUnlinks? {
        SweepGoesOn(s, c, s.prom.height, s.prom.unlink);
      }
      SweepStays(s.levels, s'.levels, s.loaded + LoadsOf(s, c, step), s'.loaded, c.n, c.h + 1, s'.prom.unlink);
    }
  }

  lemma StepKeepsRem(s: State, c: Setting, step: Step)
    requires Inv(s, c) && Enabled(s, c, step)
    ensures RemOk(Apply(s, c, step), c)
  {
    var s' := Apply(s, c, step);
    StepKeepsRemoved(s, c, step);
    StepKeepsLinked(s, c, step);
    if s.rem.Unlinking? {
      AllEvolve(s, c, step);
      if step.RemoverUnlinks? {
        SweepGoesOn(s, c, s.rem.height, s.rem.unlink);
      }
      SweepStays(s.levels, s'.levels, s.loaded + LoadsOf(s, c, step), s'.loaded, c.n, s.rem.height, s'.rem.unlink);
    }
  }

  lemma StepKeepsInv(s: State, c: Setting, step: Step)
    requires Inv(s, c) && Enabled(s, c, step)
    ensures Inv(Apply(s, c, step), c)
  {
    var s' := Apply(s, c, step);
    forall i | 0 <= i < MAX_HEIGHT
      ensures LevelOk(s'.levels[i], c, s'.upset, i)
    {
      StepKeepsLevel(s, c, step, i);
    }
    forall p | p in s'.loaded
      ensures LoadOk(s'.levels, c, s'.upset, p)
    {
      LoadsAreOk(s, c, step, p);
      StepKeepsLevel(s, c, step, p.0);
      LoadStays(s.levels, s'.levels, c, s.upset, s'.upset, p);
    }
    StepKeepsProm(s, c, step);
    StepKeepsRem(s, c, step);
  }

  // ------------------------------------------------------------------
  // Whole runs
  // ------------------------------------------------------------------

  /** A promotion about to start, beside a remove about to start: any levels, any
      predecessor, any threads in between their loads and their swings. */
  ghost predicate Start(s: State, c: Setting) {
    Inv(s, c) && s.prom.Raising? && s.rem.ReadingHeight? && !s.upset
  }

  predicate IsRun(s: State, c: Setting, run: seq<Step>)
    requires |s.levels| == MAX_HEIGHT && c.h + 1 < MAX_HEIGHT
    decreases |run|
  {
    run == [] || (Enabled(s, c, run[0]) && IsRun(Apply(s, c, run[0]), c, run[1..]))
  }

  /** The state after the first `k` steps. */
  function After(s: State, c: Setting, run: seq<Step>, k: nat): (s': State)
    requires |s.levels| == MAX_HEIGHT && c.h + 1 < MAX_HEIGHT && IsRun(s, c, run) && k <= |run|
    ensures |s'.levels| == MAX_HEIGHT
    decreases k
  {
    if k == 0 then s else After(Apply(s, c, run[0]), c, run[1..], k - 1)
  }

  lemma {:induction false} RunStep(s: State, c: Setting, run: seq<Step>, k: nat)
    requires |s.levels| == MAX_HEIGHT && c.h + 1 < MAX_HEIGHT && IsRun(s, c, run) && k < |run|
    ensures Enabled(After(s, c, run, k), c, run[k])
    ensures After(s, c, run, k + 1) == Apply(After(s, c, run, k), c, run[k])
    decreases k
  {
    if k > 0 {
      RunStep(Apply(s, c, run[0]), c, run[1..], k - 1);
    }
  }

  /** One step more. */
  lemma {:induction false} RunMore(s: State, c: Setting, run: seq<Step>, step: Step)
    requires |s.levels| == MAX_HEIGHT && c.h + 1 < MAX_HEIGHT && IsRun(s, c, run)
    requires Enabled(After(s, c, run, |run|), c, step)
    ensures IsRun(s, c, run + [step])
    ensures After(s, c, run + [step], |run| + 1) == Apply(After(s, c, run, |run|), c, step)
    decreases |run|
  {
    if run != [] {
      RunMore(Apply(s, c, run[0]), c, run[1..], step);
      assert (run + [step])[1..] == run[1..] + [step];
    }
  }

  lemma {:induction false} RunKeepsInv(s: State, c: Setting, run: seq<Step>, k: nat)
    requires Inv(s, c) && IsRun(s, c, run) && k <= |run|
    ensures Inv(After(s, c, run, k), c)
    decreases k
  {
    if k > 0 {
      StepKeepsInv(s, c, run[0]);
      RunKeepsInv(Apply(s, c, run[0]), c, run[1..], k - 1);
    }
  }

  /** When the promotion is over, the node stands a level higher if and only if it
      was published there: a promotion that failed has taken the height back. */
  lemma EndedHeight(s: State, c: Setting, run: seq<Step>, k: nat)
    requires Start(s, c) && IsRun(s, c, run) && k <= |run| && After(s, c, run, k).prom.Done?
    ensures var t := After(s, c, run, k); Height(t, c) == c.h + 1 <==> c.n in t.levels[c.h + 1].rank
  {
    RunKeepsInv(s, c, run, k);
  }

  // ------------------------------------------------------------------
  // The order of the new level
  // ------------------------------------------------------------------

  lemma OrderedIsSorted(l: Level, key: Node -> int, n: Node)
    ensures Ordered(l, key, n, true) <==> Sorted(l, key)
  {
    if Ordered(l, key, n, true) {
      forall x
        ensures RisesAt(l, key, x)
      {
        assert OrderedAt(l, key, n, true, x);
      }
    }
  }

  /** From a level in order, the one step that leads out of order is a publish
      in front of a smaller key. */
  lemma StepKeepsSortedIff(s: State, c: Setting, step: Step)
    requires Inv(s, c) && Enabled(s, c, step) && !s.upset
    ensures Sorted(Apply(s, c, step).levels[c.h + 1], c.key) <==> !Upsets(s, c, step)
  {
    var l, s' := s.levels[c.h + 1], Apply(s, c, step);
    assert LevelOk(l, c, s.upset, c.h + 1);
    OrderedIsSorted(l, c.key, c.n);
    if Upsets(s, c, step) {
      WriteFits(s, c, step);
      LinkKeepsSortedIff(l, c.key, s.prom.pred, s.prom.succ, c.n);
    } else {
      StepKeepsLevel(s, c, step, c.h + 1);
      OrderedIsSorted(s'.levels[c.h + 1], c.key, c.n);
    }
  }

  ghost predicate SortedUntil(s: State, c: Setting, run: seq<Step>, k: nat)
    requires |s.levels| == MAX_HEIGHT && c.h + 1 < MAX_HEIGHT && IsRun(s, c, run) && k <= |run|
  {
    Sorted(After(s, c, run, k).levels[c.h + 1], c.key) && (k == 0 || SortedUntil(s, c, run, k - 1))
  }

  ghost predicate NeverUpsets(s: State, c: Setting, run: seq<Step>, k: nat)
    requires |s.levels| == MAX_HEIGHT && c.h + 1 < MAX_HEIGHT && IsRun(s, c, run) && k <= |run|
  {
    k == 0 || (!Upsets(After(s, c, run, k - 1), c, run[k - 1]) && NeverUpsets(s, c, run, k - 1))
  }

  /** Over whole runs, whatever the other threads do: the new level is in order
      in every state if and only if the node is never published in front of a
      smaller key.  (All other levels are in order anyway.) */
  lemma RunIsSortedIff(s: State, c: Setting, run: seq<Step>, k: nat)
    requires Start(s, c) && IsRun(s, c, run) && k <= |run|
    ensures SortedUntil(s, c, run, k) <==> NeverUpsets(s, c, run, k)
  {
    if SortedUntil(s, c, run, k) {
      SortedNeverUpsets(s, c, run, k);
    }
    if NeverUpsets(s, c, run, k) {
      UnupsetIsSorted(s, c, run, k);
    }
  }

  lemma {:induction false} SortedNeverUpsets(s: State, c: Setting, run: seq<Step>, k: nat)
    requires Start(s, c) && IsRun(s, c, run) && k <= |run| && SortedUntil(s, c, run, k)
    ensures NeverUpsets(s, c, run, k)
  {
    if k > 0 {
      SortedNeverUpsets(s, c, run, k - 1);
      UpsetIff(s, c, run, k - 1);
      NextIsSortedIff(s, c, run, k - 1);
    }
  }

  lemma {:induction false} UnupsetIsSorted(s: State, c: Setting, run: seq<Step>, k: nat)
    requires Start(s, c) && IsRun(s, c, run) && k <= |run| && NeverUpsets(s, c, run, k)
    ensures SortedUntil(s, c, run, k)
  {
    if k == 0 {
      assert LevelOk(s.levels[c.h + 1], c, s.upset, c.h + 1);
      OrderedIsSorted(s.levels[c.h + 1], c.key, c.n);
    } else {
      UnupsetIsSorted(s, c, run, k - 1);
      UpsetIff(s, c, run, k - 1);
      NextIsSortedIff(s, c, run, k - 1);
    }
  }

  lemma NextIsSortedIff(s: State, c: Setting, run: seq<Step>, k: nat)
    requires Inv(s, c) && IsRun(s, c, run) && k < |run| && !After(s, c, run, k).upset
    ensures Sorted(After(s, c, run, k + 1).levels[c.h + 1], c.key) <==> !Upsets(After(s, c, run, k), c, run[k])
  {
    RunKeepsInv(s, c, run, k);
    RunStep(s, c, run, k);
    StepKeepsSortedIff(After(s, c, run, k), c, run[k]);
  }

  lemma {:induction false} UpsetIff(s: State, c: Setting, run: seq<Step>, k: nat)
    requires Inv(s, c) && !s.upset && IsRun(s, c, run) && k <= |run|
    ensures NeverUpsets(s, c, run, k) <==> !After(s, c, run, k).upset
  {
    if k > 0 {
      UpsetIff(s, c, run, k - 1);
      RunStep(s, c, run, k - 1);
    }
  }

  lemma RunKeepsOtherLevelsSorted(s: State, c: Setting, run: seq<Step>, k: nat, i: nat)
    requires Start(s, c) && IsRun(s, c, run) && k <= |run| && i < MAX_HEIGHT && i != c.h + 1
    ensures Sorted(After(s, c, run, k).levels[i], c.key)
  {
    RunKeepsInv(s, c, run, k);
    var s' := After(s, c, run, k);
    assert LevelOk(s'.levels[i], c, s'.upset, i);
    OrderedIsSorted(s'.levels[i], c.key, c.n);
  }
}
