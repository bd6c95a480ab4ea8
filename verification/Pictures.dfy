/**
  Runs of the lock-free list drawn on paper: the three lowest levels, everything
  above them empty.  A picture leaves out the auxiliary order; what is drawn step
  by step is a run.
 */
module Pictures {
  import opened LevelChain
  import opened Removing
  import opened LockFree

  /** Keys are the numbers divided by ten; numbers that end in five belong to nodes
      of three levels, all others to nodes of two. */
  const PLAIN := Nodes((n: Node) => n / 10, (n: Node) => if n % 10 == 5 then 2 else 1)

  /** One level: its pointers, and the nodes ever linked there. */
  datatype Drawing = Drawing(next: map<Node, Link>, ever: set<Node>)

  /** Three levels, and where the inserts and removals stand. */
  datatype Picture = Picture(
    base: Drawing,
    upper: Drawing,
    top: Drawing,
    inserts: map<Node, Insert>,
    removals: map<Node, Removal>,
    passed: map<Node, nat>,
    hasDups: bool,
    headHeight: nat)

  function DrawingOf(l: Level): Drawing {
    Drawing(l.next, l.rank.Keys)
  }

  function PictureOf(s: State): Picture
    requires |s.levels| == MAX_HEIGHT
  {
    Picture(DrawingOf(s.levels[0]), DrawingOf(s.levels[1]), DrawingOf(s.levels[2]),
            s.inserts, s.removals, s.passed, s.hasDups, s.headHeight)
  }

  ghost predicate ShowsLevel(l: Level, d: Drawing) {
    DrawingOf(l) == d
  }

  ghost predicate Shows(s: State, p: Picture) {
    && |s.levels| == MAX_HEIGHT
    && PictureOf(s) == p && forall i :: 3 <= i < MAX_HEIGHT ==> DrawingOf(s.levels[i]) == EMPTY
  }

  const EMPTY := Drawing(map[HEAD := Link(TAIL, false)], {HEAD, TAIL})

  const BLANK := Picture(EMPTY, EMPTY, EMPTY, map[], map[], map[], false, 1)

  function At(p: Picture, level: nat): Drawing {
    if level == 0 then p.base else if level == 1 then p.upper else if level == 2 then p.top else EMPTY
  }

  lemma ShowsAt(s: State, p: Picture, level: nat)
    requires Shows(s, p) && level < MAX_HEIGHT
    ensures ShowsLevel(s.levels[level], At(p, level))
  {
  }

  function DrawWrite(d: Drawing, w: Write): Drawing
    requires w.SetMark? ==> w.n in d.next
  {
    match w
    case Keep => d
    case Put(n, succ) => Drawing(d.next[n := Link(succ, false)], d.ever)
    case LinkIn(pred, _, n) => Drawing(d.next[pred := Link(n, false)], d.ever + {n})
    case TakeOut(pred, _, succ) => Drawing(d.next[pred := Link(succ, false)], d.ever)
    case SetMark(n) => Drawing(d.next[n := d.next[n].(marked := true)], d.ever)
  }

  lemma WriteShows(l: Level, d: Drawing, w: Write)
    requires ShowsLevel(l, d) && (w.LinkIn? ==> w.pred in d.ever && w.n !in d.ever) && (w.SetMark? ==> w.n in d.next)
    ensures ShowsLevel(DoWrite(l, w), DrawWrite(d, w))
  {
  }

  // ------------------------------------------------------------------
  // The steps, on paper
  // ------------------------------------------------------------------

  predicate InsertAllowed(p: Picture, step: Step) {
    match step
    case Allocate(n) => n != HEAD && n != TAIL && n !in p.inserts
    case Fill(n, i, succ) =>
      && i <= PLAIN.height(n) && n in p.inserts && p.inserts[n].Filling?
      && succ in At(p, i).ever && Compare(PLAIN.key, n, succ) <= 0
    case LinkBase(n, pred, succ) =>
      && n in p.inserts && p.inserts[n].Filling? && (forall i :: 0 <= i <= PLAIN.height(n) ==> n in At(p, i).next)
      && pred in p.base.ever && succ in p.base.ever && n !in p.base.ever
      && n in p.base.next && Expects(p.base.next, pred, succ) && p.base.next[n].ptr == succ
      && FitsBetween(PLAIN.key, pred, n, succ) && (p.hasDups || Compare(PLAIN.key, n, succ) < 0)
    case TestSlot(n, pred, succ) =>
      && n in p.inserts && p.inserts[n].Linking? && p.inserts[n].level <= PLAIN.height(n)
      && var d := At(p, p.inserts[n].level);
      && n in d.next && pred in d.ever && succ in d.ever && FitsBetween(PLAIN.key, pred, n, succ)
      && (p.inserts[n].again || succ == d.next[n].ptr)
    case StoreSlot(n) => n in p.inserts && p.inserts[n].Storing? && p.inserts[n].level <= 2
    case LinkUpper(n) =>
      && n in p.inserts && p.inserts[n].Publishing? && p.inserts[n].level <= 2
      && var d := At(p, p.inserts[n].level);
      && n !in d.ever && p.inserts[n].pred in d.ever && Expects(d.next, p.inserts[n].pred, p.inserts[n].succ)
    case Relocate(n) =>
      && n in p.inserts && p.inserts[n].Publishing? && p.inserts[n].level <= 2
      && !Expects(At(p, p.inserts[n].level).next, p.inserts[n].pred, p.inserts[n].succ)
    case FinishInsert(n) => n in p.inserts && p.inserts[n].Linking? && PLAIN.height(n) < p.inserts[n].level
    case _ => false
  }

  predicate Allowed(p: Picture, step: Step) {
    match step
    case NoteDuplicate => true
    case SetHeadHeight(h) => p.headHeight < h < 4
    case Splice(i, pred, curr) =>
      && i <= 2 && pred in At(p, i).ever && curr in At(p, i).ever && curr != TAIL
      && Expects(At(p, i).next, pred, curr) && Read(At(p, i).next, curr).marked
    case Mark(n, i) =>
      && i <= PLAIN.height(n) && n in p.base.ever && n != HEAD && n in At(p, i).next && !At(p, i).next[n].marked
      && (i == PLAIN.height(n) || (n in p.passed && p.passed[n] <= i + 1))
    case ReadBound(n) => n in p.removals && p.removals[n].Starting? && p.headHeight < 4
    case Unlink(n) =>
      && n in p.removals && HasLevel(p.removals[n]) && p.removals[n].level < 4
      && (p.removals[n].level == 3 ==> p.removals[n].Descending? || p.removals[n].Verifying?)
    case HelpAhead(_, _) => false
    case _ => InsertAllowed(p, step)
  }

  function DrawnWrite(p: Picture, step: Step): (w: (nat, Write))
    requires Allowed(p, step)
    ensures w.0 < 4 && (w.1.SetMark? ==> w.1.n in At(p, w.0).next) && (w.0 == 3 ==> w.1.Keep?)
    ensures w.1.LinkIn? ==> w.1.pred in At(p, w.0).ever && w.1.n !in At(p, w.0).ever
  {
    match step
    case Fill(n, i, succ) => (i, Put(n, succ))
    case LinkBase(n, pred, succ) => (0, LinkIn(pred, succ, n))
    case StoreSlot(n) => (p.inserts[n].level, Put(n, p.inserts[n].succ))
    case LinkUpper(n) => (p.inserts[n].level, LinkIn(p.inserts[n].pred, p.inserts[n].succ, n))
    case Splice(i, pred, curr) => (i, TakeOut(pred, curr, Read(At(p, i).next, curr).ptr))
    case Mark(n, i) => (i, SetMark(n))
    case Unlink(n) => (p.removals[n].level, NextWrite(At(p, p.removals[n].level).next, n, p.removals[n]))
    case _ => (0, Keep)
  }

  function DrawInserts(p: Picture, step: Step): map<Node, Insert>
    requires Allowed(p, step)
  {
    match step
    case Allocate(n) => p.inserts[n := Filling]
    case LinkBase(n, _, _) => p.inserts[n := Linking(1, false)]
    case TestSlot(n, pred, succ) =>
      var i := p.inserts[n].level;
      var slot := At(p, i).next[n];
      p.inserts[n := if slot.marked then Finished
                     else if slot.ptr != succ then Storing(i, pred, succ)
                     else Publishing(i, pred, succ, p.inserts[n].again)]
    case StoreSlot(n) => p.inserts[n := Publishing(p.inserts[n].level, p.inserts[n].pred, p.inserts[n].succ, true)]
    case LinkUpper(n) => p.inserts[n := Linking(p.inserts[n].level + 1, p.inserts[n].again)]
    case Relocate(n) =>
      p.inserts[n := if n in p.base.next && p.base.next[n].marked then Finished else Linking(p.inserts[n].level, true)]
    case FinishInsert(n) => p.inserts[n := Finished]
    case _ => p.inserts
  }

  function DrawRemovals(p: Picture, step: Step): map<Node, Removal>
    requires Allowed(p, step)
  {
    match step
    case Mark(n, i) => if i == 0 then p.removals[n := Starting] else p.removals
    case ReadBound(n) =>
      var bound := if PLAIN.height(n) > p.headHeight then PLAIN.height(n) else p.headHeight;
      p.removals[n := Descending(bound, bound, false)]
    case Unlink(n) => p.removals[n := NextPhase(At(p, p.removals[n].level).next, PLAIN.key, n, p.removals[n])]
    case _ => p.removals
  }

  function DrawPassed(p: Picture, step: Step): map<Node, nat> {
    if step.Mark? && !(step.n in p.passed && p.passed[step.n] < step.level) then p.passed[step.n := step.level] else p.passed
  }

  function Draw(p: Picture, step: Step): Picture
    requires Allowed(p, step)
  {
    var (i, w) := DrawnWrite(p, step);
    Picture(if i == 0 then DrawWrite(p.base, w) else p.base,
            if i == 1 then DrawWrite(p.upper, w) else p.upper,
            if i == 2 then DrawWrite(p.top, w) else p.top,
            DrawInserts(p, step), DrawRemovals(p, step), DrawPassed(p, step), p.hasDups || step.NoteDuplicate?,
            if step.SetHeadHeight? then step.h else p.headHeight)
  }

  // ------------------------------------------------------------------
  // What is drawn happens
  // ------------------------------------------------------------------

  /** The level a step is about. */
  function LevelOf(p: Picture, step: Step): nat {
    match step
    case Fill(_, i, _) => i
    case TestSlot(n, _, _) => if n in p.inserts && p.inserts[n].Linking? then p.inserts[n].level else 0
    case StoreSlot(n) => if n in p.inserts && p.inserts[n].Storing? then p.inserts[n].level else 0
    case LinkUpper(n) => if n in p.inserts && p.inserts[n].Publishing? then p.inserts[n].level else 0
    case Relocate(n) => if n in p.inserts && p.inserts[n].Publishing? then p.inserts[n].level else 0
    case Splice(i, _, _) => i
    case Mark(_, i) => i
    case Unlink(n) => if n in p.removals && HasLevel(p.removals[n]) then p.removals[n].level else 0
    case _ => 0
  }

  lemma InsertIsEnabled(s: State, p: Picture, step: Step)
    requires Shows(s, p) && InsertAllowed(p, step)
    ensures Enabled(s, PLAIN, step)
  {
    ShowsAt(s, p, LevelOf(p, step));
    if step.LinkBase? {
      forall i | 0 <= i <= PLAIN.height(step.n)
        ensures step.n in s.levels[i].next
      {
        ShowsAt(s, p, i);
      }
    }
  }

  lemma DrawnIsEnabled(s: State, p: Picture, step: Step)
    requires Shows(s, p) && Allowed(p, step)
    ensures Enabled(s, PLAIN, step)
  {
    if InsertAllowed(p, step) {
      InsertIsEnabled(s, p, step);
    } else {
      ShowsAt(s, p, LevelOf(p, step));
    }
  }

  lemma DrawnIsWritten(s: State, p: Picture, step: Step)
    requires Shows(s, p) && Allowed(p, step) && Enabled(s, PLAIN, step)
    ensures WriteOf(s, PLAIN, step) == DrawnWrite(p, step)
  {
    ShowsAt(s, p, LevelOf(p, step));
  }

  lemma DrawnInserts(s: State, p: Picture, step: Step)
    requires Shows(s, p) && Allowed(p, step) && Enabled(s, PLAIN, step)
    ensures InsertsAfter(s, PLAIN, step) == DrawInserts(p, step)
  {
    ShowsAt(s, p, LevelOf(p, step));
  }

  lemma DrawnRemovals(s: State, p: Picture, step: Step)
    requires Shows(s, p) && Allowed(p, step) && Enabled(s, PLAIN, step)
    ensures RemovalsAfter(s, PLAIN, step) == DrawRemovals(p, step) && PassedAfter(s, step) == DrawPassed(p, step)
  {
    ShowsAt(s, p, LevelOf(p, step));
  }

  lemma LevelsShow(s: State, p: Picture, i: nat, w: Write, levels: seq<Level>)
    requires Shows(s, p) && i < 4 && (i == 3 ==> w.Keep?) && (w.LinkIn? ==> w.pred in At(p, i).ever && w.n !in At(p, i).ever)
    requires (w.SetMark? ==> w.n in At(p, i).next) && (w.SetMark? ==> w.n in s.levels[i].next)
    requires w.LinkIn? ==> w.pred in s.levels[i].rank && w.n !in s.levels[i].rank
    requires levels == s.levels[i := DoWrite(s.levels[i], w)]
    ensures ShowsLevel(levels[0], if i == 0 then DrawWrite(p.base, w) else p.base)
    ensures ShowsLevel(levels[1], if i == 1 then DrawWrite(p.upper, w) else p.upper)
    ensures ShowsLevel(levels[2], if i == 2 then DrawWrite(p.top, w) else p.top)
    ensures forall j :: 3 <= j < MAX_HEIGHT ==> ShowsLevel(levels[j], EMPTY)
  {
    ShowsAt(s, p, i);
    WriteShows(s.levels[i], At(p, i), w);
  }

  lemma DrawnHappens(s: State, p: Picture, step: Step)
    requires Shows(s, p) && Allowed(p, step)
    ensures Enabled(s, PLAIN, step) && Shows(Apply(s, PLAIN, step), Draw(p, step))
  {
    DrawnIsEnabled(s, p, step);
    DrawnLevels(s, p, step);
    DrawnInserts(s, p, step);
    DrawnRemovals(s, p, step);
  }

  lemma DrawnLevels(s: State, p: Picture, step: Step)
    requires Shows(s, p) && Allowed(p, step) && Enabled(s, PLAIN, step)
    ensures var levels, q := Apply(s, PLAIN, step).levels, Draw(p, step);
            && ShowsLevel(levels[0], q.base) && ShowsLevel(levels[1], q.upper) && ShowsLevel(levels[2], q.top)
            && forall j :: 3 <= j < MAX_HEIGHT ==> ShowsLevel(levels[j], EMPTY)
  {
    DrawnIsWritten(s, p, step);
    var (i, w) := DrawnWrite(p, step);
    ShowsAt(s, p, i);
    LevelsShow(s, p, i, w, Apply(s, PLAIN, step).levels);
  }

  /** `step` leads from one picture to the next. */
  predicate Draws(p: Picture, step: Step, q: Picture) {
    Next(p, step) == Leads(q)
  }

  datatype Sequel = Leads(p: Picture) | Stuck

  function Next(p: Picture, step: Step): Sequel {
    if Allowed(p, step) then Leads(Draw(p, step)) else Stuck
  }

  // ------------------------------------------------------------------
  // Runs, told step by step
  // ------------------------------------------------------------------

  /** A run that ends in a state as drawn. */
  ghost predicate Drawn(run: seq<Step>, p: Picture) {
    IsRun(Init(), PLAIN, run) && Shows(After(Init(), PLAIN, run, |run|), p)
  }

  lemma NothingDrawn()
    ensures Drawn([], BLANK)
  {
  }

  /** One step more. */
  lemma Then(run: seq<Step>, p: Picture, step: Step, q: Picture) returns (more: seq<Step>)
    requires Drawn(run, p) && Draws(p, step, q)
    ensures more == run + [step] && Drawn(more, q)
  {
    more := run + [step];
    DrawnHappens(After(Init(), PLAIN, run, |run|), p, step);
    RunMore(Init(), PLAIN, run, step);
  }

  /** The picture with the removal of `n` this far. */
  function With(p: Picture, n: Node, u: Removal): Picture {
    p.(removals := p.removals[n := u])
  }

  /** An access of the remover that writes nothing. */
  predicate Reads(p: Picture, n: Node, u: Removal, v: Removal) {
    && HasLevel(u) && u.level < 4 && (u.level == 3 ==> u.Descending? || u.Verifying?)
    && NextPhase(At(p, u.level).next, PLAIN.key, n, u) == v && NextWrite(At(p, u.level).next, n, u).Keep?
  }

  lemma ThenReads(run: seq<Step>, p: Picture, n: Node, u: Removal, v: Removal) returns (more: seq<Step>)
    requires Drawn(run, With(p, n, u)) && Reads(p, n, u, v)
    ensures more == run + [Unlink(n)] && Drawn(more, With(p, n, v))
  {
    ReadIsDrawn(p, n, u, v);
    more := Then(run, With(p, n, u), Unlink(n), With(p, n, v));
  }

  lemma ReadIsDrawn(p: Picture, n: Node, u: Removal, v: Removal)
    requires Reads(p, n, u, v)
    ensures Draws(With(p, n, u), Unlink(n), With(p, n, v))
  {
    assert p.removals[n := u][n := v] == p.removals[n := v];
  }
}
