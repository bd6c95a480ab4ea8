/**
  Runs in which a promotion beside a remove goes wrong: one for each kind of
  step that module TakingBack blames and that only a promotion can take, and one
  that leaves its level out of order.
 */
module Relapses {
  import opened LevelChain
  import opened Removing
  import opened Promotion
  import TakingBack

  /** Keys are the numbers divided by ten; the node has one level. */
  const WORLD := Setting((x: Node) => x / 10, 20, 0)

  const S: Node := 10
  const N: Node := 20
  const B: Node := 30

  function To(x: Node): Link {
    Link(x, false)
  }

  function Dead(x: Node): Link {
    Link(x, true)
  }

  /** The pointers of the two lowest levels, and where both threads stand; the
      levels above are empty, and the head's height is 2. */
  datatype Picture = Picture(
    base: map<Node, Link>,
    upper: map<Node, Link>,
    ever: set<Node>,
    raised: bool,
    prom: Promoter,
    rem: Remover,
    loaded: set<(nat, Node, Node)>)

  ghost predicate Shows(s: State, p: Picture) {
    && |s.levels| == MAX_HEIGHT
    && s.levels[0].next == p.base && s.levels[0].rank.Keys == {HEAD, TAIL, S, N, B}
    && s.levels[1].next == p.upper && s.levels[1].rank.Keys == p.ever
    && s.levels[2].next == map[HEAD := To(TAIL)] && s.levels[2].rank.Keys == {HEAD, TAIL}
    && s.raised == p.raised && s.prom == p.prom && s.rem == p.rem && s.loaded == p.loaded
  }

  ghost predicate Shown(s: State, run: seq<Step>, p: Picture) {
    |s.levels| == MAX_HEIGHT && IsRun(s, WORLD, run) && Shows(After(s, WORLD, run, |run|), p)
  }

  /** The step is next, and leads to the next picture. */
  ghost predicate Leads(s: State, step: Step, q: Picture) {
    |s.levels| == MAX_HEIGHT && Enabled(s, WORLD, step) && Shows(Apply(s, WORLD, step), q)
  }

  // ------------------------------------------------------------------
  // Where the runs start
  // ------------------------------------------------------------------

  const BASE: map<Node, Link> := map[HEAD := To(S), S := To(N), N := To(B), B := To(TAIL)]
  const RANKS: map<Node, nat> := map[HEAD := 0, S := 1, N := 2, B := 3, TAIL := 4]

  function Beginning(upper: Level, pred: Node): State {
    State.State(seq(MAX_HEIGHT, i => if i == 0 then Level(BASE, RANKS, {}) else if i == 1 then upper else Empty()),
                false, Raising(pred), ReadingHeight, {}, false)
  }

  lemma BaseIsOk()
    ensures LevelOk(Level(BASE, RANKS, {}), WORLD, false, 0)
  {
  }

  lemma EmptyIsOk(i: nat)
    requires i > 1
    ensures LevelOk(Empty(), WORLD, false, i)
  {
  }

  lemma EmptyAbove(s: State, upper: Level, pred: Node)
    requires s == Beginning(upper, pred)
    ensures s.levels[2].next == map[HEAD := To(TAIL)] && s.levels[2].rank.Keys == {HEAD, TAIL}
  {
    assert s.levels[2] == Empty();
  }

  lemma BeginningIsStart(upper: Level, pred: Node)
    requires LevelOk(upper, WORLD, false, 1) && pred in upper.rank && N !in upper.rank && Compare(WORLD.key, pred, N) < 0
    ensures Start(Beginning(upper, pred), WORLD)
  {
    BaseIsOk();
    var s := Beginning(upper, pred);
    forall i | 0 <= i < MAX_HEIGHT
      ensures LevelOk(s.levels[i], WORLD, false, i)
    {
      if i > 1 {
        EmptyIsOk(i);
      }
    }
  }

  // ------------------------------------------------------------------
  // The steps, on paper
  // ------------------------------------------------------------------

  predicate PromoteAllowed(p: Picture) {
    match p.prom
    case Raising(_) => true
    case ReadingPred(pred) => pred in p.upper && !p.upper[pred].marked
    case StoringNext(_, _) => N !in p.ever
    case Publishing(pred, succ) => pred in p.upper && p.upper[pred] == To(succ)
    case Rechecking(_) => N in p.base && p.base[N].marked
    case LoadingNext(_) => N in p.upper
    case Undoing(pred, _) => pred in p.upper && p.upper[pred] == To(N)
    case _ => false
  }

  function DrawPromote(p: Picture): Picture
    requires PromoteAllowed(p)
  {
    match p.prom
    case Raising(pred) => p.(raised := true, prom := ReadingPred(pred))
    case ReadingPred(pred) => p.(prom := StoringNext(pred, p.upper[pred].ptr))
    case StoringNext(pred, succ) => p.(upper := p.upper[N := To(succ)], prom := Promoter.Publishing(pred, succ))
    case Publishing(pred, _) => p.(upper := p.upper[pred := To(N)], ever := p.ever + {N}, prom := Rechecking(pred))
    case Rechecking(pred) => p.(prom := LoadingNext(pred))
    case LoadingNext(pred) => p.(prom := Undoing(pred, p.upper[N].ptr), loaded := p.loaded + {(1, N, p.upper[N].ptr)})
    case Undoing(pred, succ) => p.(upper := p.upper[pred := To(succ)], prom := Done(true))
  }

  predicate RemoveAllowed(p: Picture) {
    match p.rem
    case ReadingHeight => !p.raised
    case Marking(i) => i == 0 && N in p.base && !p.base[N].marked
    case ReadingBound => p.raised
    case Unlinking(_, _) => false
  }

  function DrawRemove(p: Picture): Picture
    requires RemoveAllowed(p)
  {
    match p.rem
    case ReadingHeight => p.(rem := Marking(0))
    case Marking(_) => p.(base := p.base[N := Dead(p.base[N].ptr)], rem := ReadingBound)
    case ReadingBound => p.(rem := Unlinking(1, Starting))
  }

  function Pointers(p: Picture, i: nat): map<Node, Link> {
    if i == 0 then p.base else if i == 1 then p.upper else map[HEAD := To(TAIL)]
  }

  /** The remover's sweep, which swings at level 0 only. */
  predicate UnlinkAllowed(p: Picture) {
    && p.rem.Unlinking? && p.rem.height == 1 && HasLevel(p.rem.unlink)
    && var u := p.rem.unlink;
       u.level <= 2 && (u.level == 0 || NextWrite(Pointers(p, u.level), N, u).Keep?)
  }

  function DrawUnlink(p: Picture): Picture
    requires UnlinkAllowed(p)
  {
    var u := p.rem.unlink;
    var next := Pointers(p, u.level);
    var w := NextWrite(next, N, u);
    p.(base := if w.TakeOut? then p.base[w.pred := To(w.succ)] else p.base,
       rem := Unlinking(1, NextPhase(next, WORLD.key, N, u)),
       loaded := p.loaded + if u.Walking? then {(u.level, u.curr, Read(next, u.curr).ptr)} else {})
  }

  predicate WriteAllowed(p: Picture, w: Write) {
    match w
    case SetMark(x) => x in p.upper && x != HEAD && x != N && !p.upper[x].marked
    case TakeOut(pred, x, t) => (1, x, t) in p.loaded && pred in p.ever && pred in p.upper && p.upper[pred] == To(x)
    case LinkIn(pred, succ, x) =>
      && pred in p.ever && succ in p.ever && x !in p.ever && x != N && x in p.upper && p.upper[x].ptr == succ
      && pred in p.upper && p.upper[pred] == To(succ) && FitsBetween(WORLD.key, pred, x, succ)
    case _ => false
  }

  function DrawWrite(p: Picture, w: Write): Picture
    requires WriteAllowed(p, w)
  {
    match w
    case SetMark(x) => p.(upper := p.upper[x := Dead(p.upper[x].ptr)])
    case TakeOut(pred, _, t) => p.(upper := p.upper[pred := To(t)])
    case LinkIn(pred, _, x) => p.(upper := p.upper[pred := To(x)], ever := p.ever + {x})
  }

  predicate Allowed(p: Picture, step: Step) {
    match step
    case Promote => PromoteAllowed(p)
    case Remove => RemoveAllowed(p)
    case RemoverReadsBound(headHeight) => headHeight == 2 && p.rem == Unlinking(1, Starting)
    case RemoverUnlinks => UnlinkAllowed(p)
    case OtherLoads(i, x) => i == 1 && x in p.ever && x in p.upper
    case OtherWrites(i, w) => i == 1 && WriteAllowed(p, w)
    case _ => false
  }

  function Draw(p: Picture, step: Step): Picture
    requires Allowed(p, step)
  {
    match step
    case Promote => DrawPromote(p)
    case Remove => DrawRemove(p)
    case RemoverReadsBound(_) => p.(rem := Unlinking(1, Descending(2, 2, false)))
    case RemoverUnlinks => DrawUnlink(p)
    case OtherLoads(_, x) => p.(loaded := p.loaded + {(1, x, p.upper[x].ptr)})
    case OtherWrites(_, w) => DrawWrite(p, w)
  }

  // ------------------------------------------------------------------
  // What is drawn happens
  // ------------------------------------------------------------------

  lemma PromoteLooks(s: State, p: Picture)
    requires Inv(s, WORLD) && Shows(s, p) && PromoteAllowed(p) && !p.prom.StoringNext? && !p.prom.Publishing? && !p.prom.Undoing?
    ensures Leads(s, Promote, DrawPromote(p))
  {
    assert Apply(s, WORLD, Promote).levels == s.levels;
  }

  lemma PromoteStores(s: State, p: Picture)
    requires Inv(s, WORLD) && Shows(s, p) && PromoteAllowed(p) && p.prom.StoringNext?
    ensures Leads(s, Promote, DrawPromote(p))
  {
  }

  lemma PromotePublishes(s: State, p: Picture)
    requires Inv(s, WORLD) && Shows(s, p) && PromoteAllowed(p) && p.prom.Publishing?
    ensures Leads(s, Promote, DrawPromote(p))
  {
    WriteFits(s, WORLD, Promote);
  }

  lemma PromoteUndoes(s: State, p: Picture)
    requires Inv(s, WORLD) && Shows(s, p) && PromoteAllowed(p) && p.prom.Undoing?
    ensures Leads(s, Promote, DrawPromote(p))
  {
    WriteFits(s, WORLD, Promote);
  }

  lemma RemoveHappens(s: State, p: Picture)
    requires Inv(s, WORLD) && Shows(s, p) && RemoveAllowed(p)
    ensures Leads(s, Remove, DrawRemove(p))
  {
  }

  lemma BoundHappens(s: State, p: Picture)
    requires Inv(s, WORLD) && Shows(s, p) && p.rem == Unlinking(1, Starting)
    ensures Leads(s, RemoverReadsBound(2), p.(rem := Unlinking(1, Descending(2, 2, false))))
  {
  }

  lemma UnlinkReads(s: State, p: Picture)
    requires Inv(s, WORLD) && Shows(s, p) && UnlinkAllowed(p) && NextWrite(Pointers(p, p.rem.unlink.level), N, p.rem.unlink).Keep?
    ensures Leads(s, RemoverUnlinks, DrawUnlink(p))
  {
    UnlinkIsDrawn(s, p);
    assert Apply(s, WORLD, RemoverUnlinks).levels == s.levels;
  }

  lemma UnlinkSwings(s: State, p: Picture)
    requires Inv(s, WORLD) && Shows(s, p) && UnlinkAllowed(p) && !NextWrite(Pointers(p, p.rem.unlink.level), N, p.rem.unlink).Keep?
    ensures Leads(s, RemoverUnlinks, DrawUnlink(p))
  {
    UnlinkIsDrawn(s, p);
    WriteFits(s, WORLD, RemoverUnlinks);
  }

  lemma UnlinkHappens(s: State, p: Picture)
    requires Inv(s, WORLD) && Shows(s, p) && UnlinkAllowed(p)
    ensures Leads(s, RemoverUnlinks, DrawUnlink(p))
  {
    if NextWrite(Pointers(p, p.rem.unlink.level), N, p.rem.unlink).Keep? {
      UnlinkReads(s, p);
    } else {
      UnlinkSwings(s, p);
    }
  }

  lemma UnlinkIsDrawn(s: State, p: Picture)
    requires Shows(s, p) && UnlinkAllowed(p)
    ensures CanUnlink(p.rem.unlink) && Pointers(p, p.rem.unlink.level) == s.levels[p.rem.unlink.level].next
    ensures GoOn(s.levels, WORLD.key, N, p.rem.unlink) == NextPhase(Pointers(p, p.rem.unlink.level), WORLD.key, N, p.rem.unlink)
    ensures SwingOf(s.levels, N, p.rem.unlink) ==
            (p.rem.unlink.level, NextWrite(Pointers(p, p.rem.unlink.level), N, p.rem.unlink))
  {
  }

  lemma OthersLook(s: State, p: Picture, x: Node)
    requires Inv(s, WORLD) && Shows(s, p) && x in p.ever && x in p.upper
    ensures Leads(s, OtherLoads(1, x), p.(loaded := p.loaded + {(1, x, p.upper[x].ptr)}))
  {
  }

  lemma OthersWrite(s: State, p: Picture, w: Write)
    requires Inv(s, WORLD) && Shows(s, p) && WriteAllowed(p, w) && !w.TakeOut?
    ensures Leads(s, OtherWrites(1, w), DrawWrite(p, w))
  {
  }

  lemma OthersTakeOut(s: State, p: Picture, w: Write)
    requires Inv(s, WORLD) && Shows(s, p) && WriteAllowed(p, w) && w.TakeOut?
    ensures Leads(s, OtherWrites(1, w), DrawWrite(p, w))
  {
    assert LoadOk(s.levels, WORLD, s.upset, (1, w.n, w.succ));
  }

  lemma DrawnHappens(s: State, p: Picture, step: Step)
    requires Inv(s, WORLD) && Shows(s, p) && Allowed(p, step)
    ensures Leads(s, step, Draw(p, step))
  {
    match step
    case Promote =>
      match p.prom {
        case StoringNext(_, _) => PromoteStores(s, p);
        case Publishing(_, _) => PromotePublishes(s, p);
        case Undoing(_, _) => PromoteUndoes(s, p);
        case _ => PromoteLooks(s, p);
      }
    case Remove => RemoveHappens(s, p);
    case RemoverReadsBound(_) => BoundHappens(s, p);
    case RemoverUnlinks => UnlinkHappens(s, p);
    case OtherLoads(_, x) => OthersLook(s, p, x);
    case OtherWrites(_, w) =>
      if w.TakeOut? {
        OthersTakeOut(s, p, w);
      } else {
        OthersWrite(s, p, w);
      }
  }

  predicate Draws(p: Picture, step: Step, q: Picture) {
    Next(p, step) == Onward(q)
  }

  datatype Sequel = Onward(p: Picture) | Stuck

  function Next(p: Picture, step: Step): Sequel {
    if Allowed(p, step) then Onward(Draw(p, step)) else Stuck
  }

  /** One step more. */
  lemma Then(s: State, run: seq<Step>, p: Picture, step: Step, q: Picture) returns (more: seq<Step>)
    requires Inv(s, WORLD) && Shown(s, run, p) && Draws(p, step, q)
    ensures more == run + [step] && Shown(s, more, q)
  {
    more := run + [step];
    RunKeepsInv(s, WORLD, run, |run|);
    DrawnHappens(After(s, WORLD, run, |run|), p, step);
    RunMore(s, WORLD, run, step);
  }

  lemma NothingYet(s: State, p: Picture)
    requires Inv(s, WORLD) && Shows(s, p)
    ensures Shown(s, [], p)
  {
  }

  lemma Meets(l: Level, a: Node)
    requires Forward(l) && a in l.rank && a != TAIL
    ensures a in l.next && l.next[a].ptr in l.rank && Walked(l, a) == {a} + Walked(l, l.next[a].ptr)
  {
    assert LeadsOn(l, a) && LeadsOn(l, l.next[a].ptr);
  }

  /** What the picture before the last step shows, and the one after it. */
  ghost predicate Ends(s: State, run: seq<Step>, p: Picture, step: Step, q: Picture) {
    && Start(s, WORLD) && IsRun(s, WORLD, run + [step])
    && Inv(After(s, WORLD, run + [step], |run|), WORLD) && Shows(After(s, WORLD, run + [step], |run|), p)
    && Inv(After(s, WORLD, run + [step], |run| + 1), WORLD) && Shows(After(s, WORLD, run + [step], |run| + 1), q)
  }

  lemma LastStep(s: State, run: seq<Step>, p: Picture, step: Step, q: Picture)
    requires Start(s, WORLD) && Shown(s, run, p) && Draws(p, step, q)
    ensures Ends(s, run, p, step, q)
  {
    var all := Then(s, run, p, step, q);
    RunKeepsInv(s, WORLD, run + [step], |run|);
    RunKeepsInv(s, WORLD, run + [step], |run| + 1);
    Prefix(s, run, [step]);
  }

  lemma {:induction false} Prefix(s: State, a: seq<Step>, b: seq<Step>)
    requires |s.levels| == MAX_HEIGHT && IsRun(s, WORLD, a) && IsRun(s, WORLD, a + b)
    ensures After(s, WORLD, a + b, |a|) == After(s, WORLD, a, |a|)
    decreases |a|
  {
    if a != [] {
      assert (a + b)[1..] == a[1..] + b;
      Prefix(Apply(s, WORLD, a[0]), a[1..], b);
    }
  }

  // ------------------------------------------------------------------
  // An outdated undo
  // ------------------------------------------------------------------

  /** `S` and `B` are linked above `N`. */
  const UPPER := Level(map[HEAD := To(S), S := To(B), B := To(TAIL), N := To(TAIL)], map[HEAD := 0, S := 1, B := 2, TAIL := 3], {})

  const BEGUN := Picture(BASE, map[HEAD := To(S), S := To(B), B := To(TAIL), N := To(TAIL)], {HEAD, TAIL, S, B},
                         false, Raising(S), ReadingHeight, {})

  /** The remover has read the old height, and the promoter is about to publish. */
  const STORED := Picture(BASE, map[HEAD := To(S), S := To(B), B := To(TAIL), N := To(B)], {HEAD, TAIL, S, B},
                          true, Promoter.Publishing(S, B), Marking(0), {})

  const MARKED: map<Node, Link> := map[HEAD := To(S), S := To(N), N := Dead(B), B := To(TAIL)]

  /** Published, removed, and about to be taken back. */
  const LOADED := Picture(MARKED, map[HEAD := To(S), S := To(N), N := To(B), B := To(TAIL)], {HEAD, TAIL, S, B, N},
                          true, Undoing(S, B), ReadingBound, {(1, N, B)})

  /** `B` is out of the level, taken from behind `N`. */
  const B_GONE := Picture(MARKED, map[HEAD := To(S), S := To(N), N := To(TAIL), B := Dead(TAIL)], {HEAD, TAIL, S, B, N},
                          true, Undoing(S, B), ReadingBound, {(1, N, B), (1, B, TAIL)})

  const B_BACK := Picture(MARKED, map[HEAD := To(S), S := To(B), N := To(TAIL), B := Dead(TAIL)], {HEAD, TAIL, S, B, N},
                          true, Done(true), ReadingBound, {(1, N, B), (1, B, TAIL)})

  /** On the way there. */
  function Promoting(prom: Promoter, rem: Remover): Picture {
    Picture(BASE, map[HEAD := To(S), S := To(B), B := To(TAIL), N := To(TAIL)], {HEAD, TAIL, S, B}, !prom.Raising?, prom, rem, {})
  }

  function Published(base: map<Node, Link>, b: Link, prom: Promoter, rem: Remover, loaded: set<(nat, Node, Node)>): Picture {
    Picture(base, map[HEAD := To(S), S := To(N), N := To(B), B := b], {HEAD, TAIL, S, B, N}, true, prom, rem, loaded)
  }

  lemma Begin() returns (s: State)
    ensures Start(s, WORLD) && Shows(s, BEGUN)
  {
    s := Beginning(UPPER, S);
    EmptyAbove(s, UPPER, S);
    assert LevelOk(UPPER, WORLD, false, 1);
    BeginningIsStart(UPPER, S);
  }

  lemma StoresN()
    ensures Draws(BEGUN, Remove, Promoting(Raising(S), Marking(0)))
    ensures Draws(Promoting(Raising(S), Marking(0)), Promote, Promoting(ReadingPred(S), Marking(0)))
    ensures Draws(Promoting(ReadingPred(S), Marking(0)), Promote, Promoting(StoringNext(S, B), Marking(0)))
    ensures Draws(Promoting(StoringNext(S, B), Marking(0)), Promote, STORED)
  {
  }

  lemma LoadsN()
    ensures Draws(STORED, Promote, Published(BASE, To(TAIL), Rechecking(S), Marking(0), {}))
    ensures Draws(Published(BASE, To(TAIL), Rechecking(S), Marking(0), {}), Remove, Published(MARKED, To(TAIL), Rechecking(S), ReadingBound, {}))
    ensures Draws(Published(MARKED, To(TAIL), Rechecking(S), ReadingBound, {}), Promote, Published(MARKED, To(TAIL), LoadingNext(S), ReadingBound, {}))
    ensures Draws(Published(MARKED, To(TAIL), LoadingNext(S), ReadingBound, {}), Promote, LOADED)
  {
  }

  lemma TakesB()
    ensures Draws(LOADED, OtherWrites(1, SetMark(B)), Published(MARKED, Dead(TAIL), Undoing(S, B), ReadingBound, {(1, N, B)}))
    ensures Draws(Published(MARKED, Dead(TAIL), Undoing(S, B), ReadingBound, {(1, N, B)}), OtherLoads(1, B),
                  Published(MARKED, Dead(TAIL), Undoing(S, B), ReadingBound, {(1, N, B), (1, B, TAIL)}))
    ensures Draws(Published(MARKED, Dead(TAIL), Undoing(S, B), ReadingBound, {(1, N, B), (1, B, TAIL)}), OtherWrites(1, TakeOut(N, B, TAIL)), B_GONE)
  {
  }

  lemma Store(s: State) returns (run: seq<Step>)
    requires Inv(s, WORLD) && Shows(s, BEGUN)
    ensures Shown(s, run, STORED)
  {
    NothingYet(s, BEGUN);
    StoresN();
    run := Then(s, [], BEGUN, Remove, Promoting(Raising(S), Marking(0)));
    run := Then(s, run, Promoting(Raising(S), Marking(0)), Promote, Promoting(ReadingPred(S), Marking(0)));
    run := Then(s, run, Promoting(ReadingPred(S), Marking(0)), Promote, Promoting(StoringNext(S, B), Marking(0)));
    run := Then(s, run, Promoting(StoringNext(S, B), Marking(0)), Promote, STORED);
  }

  lemma UpToTheUndo(s: State) returns (run: seq<Step>)
    requires Inv(s, WORLD) && Shows(s, BEGUN)
    ensures Shown(s, run, B_GONE)
  {
    run := Store(s);
    LoadsN();
    run := Then(s, run, STORED, Promote, Published(BASE, To(TAIL), Rechecking(S), Marking(0), {}));
    run := Then(s, run, Published(BASE, To(TAIL), Rechecking(S), Marking(0), {}), Remove, Published(MARKED, To(TAIL), Rechecking(S), ReadingBound, {}));
    run := Then(s, run, Published(MARKED, To(TAIL), Rechecking(S), ReadingBound, {}), Promote, Published(MARKED, To(TAIL), LoadingNext(S), ReadingBound, {}));
    run := Then(s, run, Published(MARKED, To(TAIL), LoadingNext(S), ReadingBound, {}), Promote, LOADED);
    TakesB();
    run := Then(s, run, LOADED, OtherWrites(1, SetMark(B)), Published(MARKED, Dead(TAIL), Undoing(S, B), ReadingBound, {(1, N, B)}));
    run := Then(s, run, Published(MARKED, Dead(TAIL), Undoing(S, B), ReadingBound, {(1, N, B)}), OtherLoads(1, B),
                Published(MARKED, Dead(TAIL), Undoing(S, B), ReadingBound, {(1, N, B), (1, B, TAIL)}));
    run := Then(s, run, Published(MARKED, Dead(TAIL), Undoing(S, B), ReadingBound, {(1, N, B), (1, B, TAIL)}), OtherWrites(1, TakeOut(N, B, TAIL)), B_GONE);
  }

  lemma BIsGone(t: State)
    requires Inv(t, WORLD) && Shows(t, B_GONE)
    ensures B in t.levels[1].rank && Slot(t.levels[1], B).marked && !Reachable(t.levels[1], B)
    ensures TakingBack.Outdated(t, WORLD, Promote, 1)
  {
    var l := t.levels[1];
    assert LevelOk(l, WORLD, t.upset, 1);
    Meets(l, HEAD);
    Meets(l, S);
    Meets(l, N);
    assert Walked(l, TAIL) == {TAIL};
    ReachedIsReachable(l, B);
  }

  lemma BIsBack(t: State)
    requires Inv(t, WORLD) && Shows(t, B_BACK)
    ensures Reachable(t.levels[1], B)
  {
    var l := t.levels[1];
    assert LevelOk(l, WORLD, t.upset, 1);
    Meets(l, HEAD);
    Meets(l, S);
    Meets(l, B);
    ReachedIsReachable(l, B);
  }

  lemma UndoesB()
    ensures Draws(B_GONE, Promote, B_BACK)
  {
  }

  lemma UndoHappens() returns (s: State, run: seq<Step>)
    ensures Ends(s, run, B_GONE, Promote, B_BACK)
  {
    s := Begin();
    run := UpToTheUndo(s);
    UndoesB();
    LastStep(s, run, B_GONE, Promote, B_BACK);
  }

  /** The promoter takes its link back to where the node pointed before, and the
      removed `B`, taken out from behind the node meanwhile, is on the level
      again. */
  lemma UndoBringsBack() returns (s: State, run: seq<Step>)
    ensures Start(s, WORLD) && IsRun(s, WORLD, run + [Promote])
    ensures var t, t' := After(s, WORLD, run + [Promote], |run|), After(s, WORLD, run + [Promote], |run| + 1);
            && TakingBack.Outdated(t, WORLD, Promote, 1)
            && B in t.levels[1].rank && Slot(t.levels[1], B).marked
            && !Reachable(t.levels[1], B) && Reachable(t'.levels[1], B)
  {
    s, run := UndoHappens();
    BIsGone(After(s, WORLD, run + [Promote], |run|));
    BIsBack(After(s, WORLD, run + [Promote], |run| + 1));
  }

  // ------------------------------------------------------------------
  // An undo aside
  // ------------------------------------------------------------------

  const UNLINKED: map<Node, Link> := map[HEAD := To(S), S := To(B), N := Dead(B), B := To(TAIL)]
  const BEHIND_S: map<Node, Link> := map[HEAD := To(S), S := To(B), B := To(TAIL), N := To(B)]

  /** The remover has marked the node, and sweeps and scans both levels. */
  function Swept(base: map<Node, Link>, rem: Remover, loaded: set<(nat, Node, Node)>): Picture {
    Picture(base, BEHIND_S, {HEAD, TAIL, S, B}, true, Promoter.Publishing(S, B), rem, loaded)
  }

  const SEEN: set<(nat, Node, Node)> := {(1, S, B), (1, B, TAIL)}
  const SEEN_S: set<(nat, Node, Node)> := {(1, S, B), (1, B, TAIL), (0, S, N)}
  const SEEN_N: set<(nat, Node, Node)> := {(1, S, B), (1, B, TAIL), (0, S, N), (0, N, B)}
  const SEEN_ALL: set<(nat, Node, Node)> := {(1, S, B), (1, B, TAIL), (0, S, N), (0, N, B), (1, S, N)}

  const RETIRED := Swept(UNLINKED, Unlinking(1, Retired), SEEN_N)

  /** Published all the same, and then `S` is taken out of the level. */
  function Passed(head: Link, s: Link, prom: Promoter, loaded: set<(nat, Node, Node)>): Picture {
    Picture(UNLINKED, map[HEAD := head, S := s, B := To(TAIL), N := To(B)], {HEAD, TAIL, S, B, N}, true, prom, Unlinking(1, Retired), loaded)
  }

  const UNDOING := Passed(To(N), To(N), Undoing(S, B), SEEN_ALL + {(1, N, B)})
  const UNDONE := Passed(To(N), To(B), Done(true), SEEN_ALL + {(1, N, B)})

  lemma MarksN()
    ensures Draws(STORED, Remove, Swept(MARKED, ReadingBound, {}))
    ensures Draws(Swept(MARKED, ReadingBound, {}), Remove, Swept(MARKED, Unlinking(1, Starting), {}))
    ensures Draws(Swept(MARKED, Unlinking(1, Starting), {}), RemoverReadsBound(2), Swept(MARKED, Unlinking(1, Descending(2, 2, false)), {}))
    ensures Draws(Swept(MARKED, Unlinking(1, Descending(2, 2, false)), {}), RemoverUnlinks, Swept(MARKED, Unlinking(1, Descending(2, 1, false)), {}))
  {
  }

  lemma SweepsUpper()
    ensures Draws(Swept(MARKED, Unlinking(1, Descending(2, 1, false)), {}), RemoverUnlinks, Swept(MARKED, Unlinking(1, Walking(2, 1, HEAD, S, false)), {}))
    ensures Draws(Swept(MARKED, Unlinking(1, Walking(2, 1, HEAD, S, false)), {}), RemoverUnlinks,
                  Swept(MARKED, Unlinking(1, Walking(2, 1, S, B, false)), {(1, S, B)}))
    ensures Draws(Swept(MARKED, Unlinking(1, Walking(2, 1, S, B, false)), {(1, S, B)}), RemoverUnlinks,
                  Swept(MARKED, Unlinking(1, Descending(2, 0, false)), SEEN))
  {
  }

  lemma SweepsBase()
    ensures Draws(Swept(MARKED, Unlinking(1, Descending(2, 0, false)), SEEN), RemoverUnlinks, Swept(MARKED, Unlinking(1, Walking(2, 0, HEAD, S, false)), SEEN))
    ensures Draws(Swept(MARKED, Unlinking(1, Walking(2, 0, HEAD, S, false)), SEEN), RemoverUnlinks,
                  Swept(MARKED, Unlinking(1, Walking(2, 0, S, N, false)), SEEN_S))
    ensures Draws(Swept(MARKED, Unlinking(1, Walking(2, 0, S, N, false)), SEEN_S), RemoverUnlinks,
                  Swept(MARKED, Unlinking(1, Swinging(2, 0, S, Dead(B), false)), SEEN_N))
    ensures Draws(Swept(MARKED, Unlinking(1, Swinging(2, 0, S, Dead(B), false)), SEEN_N), RemoverUnlinks,
                  Swept(UNLINKED, Unlinking(1, Verifying(2, HEAD)), SEEN_N))
  {
  }

  lemma ScansUpper()
    ensures Draws(Swept(UNLINKED, Unlinking(1, Verifying(2, HEAD)), SEEN_N), RemoverUnlinks, Swept(UNLINKED, Unlinking(1, Verifying(1, HEAD)), SEEN_N))
    ensures Draws(Swept(UNLINKED, Unlinking(1, Verifying(1, HEAD)), SEEN_N), RemoverUnlinks, Swept(UNLINKED, Unlinking(1, Verifying(1, S)), SEEN_N))
    ensures Draws(Swept(UNLINKED, Unlinking(1, Verifying(1, S)), SEEN_N), RemoverUnlinks, Swept(UNLINKED, Unlinking(1, Verifying(0, HEAD)), SEEN_N))
  {
  }

  lemma ScansBase()
    ensures Draws(Swept(UNLINKED, Unlinking(1, Verifying(0, HEAD)), SEEN_N), RemoverUnlinks, Swept(UNLINKED, Unlinking(1, Verifying(0, S)), SEEN_N))
    ensures Draws(Swept(UNLINKED, Unlinking(1, Verifying(0, S)), SEEN_N), RemoverUnlinks, RETIRED)
  {
  }

  lemma SweepUpper(s: State, run: seq<Step>) returns (more: seq<Step>)
    requires Inv(s, WORLD) && Shown(s, run, STORED)
    ensures Shown(s, more, Swept(MARKED, Unlinking(1, Descending(2, 0, false)), SEEN))
  {
    MarksN();
    more := Then(s, run, STORED, Remove, Swept(MARKED, ReadingBound, {}));
    more := Then(s, more, Swept(MARKED, ReadingBound, {}), Remove, Swept(MARKED, Unlinking(1, Starting), {}));
    more := Then(s, more, Swept(MARKED, Unlinking(1, Starting), {}), RemoverReadsBound(2), Swept(MARKED, Unlinking(1, Descending(2, 2, false)), {}));
    more := Then(s, more, Swept(MARKED, Unlinking(1, Descending(2, 2, false)), {}), RemoverUnlinks, Swept(MARKED, Unlinking(1, Descending(2, 1, false)), {}));
    SweepsUpper();
    more := Then(s, more, Swept(MARKED, Unlinking(1, Descending(2, 1, false)), {}), RemoverUnlinks, Swept(MARKED, Unlinking(1, Walking(2, 1, HEAD, S, false)), {}));
    more := Then(s, more, Swept(MARKED, Unlinking(1, Walking(2, 1, HEAD, S, false)), {}), RemoverUnlinks,
                 Swept(MARKED, Unlinking(1, Walking(2, 1, S, B, false)), {(1, S, B)}));
    more := Then(s, more, Swept(MARKED, Unlinking(1, Walking(2, 1, S, B, false)), {(1, S, B)}), RemoverUnlinks,
                 Swept(MARKED, Unlinking(1, Descending(2, 0, false)), SEEN));
  }

  lemma SweepBase(s: State, run: seq<Step>) returns (more: seq<Step>)
    requires Inv(s, WORLD) && Shown(s, run, Swept(MARKED, Unlinking(1, Descending(2, 0, false)), SEEN))
    ensures Shown(s, more, Swept(UNLINKED, Unlinking(1, Verifying(2, HEAD)), SEEN_N))
  {
    SweepsBase();
    more := Then(s, run, Swept(MARKED, Unlinking(1, Descending(2, 0, false)), SEEN), RemoverUnlinks, Swept(MARKED, Unlinking(1, Walking(2, 0, HEAD, S, false)), SEEN));
    more := Then(s, more, Swept(MARKED, Unlinking(1, Walking(2, 0, HEAD, S, false)), SEEN), RemoverUnlinks,
                 Swept(MARKED, Unlinking(1, Walking(2, 0, S, N, false)), SEEN_S));
    more := Then(s, more, Swept(MARKED, Unlinking(1, Walking(2, 0, S, N, false)), SEEN_S), RemoverUnlinks,
                 Swept(MARKED, Unlinking(1, Swinging(2, 0, S, Dead(B), false)), SEEN_N));
    more := Then(s, more, Swept(MARKED, Unlinking(1, Swinging(2, 0, S, Dead(B), false)), SEEN_N), RemoverUnlinks,
                 Swept(UNLINKED, Unlinking(1, Verifying(2, HEAD)), SEEN_N));
  }

  lemma Scan(s: State, run: seq<Step>) returns (more: seq<Step>)
    requires Inv(s, WORLD) && Shown(s, run, Swept(UNLINKED, Unlinking(1, Verifying(2, HEAD)), SEEN_N))
    ensures Shown(s, more, RETIRED)
  {
    ScansUpper();
    more := Then(s, run, Swept(UNLINKED, Unlinking(1, Verifying(2, HEAD)), SEEN_N), RemoverUnlinks, Swept(UNLINKED, Unlinking(1, Verifying(1, HEAD)), SEEN_N));
    more := Then(s, more, Swept(UNLINKED, Unlinking(1, Verifying(1, HEAD)), SEEN_N), RemoverUnlinks, Swept(UNLINKED, Unlinking(1, Verifying(1, S)), SEEN_N));
    more := Then(s, more, Swept(UNLINKED, Unlinking(1, Verifying(1, S)), SEEN_N), RemoverUnlinks, Swept(UNLINKED, Unlinking(1, Verifying(0, HEAD)), SEEN_N));
    ScansBase();
    more := Then(s, more, Swept(UNLINKED, Unlinking(1, Verifying(0, HEAD)), SEEN_N), RemoverUnlinks, Swept(UNLINKED, Unlinking(1, Verifying(0, S)), SEEN_N));
    more := Then(s, more, Swept(UNLINKED, Unlinking(1, Verifying(0, S)), SEEN_N), RemoverUnlinks, RETIRED);
  }

  /** `S` is lowered, its link at the level undone without a mark. */
  lemma PassesS()
    ensures Draws(RETIRED, Promote, Passed(To(S), To(N), Rechecking(S), SEEN_N))
    ensures Draws(Passed(To(S), To(N), Rechecking(S), SEEN_N), OtherLoads(1, S), Passed(To(S), To(N), Rechecking(S), SEEN_ALL))
    ensures Draws(Passed(To(S), To(N), Rechecking(S), SEEN_ALL), OtherWrites(1, TakeOut(HEAD, S, N)), Passed(To(N), To(N), Rechecking(S), SEEN_ALL))
  {
  }

  lemma LoadsAgain()
    ensures Draws(Passed(To(N), To(N), Rechecking(S), SEEN_ALL), Promote, Passed(To(N), To(N), LoadingNext(S), SEEN_ALL))
    ensures Draws(Passed(To(N), To(N), LoadingNext(S), SEEN_ALL), Promote, UNDOING)
    ensures Draws(UNDOING, Promote, UNDONE)
  {
  }

  lemma PassS(s: State, run: seq<Step>) returns (more: seq<Step>)
    requires Inv(s, WORLD) && Shown(s, run, RETIRED)
    ensures Shown(s, more, UNDOING)
  {
    PassesS();
    more := Then(s, run, RETIRED, Promote, Passed(To(S), To(N), Rechecking(S), SEEN_N));
    more := Then(s, more, Passed(To(S), To(N), Rechecking(S), SEEN_N), OtherLoads(1, S), Passed(To(S), To(N), Rechecking(S), SEEN_ALL));
    more := Then(s, more, Passed(To(S), To(N), Rechecking(S), SEEN_ALL), OtherWrites(1, TakeOut(HEAD, S, N)), Passed(To(N), To(N), Rechecking(S), SEEN_ALL));
    LoadsAgain();
    more := Then(s, more, Passed(To(N), To(N), Rechecking(S), SEEN_ALL), Promote, Passed(To(N), To(N), LoadingNext(S), SEEN_ALL));
    more := Then(s, more, Passed(To(N), To(N), LoadingNext(S), SEEN_ALL), Promote, UNDOING);
  }

  lemma AsideHappens() returns (s: State, run: seq<Step>)
    ensures Ends(s, run, UNDOING, Promote, UNDONE)
  {
    s := Begin();
    run := Store(s);
    run := SweepUpper(s, run);
    run := SweepBase(s, run);
    run := Scan(s, run);
    run := PassS(s, run);
    LoadsAgain();
    LastStep(s, run, UNDOING, Promote, UNDONE);
  }

  lemma SIsAside(t: State)
    requires Inv(t, WORLD) && Shows(t, UNDOING)
    ensures TakingBack.Aside(t, WORLD, Promote, 1)
  {
    var l := t.levels[1];
    assert LevelOk(l, WORLD, t.upset, 1);
    Meets(l, HEAD);
    Meets(l, N);
    Meets(l, B);
    assert Walked(l, TAIL) == {TAIL};
  }

  lemma NIsStillThere(t: State)
    requires Inv(t, WORLD) && Shows(t, UNDONE)
    ensures TakingBack.Ended(t) && Reachable(t.levels[1], N)
  {
    var l := t.levels[1];
    assert LevelOk(l, WORLD, t.upset, 1);
    Meets(l, HEAD);
    Meets(l, N);
    ReachedIsReachable(l, N);
  }

  /** The remover scans both levels and retires the node before it is published;
      then the promoter's predecessor is taken out of the level from in front of
      it.  The undo succeeds on that predecessor, and the retired node stays. */
  lemma RetiredStaysReachable() returns (s: State, run: seq<Step>)
    ensures Start(s, WORLD) && IsRun(s, WORLD, run + [Promote])
    ensures TakingBack.Aside(After(s, WORLD, run + [Promote], |run|), WORLD, Promote, 1)
    ensures var t := After(s, WORLD, run + [Promote], |run| + 1); TakingBack.Ended(t) && Reachable(t.levels[1], N)
  {
    s, run := AsideHappens();
    SIsAside(After(s, WORLD, run + [Promote], |run|));
    NIsStillThere(After(s, WORLD, run + [Promote], |run| + 1));
  }

  // ------------------------------------------------------------------
  // A level out of order
  // ------------------------------------------------------------------

  const LOW := Level(map[HEAD := To(TAIL), S := To(TAIL), N := To(TAIL)], map[HEAD := 0, TAIL := 1], {})

  /** `S` is about to be linked above level 0; the promoter has found the head to
      be the predecessor. */
  const WAITING := Picture(BASE, map[HEAD := To(TAIL), S := To(TAIL), N := To(TAIL)], {HEAD, TAIL},
                           false, Raising(HEAD), ReadingHeight, {})

  const FOUND_S := Picture(BASE, map[HEAD := To(S), S := To(TAIL), N := To(S)], {HEAD, TAIL, S},
                           true, Promoter.Publishing(HEAD, S), ReadingHeight, {})

  const UPSET := Picture(BASE, map[HEAD := To(N), S := To(TAIL), N := To(S)], {HEAD, TAIL, S, N},
                         true, Rechecking(HEAD), ReadingHeight, {})

  lemma Wait() returns (s: State)
    ensures Start(s, WORLD) && Shows(s, WAITING)
  {
    s := Beginning(LOW, HEAD);
    EmptyAbove(s, LOW, HEAD);
    assert LevelOk(LOW, WORLD, false, 1);
    BeginningIsStart(LOW, HEAD);
  }

  function Behind(raised: bool, prom: Promoter): Picture {
    Picture(BASE, map[HEAD := To(S), S := To(TAIL), N := To(TAIL)], {HEAD, TAIL, S}, raised, prom, ReadingHeight, {})
  }

  lemma FindsS()
    ensures Draws(WAITING, OtherWrites(1, LinkIn(HEAD, TAIL, S)), Behind(false, Raising(HEAD)))
    ensures Draws(Behind(false, Raising(HEAD)), Promote, Behind(true, ReadingPred(HEAD)))
    ensures Draws(Behind(true, ReadingPred(HEAD)), Promote, Behind(true, StoringNext(HEAD, S)))
    ensures Draws(Behind(true, StoringNext(HEAD, S)), Promote, FOUND_S) && Draws(FOUND_S, Promote, UPSET)
  {
  }

  lemma UpsetHappens() returns (s: State, run: seq<Step>)
    ensures Ends(s, run, FOUND_S, Promote, UPSET)
  {
    s := Wait();
    NothingYet(s, WAITING);
    FindsS();
    run := Then(s, [], WAITING, OtherWrites(1, LinkIn(HEAD, TAIL, S)), Behind(false, Raising(HEAD)));
    run := Then(s, run, Behind(false, Raising(HEAD)), Promote, Behind(true, ReadingPred(HEAD)));
    run := Then(s, run, Behind(true, ReadingPred(HEAD)), Promote, Behind(true, StoringNext(HEAD, S)));
    run := Then(s, run, Behind(true, StoringNext(HEAD, S)), Promote, FOUND_S);
    LastStep(s, run, FOUND_S, Promote, UPSET);
  }

  /** An insert links a smaller key behind the predecessor before the promoter
      reads its pointer: the node is published in front of it. */
  lemma PublishUpsets() returns (s: State, run: seq<Step>)
    ensures Start(s, WORLD) && IsRun(s, WORLD, run + [Promote])
    ensures Sorted(After(s, WORLD, run + [Promote], |run|).levels[1], WORLD.key)
    ensures !Sorted(After(s, WORLD, run + [Promote], |run| + 1).levels[1], WORLD.key)
  {
    s, run := UpsetHappens();
    FoundIsSorted(After(s, WORLD, run + [Promote], |run|));
    UpsetIsNot(After(s, WORLD, run + [Promote], |run| + 1));
  }

  lemma FoundIsSorted(t: State)
    requires Inv(t, WORLD) && Shows(t, FOUND_S)
    ensures Sorted(t.levels[1], WORLD.key)
  {
    var l := t.levels[1];
    forall x
      ensures RisesAt(l, WORLD.key, x)
    {
    }
  }

  lemma UpsetIsNot(t: State)
    requires Inv(t, WORLD) && Shows(t, UPSET)
    ensures !Sorted(t.levels[1], WORLD.key)
  {
    assert !RisesAt(t.levels[1], WORLD.key, N);
  }
}
