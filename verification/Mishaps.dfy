/**
  Runs in which a retired node can be reached again: one for each kind of step
  that module Retirement blames.  They are told picture by picture, with the
  sweeps and verifications of all removers that take part.
 */
module Mishaps {
  import opened LevelChain
  import opened Removing
  import opened LockFree
  import opened Erasure
  import opened Retirement
  import opened Pictures

  const A: Node := 10
  const B: Node := 20
  const D: Node := 30

  function To(n: Node): Link {
    Link(n, false)
  }

  function Dead(n: Node): Link {
    Link(n, true)
  }

  /** Two levels are in use. */
  function Scene(base: Drawing, upper: Drawing, inserts: map<Node, Insert>, removals: map<Node, Removal>, passed: map<Node, nat>): Picture {
    Picture(base, upper, EMPTY, inserts, removals, passed, false, 2)
  }

  // ------------------------------------------------------------------
  // D is inserted
  // ------------------------------------------------------------------

  const D_FREE := Drawing(map[HEAD := To(TAIL), D := To(TAIL)], {HEAD, TAIL})
  const D_ON := Drawing(map[HEAD := To(D), D := To(TAIL)], {HEAD, TAIL, D})

  const D_FILLED := Scene(D_FREE, D_FREE, map[D := Filling], map[], map[])

  /** `D` is in the list, and about to be linked at level 1. */
  const D_TESTED := Scene(D_ON, D_FREE, map[D := Publishing(1, HEAD, TAIL, false)], map[], map[])

  const D_ALONE := Scene(D_ON, D_ON, map[D := Finished], map[], map[])

  /** On the way there. */
  const D_NEW := Scene(EMPTY, EMPTY, map[D := Filling], map[], map[])
  const D_HALF := Scene(D_FREE, EMPTY, map[D := Filling], map[], map[])
  const D_BASED := Scene(D_ON, D_FREE, map[D := Linking(1, false)], map[], map[])
  const D_LINKED := Scene(D_ON, D_ON, map[D := Linking(2, false)], map[], map[])

  lemma FillsD()
    ensures Draws(BLANK, Allocate(D), D_NEW.(headHeight := 1)) && Draws(D_NEW.(headHeight := 1), SetHeadHeight(2), D_NEW)
    ensures Draws(D_NEW, Fill(D, 0, TAIL), D_HALF) && Draws(D_HALF, Fill(D, 1, TAIL), D_FILLED)
  {
  }

  lemma BasesD()
    ensures Draws(D_FILLED, LinkBase(D, HEAD, TAIL), D_BASED) && Draws(D_BASED, TestSlot(D, HEAD, TAIL), D_TESTED)
  {
  }

  lemma LinksD()
    ensures Draws(D_TESTED, LinkUpper(D), D_LINKED) && Draws(D_LINKED, FinishInsert(D), D_ALONE)
  {
  }

  lemma BeginD() returns (run: seq<Step>)
    ensures Drawn(run, D_TESTED)
  {
    NothingDrawn();
    FillsD();
    run := Then([], BLANK, Allocate(D), D_NEW.(headHeight := 1));
    run := Then(run, D_NEW.(headHeight := 1), SetHeadHeight(2), D_NEW);
    run := Then(run, D_NEW, Fill(D, 0, TAIL), D_HALF);
    run := Then(run, D_HALF, Fill(D, 1, TAIL), D_FILLED);
    BasesD();
    run := Then(run, D_FILLED, LinkBase(D, HEAD, TAIL), D_BASED);
    run := Then(run, D_BASED, TestSlot(D, HEAD, TAIL), D_TESTED);
  }

  lemma InsertD() returns (run: seq<Step>)
    ensures Drawn(run, D_ALONE)
  {
    run := BeginD();
    LinksD();
    run := Then(run, D_TESTED, LinkUpper(D), D_LINKED);
    run := Then(run, D_LINKED, FinishInsert(D), D_ALONE);
  }

  // ------------------------------------------------------------------
  // A is linked in front of it, and a mark of it erased
  // ------------------------------------------------------------------

  /** A level at which `A` and `D` have been linked. */
  function Pair(h: Link, a: Link, d: Link): Drawing {
    Drawing(map[HEAD := h, A := a, D := d], {HEAD, TAIL, A, D})
  }

  /** One at which only `D` has; the slot of `A` is filled. */
  function Lone(h: Link, a: Link): Drawing {
    Drawing(map[HEAD := h, A := a, D := To(TAIL)], {HEAD, TAIL} + if h == To(D) then {D} else {})
  }

  /** The search for the place of `A` has seen level 1 empty and `D` below. */
  const A_NEW := Scene(D_ON, D_FREE, map[A := Filling, D := Publishing(1, HEAD, TAIL, false)], map[], map[])
  const A_HALF := Scene(Lone(To(D), To(D)), D_FREE, map[A := Filling, D := Publishing(1, HEAD, TAIL, false)], map[], map[])
  const A_FULL := Scene(Lone(To(D), To(D)), Lone(To(TAIL), To(TAIL)), map[A := Filling, D := Publishing(1, HEAD, TAIL, false)], map[], map[])

  /** Then `D` is linked at level 1. */
  const A_WAITS := Scene(Lone(To(D), To(D)), Lone(To(D), To(TAIL)), map[A := Filling, D := Linking(2, false)], map[], map[])
  const A_FILLED := Scene(Lone(To(D), To(D)), Lone(To(D), To(TAIL)), map[A := Filling, D := Finished], map[], map[])

  /** `A` is linked at level 0, and stands at `insert` above. */
  function Above(upper: Drawing, insert: Insert, passed: map<Node, nat>): Picture {
    Scene(Pair(To(A), To(D), To(TAIL)), upper, map[A := insert, D := Finished], map[], passed)
  }

  /** Its first try at level 1 fails; its second search finds `D`.  A remover marks
      its slot, the store erases the mark, and `A` is linked there after all. */
  const A_BASED := Above(Lone(To(D), To(TAIL)), Linking(1, false), map[])
  const A_TRIED := Above(Lone(To(D), To(TAIL)), Publishing(1, HEAD, TAIL, false), map[])
  const A_AGAIN := Above(Lone(To(D), To(TAIL)), Linking(1, true), map[])
  const A_STORING := Above(Lone(To(D), To(TAIL)), Storing(1, HEAD, D), map[])
  const A_MARKED := Above(Lone(To(D), Dead(TAIL)), Storing(1, HEAD, D), map[A := 1])
  const A_STORED := Above(Lone(To(D), To(D)), Publishing(1, HEAD, D, true), map[A := 1])
  const A_LINKED := Above(Pair(To(A), To(D), To(TAIL)), Linking(2, true), map[A := 1])
  const A_LATE := Above(Pair(To(A), To(D), To(TAIL)), Finished, map[A := 1])

  lemma FillsA()
    ensures Draws(D_TESTED, Allocate(A), A_NEW) && Draws(A_NEW, Fill(A, 0, D), A_HALF) && Draws(A_HALF, Fill(A, 1, TAIL), A_FULL)
  {
  }

  lemma LinksDFirst()
    ensures Draws(A_FULL, LinkUpper(D), A_WAITS)
  {
  }

  lemma FinishesD()
    ensures Draws(A_WAITS, FinishInsert(D), A_FILLED)
  {
  }

  lemma BasesA()
    ensures Draws(A_FILLED, LinkBase(A, HEAD, D), A_BASED)
  {
  }

  lemma TriesA()
    ensures Draws(A_BASED, TestSlot(A, HEAD, TAIL), A_TRIED) && Draws(A_TRIED, Relocate(A), A_AGAIN)
  {
  }

  lemma TestsAAgain()
    ensures Draws(A_AGAIN, TestSlot(A, HEAD, D), A_STORING)
  {
  }

  lemma MarksAAbove()
    ensures Draws(A_STORING, Mark(A, 1), A_MARKED)
  {
  }

  lemma ErasesA()
    ensures Draws(A_MARKED, StoreSlot(A), A_STORED)
  {
  }

  lemma LinksA()
    ensures Draws(A_STORED, LinkUpper(A), A_LINKED)
  {
  }

  lemma FinishesA()
    ensures Draws(A_LINKED, FinishInsert(A), A_LATE)
  {
  }

  lemma BeginA() returns (run: seq<Step>)
    ensures Drawn(run, A_BASED)
  {
    run := BeginD();
    FillsA();
    run := Then(run, D_TESTED, Allocate(A), A_NEW);
    run := Then(run, A_NEW, Fill(A, 0, D), A_HALF);
    run := Then(run, A_HALF, Fill(A, 1, TAIL), A_FULL);
    LinksDFirst();
    run := Then(run, A_FULL, LinkUpper(D), A_WAITS);
    FinishesD();
    run := Then(run, A_WAITS, FinishInsert(D), A_FILLED);
    BasesA();
    run := Then(run, A_FILLED, LinkBase(A, HEAD, D), A_BASED);
  }

  lemma InsertA() returns (run: seq<Step>)
    ensures Drawn(run, A_LATE)
  {
    run := BeginA();
    TriesA();
    run := Then(run, A_BASED, TestSlot(A, HEAD, TAIL), A_TRIED);
    run := Then(run, A_TRIED, Relocate(A), A_AGAIN);
    TestsAAgain();
    run := Then(run, A_AGAIN, TestSlot(A, HEAD, D), A_STORING);
    MarksAAbove();
    run := Then(run, A_STORING, Mark(A, 1), A_MARKED);
    ErasesA();
    run := Then(run, A_MARKED, StoreSlot(A), A_STORED);
    LinksA();
    run := Then(run, A_STORED, LinkUpper(A), A_LINKED);
    FinishesA();
    run := Then(run, A_LINKED, FinishInsert(A), A_LATE);
  }

  /** The remover goes on to level 0. */
  const A_ERASED := Scene(Pair(To(A), Dead(D), To(TAIL)), Pair(To(A), To(D), To(TAIL)),
                          map[A := Finished, D := Finished], map[A := Starting], map[A := 0])

  lemma MarksA()
    ensures Draws(A_LATE, Mark(A, 0), A_ERASED)
  {
  }

  lemma Erase() returns (run: seq<Step>)
    ensures Drawn(run, A_ERASED)
  {
    run := InsertA();
    MarksA();
    run := Then(run, A_LATE, Mark(A, 0), A_ERASED);
  }

  // ------------------------------------------------------------------
  // An outdated swing
  // ------------------------------------------------------------------

  lemma SweepsToA()
    ensures Draws(A_ERASED, ReadBound(A), With(A_ERASED, A, Descending(2, 2, false)))
    ensures Reads(A_ERASED, A, Descending(2, 2, false), Descending(2, 1, false))
    ensures Reads(A_ERASED, A, Descending(2, 1, false), Walking(2, 1, HEAD, A, false))
    ensures Reads(A_ERASED, A, Walking(2, 1, HEAD, A, false), Swinging(2, 1, HEAD, To(D), false))
  {
  }

  const AIMED := Swinging(2, 1, HEAD, To(D), false)

  /** The remover of `A` has loaded its successor `D`, and is about to swing the
      head. */
  lemma ReachA() returns (run: seq<Step>)
    ensures Drawn(run, With(A_ERASED, A, AIMED))
  {
    run := Erase();
    SweepsToA();
    run := Then(run, A_ERASED, ReadBound(A), With(A_ERASED, A, Descending(2, 2, false)));
    run := ThenReads(run, A_ERASED, A, Descending(2, 2, false), Descending(2, 1, false));
    run := ThenReads(run, A_ERASED, A, Descending(2, 1, false), Walking(2, 1, HEAD, A, false));
    run := ThenReads(run, A_ERASED, A, Walking(2, 1, HEAD, A, false), AIMED);
  }

  /** Meanwhile `D` is removed: its remover takes it out from behind `A` at
      level 1, and takes both out at level 0. */
  function Beside(base: Drawing, upper: Drawing): Picture {
    Scene(base, upper, map[A := Finished, D := Finished], map[A := AIMED, D := Starting], map[A := 0, D := 0])
  }

  const D_HALF_DEAD := Scene(Pair(To(A), Dead(D), To(TAIL)), Pair(To(A), To(D), Dead(TAIL)),
                             map[A := Finished, D := Finished], map[A := AIMED], map[A := 0, D := 1])
  const D_DEAD := Beside(Pair(To(A), Dead(D), Dead(TAIL)), Pair(To(A), To(D), Dead(TAIL)))
  const D_OFF_UPPER := Beside(Pair(To(A), Dead(D), Dead(TAIL)), Pair(To(A), To(TAIL), Dead(TAIL)))
  const A_OFF_BASE := Beside(Pair(To(D), Dead(D), Dead(TAIL)), Pair(To(A), To(TAIL), Dead(TAIL)))
  const D_OFF_BASE := Beside(Pair(To(TAIL), Dead(D), Dead(TAIL)), Pair(To(A), To(TAIL), Dead(TAIL)))

  lemma MarksDAbove()
    ensures Draws(With(A_ERASED, A, AIMED), Mark(D, 1), D_HALF_DEAD)
  {
  }

  lemma MarksD()
    ensures Draws(D_HALF_DEAD, Mark(D, 0), D_DEAD)
  {
  }

  lemma SweepsUpper()
    ensures Draws(D_DEAD, ReadBound(D), With(D_DEAD, D, Descending(2, 2, false)))
    ensures Reads(D_DEAD, D, Descending(2, 2, false), Descending(2, 1, false))
    ensures Reads(D_DEAD, D, Descending(2, 1, false), Walking(2, 1, HEAD, A, false))
    ensures Reads(D_DEAD, D, Walking(2, 1, HEAD, A, false), Walking(2, 1, A, D, false))
    ensures Reads(D_DEAD, D, Walking(2, 1, A, D, false), Swinging(2, 1, A, Dead(TAIL), false))
  {
  }

  lemma SwingsA()
    ensures Draws(With(D_DEAD, D, Swinging(2, 1, A, Dead(TAIL), false)), Unlink(D), With(D_OFF_UPPER, D, Descending(2, 0, false)))
  {
  }

  lemma SweepsBase()
    ensures Reads(D_OFF_UPPER, D, Descending(2, 0, false), Walking(2, 0, HEAD, A, false))
    ensures Reads(D_OFF_UPPER, D, Walking(2, 0, HEAD, A, false), Helping(2, 0, HEAD, A, D, false))
  {
  }

  lemma SwingsHeadToD()
    ensures Draws(With(D_OFF_UPPER, D, Helping(2, 0, HEAD, A, D, false)), Unlink(D), With(A_OFF_BASE, D, Walking(2, 0, HEAD, D, false)))
  {
  }

  lemma SwingsHead()
    ensures Reads(A_OFF_BASE, D, Walking(2, 0, HEAD, D, false), Swinging(2, 0, HEAD, Dead(TAIL), false))
    ensures Draws(With(A_OFF_BASE, D, Swinging(2, 0, HEAD, Dead(TAIL), false)), Unlink(D), With(D_OFF_BASE, D, Verifying(2, HEAD)))
  {
  }

  lemma VerifiesD()
    ensures Reads(D_OFF_BASE, D, Verifying(2, HEAD), Verifying(1, HEAD)) && Reads(D_OFF_BASE, D, Verifying(1, HEAD), Verifying(1, A))
    ensures Reads(D_OFF_BASE, D, Verifying(1, A), Verifying(0, HEAD)) && Reads(D_OFF_BASE, D, Verifying(0, HEAD), Retired)
  {
  }

  lemma UnlinkD() returns (run: seq<Step>)
    ensures Drawn(run, With(D_OFF_UPPER, D, Descending(2, 0, false)))
  {
    run := ReachA();
    MarksDAbove();
    run := Then(run, With(A_ERASED, A, AIMED), Mark(D, 1), D_HALF_DEAD);
    MarksD();
    run := Then(run, D_HALF_DEAD, Mark(D, 0), D_DEAD);
    SweepsUpper();
    run := Then(run, D_DEAD, ReadBound(D), With(D_DEAD, D, Descending(2, 2, false)));
    run := ThenReads(run, D_DEAD, D, Descending(2, 2, false), Descending(2, 1, false));
    run := ThenReads(run, D_DEAD, D, Descending(2, 1, false), Walking(2, 1, HEAD, A, false));
    run := ThenReads(run, D_DEAD, D, Walking(2, 1, HEAD, A, false), Walking(2, 1, A, D, false));
    run := ThenReads(run, D_DEAD, D, Walking(2, 1, A, D, false), Swinging(2, 1, A, Dead(TAIL), false));
    SwingsA();
    run := Then(run, With(D_DEAD, D, Swinging(2, 1, A, Dead(TAIL), false)), Unlink(D), With(D_OFF_UPPER, D, Descending(2, 0, false)));
  }

  lemma RetireD() returns (run: seq<Step>)
    ensures Drawn(run, With(D_OFF_BASE, D, Retired))
  {
    run := UnlinkD();
    SweepsBase();
    run := ThenReads(run, D_OFF_UPPER, D, Descending(2, 0, false), Walking(2, 0, HEAD, A, false));
    run := ThenReads(run, D_OFF_UPPER, D, Walking(2, 0, HEAD, A, false), Helping(2, 0, HEAD, A, D, false));
    SwingsHeadToD();
    run := Then(run, With(D_OFF_UPPER, D, Helping(2, 0, HEAD, A, D, false)), Unlink(D), With(A_OFF_BASE, D, Walking(2, 0, HEAD, D, false)));
    SwingsHead();
    run := ThenReads(run, A_OFF_BASE, D, Walking(2, 0, HEAD, D, false), Swinging(2, 0, HEAD, Dead(TAIL), false));
    run := Then(run, With(A_OFF_BASE, D, Swinging(2, 0, HEAD, Dead(TAIL), false)), Unlink(D), With(D_OFF_BASE, D, Verifying(2, HEAD)));
    VerifiesD();
    run := ThenReads(run, D_OFF_BASE, D, Verifying(2, HEAD), Verifying(1, HEAD));
    run := ThenReads(run, D_OFF_BASE, D, Verifying(1, HEAD), Verifying(1, A));
    run := ThenReads(run, D_OFF_BASE, D, Verifying(1, A), Verifying(0, HEAD));
    run := ThenReads(run, D_OFF_BASE, D, Verifying(0, HEAD), Retired);
  }

  lemma Meets(l: Level, a: Node)
    requires Forward(l) && a in l.rank && a != TAIL
    ensures a in l.next && l.next[a].ptr in l.rank && Walked(l, a) == {a} + Walked(l, l.next[a].ptr)
  {
    assert LeadsOn(l, a) && LeadsOn(l, l.next[a].ptr);
  }

  lemma EndsAtA(l: Level)
    requires Forward(l) && ShowsLevel(l, D_OFF_BASE.upper)
    ensures !Reachable(l, D)
  {
    Meets(l, HEAD);
    Meets(l, A);
    assert Walked(l, TAIL) == {TAIL};
    ReachedIsReachable(l, D);
  }

  lemma ComesBack(s: State)
    requires Inv(s, PLAIN) && Shows(s, With(D_OFF_BASE, D, Retired))
    ensures !Reachable(s.levels[1], D)
    ensures Enabled(s, PLAIN, Unlink(A)) && Outdated(s, Unlink(A), 1) && Reachable(Apply(s, PLAIN, Unlink(A)).levels[1], D)
  {
    assert LevelOk(s, PLAIN, 1);
    EndsAtA(s.levels[1]);
    assert Walk(Apply(s, PLAIN, Unlink(A)).levels[1], [HEAD, D], D);
  }

  /** Then the remover of `A` goes on and swings the head to `D`, which is retired,
      which could not be reached, and whose insert had long returned. */
  lemma OutdatedSwingHappens() returns (run: seq<Step>)
    ensures IsRun(Init(), PLAIN, run)
    ensures var s := After(Init(), PLAIN, run, |run|);
            && IsRetired(s, D) && InsertReturned(s, PLAIN, D)
            && !Reachable(s.levels[1], D)
            && Enabled(s, PLAIN, Unlink(A)) && Outdated(s, Unlink(A), 1)
            && Reachable(Apply(s, PLAIN, Unlink(A)).levels[1], D)
  {
    run := RetireD();
    InitInv(PLAIN);
    RunKeepsInv(Init(), PLAIN, run, |run|);
    ComesBack(After(Init(), PLAIN, run, |run|));
  }

  // ------------------------------------------------------------------
  // A hidden node
  // ------------------------------------------------------------------

  /** A level at which `A`, `B` and `D` have been linked. */
  function Trio(h: Link, a: Link, b: Link, d: Link): Drawing {
    Drawing(map[HEAD := h, A := a, B := b, D := d], {HEAD, TAIL, A, B, D})
  }

  /** One at which `B` has not. */
  function Spare(b: Link): Drawing {
    Drawing(map[HEAD := To(A), A := To(D), B := b, D := To(TAIL)], {HEAD, TAIL, A, D})
  }

  /** Beside the erased `A`, `B` is inserted at level 0. */
  function Third(base: Drawing, upper: Drawing, insert: Insert): Picture {
    Scene(base, upper, map[A := Finished, B := insert, D := Finished], map[], map[A := 1])
  }

  const B_NEW := Third(Pair(To(A), To(D), To(TAIL)), Pair(To(A), To(D), To(TAIL)), Filling)
  const B_HALF := Third(Spare(To(D)), Pair(To(A), To(D), To(TAIL)), Filling)
  const B_FULL := Third(Spare(To(D)), Spare(To(D)), Filling)
  const B_BASED := Third(Trio(To(A), To(B), To(D), To(TAIL)), Spare(To(D)), Linking(1, false))
  const B_TESTED := Third(Trio(To(A), To(B), To(D), To(TAIL)), Spare(To(D)), Publishing(1, A, D, false))

  lemma FillsB()
    ensures Draws(A_LATE, Allocate(B), B_NEW) && Draws(B_NEW, Fill(B, 0, D), B_HALF) && Draws(B_HALF, Fill(B, 1, D), B_FULL)
  {
  }

  lemma BasesB()
    ensures Draws(B_FULL, LinkBase(B, A, D), B_BASED)
  {
  }

  lemma TestsB()
    ensures Draws(B_BASED, TestSlot(B, A, D), B_TESTED)
  {
  }

  lemma BeginB() returns (run: seq<Step>)
    ensures Drawn(run, B_TESTED)
  {
    run := InsertA();
    FillsB();
    run := Then(run, A_LATE, Allocate(B), B_NEW);
    run := Then(run, B_NEW, Fill(B, 0, D), B_HALF);
    run := Then(run, B_HALF, Fill(B, 1, D), B_FULL);
    BasesB();
    run := Then(run, B_FULL, LinkBase(B, A, D), B_BASED);
    TestsB();
    run := Then(run, B_BASED, TestSlot(B, A, D), B_TESTED);
  }

  /** `A` and `B` are removed; `b` says where the remover of `B` stands, and that
      of `A` has only marked it. */
  function Both(base: Drawing, upper: Drawing, insert: Insert, b: Removal): Picture {
    Scene(base, upper, map[A := Finished, B := insert, D := Finished], map[A := Starting, B := b], map[A := 0, B := 0])
  }

  lemma WithB(base: Drawing, upper: Drawing, insert: Insert, b: Removal, u: Removal)
    ensures With(Both(base, upper, insert, b), B, u) == Both(base, upper, insert, u)
  {
  }

  /** The insert of `B` is about to link it behind `A` at level 1. */
  const WAITING := Publishing(1, A, D, false)

  const A_DEAD := Scene(Trio(To(A), Dead(B), To(D), To(TAIL)), Spare(To(D)),
                        map[A := Finished, B := WAITING, D := Finished], map[A := Starting], map[A := 0])
  const B_HALF_DEAD := Scene(Trio(To(A), Dead(B), To(D), To(TAIL)), Spare(Dead(D)),
                             map[A := Finished, B := WAITING, D := Finished], map[A := Starting], map[A := 0, B := 1])
  const B_DEAD := Both(Trio(To(A), Dead(B), Dead(D), To(TAIL)), Spare(Dead(D)), WAITING, Starting)
  const A_SPLICED := Both(Trio(To(B), Dead(B), Dead(D), To(TAIL)), Spare(Dead(D)), WAITING, Starting)
  const B_OFF_BASE := Both(Trio(To(D), Dead(B), Dead(D), To(TAIL)), Spare(Dead(D)), WAITING, Starting)

  lemma MarksABelow()
    ensures Draws(B_TESTED, Mark(A, 0), A_DEAD)
  {
  }

  lemma MarksBAbove()
    ensures Draws(A_DEAD, Mark(B, 1), B_HALF_DEAD)
  {
  }

  lemma MarksB()
    ensures Draws(B_HALF_DEAD, Mark(B, 0), B_DEAD)
  {
  }

  lemma BoundsB()
    ensures Draws(B_DEAD, ReadBound(B), With(B_DEAD, B, Descending(2, 2, false)))
  {
  }

  lemma SweepsPastB()
    ensures Reads(B_DEAD, B, Descending(2, 2, false), Descending(2, 1, false))
    ensures Reads(B_DEAD, B, Descending(2, 1, false), Walking(2, 1, HEAD, A, false))
    ensures Reads(B_DEAD, B, Walking(2, 1, HEAD, A, false), Walking(2, 1, A, D, false))
    ensures Reads(B_DEAD, B, Walking(2, 1, A, D, false), Descending(2, 0, false))
    ensures Reads(B_DEAD, B, Descending(2, 0, false), Walking(2, 0, HEAD, A, false))
    ensures Reads(B_DEAD, B, Walking(2, 0, HEAD, A, false), Helping(2, 0, HEAD, A, B, false))
  {
  }

  lemma SwingsToB()
    ensures Draws(With(B_DEAD, B, Helping(2, 0, HEAD, A, B, false)), Unlink(B), With(A_SPLICED, B, Walking(2, 0, HEAD, B, false)))
    ensures Reads(A_SPLICED, B, Walking(2, 0, HEAD, B, false), Swinging(2, 0, HEAD, Dead(D), false))
  {
  }

  lemma SwingsPastB()
    ensures Draws(With(A_SPLICED, B, Swinging(2, 0, HEAD, Dead(D), false)), Unlink(B), With(B_OFF_BASE, B, Verifying(2, HEAD)))
  {
    SwingsPastBThen(Swinging(2, 0, HEAD, Dead(D), false), Verifying(2, HEAD));
    WithB(A_SPLICED.base, A_SPLICED.upper, WAITING, Starting, Swinging(2, 0, HEAD, Dead(D), false));
    WithB(B_OFF_BASE.base, B_OFF_BASE.upper, WAITING, Starting, Verifying(2, HEAD));
  }

  lemma SwingsPastBThen(u: Removal, v: Removal)
    requires u == Swinging(2, 0, HEAD, Dead(D), false) && v == Verifying(2, HEAD)
    ensures Draws(Both(A_SPLICED.base, A_SPLICED.upper, WAITING, u), Unlink(B), Both(B_OFF_BASE.base, B_OFF_BASE.upper, WAITING, v))
  {
  }

  lemma BeginsToVerify()
    ensures Reads(B_OFF_BASE, B, Verifying(2, HEAD), Verifying(1, HEAD))
  {
  }

  lemma SweepPastB() returns (run: seq<Step>)
    ensures Drawn(run, With(B_DEAD, B, Helping(2, 0, HEAD, A, B, false)))
  {
    run := BeginB();
    MarksABelow();
    run := Then(run, B_TESTED, Mark(A, 0), A_DEAD);
    MarksBAbove();
    run := Then(run, A_DEAD, Mark(B, 1), B_HALF_DEAD);
    MarksB();
    run := Then(run, B_HALF_DEAD, Mark(B, 0), B_DEAD);
    BoundsB();
    run := Then(run, B_DEAD, ReadBound(B), With(B_DEAD, B, Descending(2, 2, false)));
    SweepsPastB();
    run := ThenReads(run, B_DEAD, B, Descending(2, 2, false), Descending(2, 1, false));
    run := ThenReads(run, B_DEAD, B, Descending(2, 1, false), Walking(2, 1, HEAD, A, false));
    run := ThenReads(run, B_DEAD, B, Walking(2, 1, HEAD, A, false), Walking(2, 1, A, D, false));
    run := ThenReads(run, B_DEAD, B, Walking(2, 1, A, D, false), Descending(2, 0, false));
    run := ThenReads(run, B_DEAD, B, Descending(2, 0, false), Walking(2, 0, HEAD, A, false));
    run := ThenReads(run, B_DEAD, B, Walking(2, 0, HEAD, A, false), Helping(2, 0, HEAD, A, B, false));
  }

  /** The sweep of `B` has not met it at level 1, where it is linked now. */
  const B_LINKED := Both(Trio(To(D), Dead(B), Dead(D), To(TAIL)), Trio(To(A), To(B), Dead(D), To(TAIL)), Linking(2, false), Starting)

  /** Its verification stands on `A`. */
  const B_AHEAD := Both(Trio(To(D), Dead(B), Dead(D), To(TAIL)), Trio(To(A), To(B), Dead(D), To(TAIL)), Linking(2, false), Verifying(1, A))

  /** The remover of `A` swings the head to `B`. */
  const A_OFF_UPPER := Both(Trio(To(D), Dead(B), Dead(D), To(TAIL)), Trio(To(B), To(B), Dead(D), To(TAIL)), Linking(2, false), Verifying(1, A))
  const B_HIDDEN := Both(Trio(To(D), Dead(B), Dead(D), To(TAIL)), Trio(To(B), To(D), Dead(D), To(TAIL)), Linking(2, false), Starting)

  lemma LinksB()
    ensures Draws(With(B_OFF_BASE, B, Verifying(1, HEAD)), LinkUpper(B), With(B_LINKED, B, Verifying(1, HEAD)))
  {
    LinksBThen(Verifying(1, HEAD));
    WithB(B_OFF_BASE.base, B_OFF_BASE.upper, WAITING, Starting, Verifying(1, HEAD));
    WithB(B_LINKED.base, B_LINKED.upper, Linking(2, false), Starting, Verifying(1, HEAD));
  }

  lemma LinksBThen(b: Removal)
    ensures Draws(Both(B_OFF_BASE.base, B_OFF_BASE.upper, WAITING, b), LinkUpper(B), Both(B_LINKED.base, B_LINKED.upper, Linking(2, false), b))
  {
    MayLinkB(b);
  }

  lemma MayLinkB(b: Removal)
    ensures var p := Both(B_OFF_BASE.base, B_OFF_BASE.upper, WAITING, b);
            && Allowed(p, LinkUpper(B)) && DrawnWrite(p, LinkUpper(B)) == (1, LinkIn(A, D, B))
            && DrawInserts(p, LinkUpper(B)) == map[A := Finished, B := Linking(2, false), D := Finished]
  {
  }

  lemma ComesToA()
    ensures Reads(B_LINKED, B, Verifying(1, HEAD), Verifying(1, A))
  {
  }

  lemma BoundsA()
    ensures Draws(With(B_LINKED, B, Verifying(1, A)), ReadBound(A), With(B_AHEAD, A, Descending(2, 2, false)))
  {
  }

  lemma SweepsUpperForA()
    ensures Reads(B_AHEAD, A, Descending(2, 2, false), Descending(2, 1, false))
    ensures Reads(B_AHEAD, A, Descending(2, 1, false), Walking(2, 1, HEAD, A, false))
    ensures Reads(B_AHEAD, A, Walking(2, 1, HEAD, A, false), Swinging(2, 1, HEAD, To(B), false))
  {
  }

  lemma SwingsHeadToB()
    ensures Draws(With(B_AHEAD, A, Swinging(2, 1, HEAD, To(B), false)), Unlink(A), With(A_OFF_UPPER, A, Descending(2, 0, false)))
  {
  }

  /** Where the remover of `A` is then. */
  const A_GOES_ON := With(B_HIDDEN, A, Descending(2, 0, false))

  lemma HidesB()
    ensures Draws(With(A_OFF_UPPER, A, Descending(2, 0, false)), Splice(1, A, B), With(A_GOES_ON, B, Verifying(1, A)))
  {
    MaySplice();
  }

  lemma MaySplice()
    ensures var p := With(A_OFF_UPPER, A, Descending(2, 0, false));
            && Allowed(p, Splice(1, A, B)) && DrawnWrite(p, Splice(1, A, B)) == (1, TakeOut(A, B, D))
            && DrawWrite(p.upper, TakeOut(A, B, D)) == B_HIDDEN.upper
  {
  }

  lemma VerifiesB()
    ensures Reads(A_GOES_ON, B, Verifying(1, A), Verifying(0, HEAD)) && Reads(A_GOES_ON, B, Verifying(0, HEAD), Retired)
  {
  }

  lemma VerifyToA() returns (run: seq<Step>)
    ensures Drawn(run, With(B_LINKED, B, Verifying(1, A)))
  {
    run := SweepPastB();
    SwingsToB();
    run := Then(run, With(B_DEAD, B, Helping(2, 0, HEAD, A, B, false)), Unlink(B), With(A_SPLICED, B, Walking(2, 0, HEAD, B, false)));
    run := ThenReads(run, A_SPLICED, B, Walking(2, 0, HEAD, B, false), Swinging(2, 0, HEAD, Dead(D), false));
    SwingsPastB();
    run := Then(run, With(A_SPLICED, B, Swinging(2, 0, HEAD, Dead(D), false)), Unlink(B), With(B_OFF_BASE, B, Verifying(2, HEAD)));
    BeginsToVerify();
    run := ThenReads(run, B_OFF_BASE, B, Verifying(2, HEAD), Verifying(1, HEAD));
    LinksB();
    run := Then(run, With(B_OFF_BASE, B, Verifying(1, HEAD)), LinkUpper(B), With(B_LINKED, B, Verifying(1, HEAD)));
    ComesToA();
    run := ThenReads(run, B_LINKED, B, Verifying(1, HEAD), Verifying(1, A));
  }

  lemma BeforeHiding() returns (run: seq<Step>)
    ensures Drawn(run, With(A_OFF_UPPER, A, Descending(2, 0, false)))
  {
    run := VerifyToA();
    BoundsA();
    run := Then(run, With(B_LINKED, B, Verifying(1, A)), ReadBound(A), With(B_AHEAD, A, Descending(2, 2, false)));
    SweepsUpperForA();
    run := ThenReads(run, B_AHEAD, A, Descending(2, 2, false), Descending(2, 1, false));
    run := ThenReads(run, B_AHEAD, A, Descending(2, 1, false), Walking(2, 1, HEAD, A, false));
    run := ThenReads(run, B_AHEAD, A, Walking(2, 1, HEAD, A, false), Swinging(2, 1, HEAD, To(B), false));
    SwingsHeadToB();
    run := Then(run, With(B_AHEAD, A, Swinging(2, 1, HEAD, To(B), false)), Unlink(A), With(A_OFF_UPPER, A, Descending(2, 0, false)));
  }

  lemma HidesFromScan(s: State)
    requires Inv(s, PLAIN) && Shows(s, With(A_OFF_UPPER, A, Descending(2, 0, false)))
    ensures Hides(s, Splice(1, A, B), 1)
  {
    assert LevelOk(s, PLAIN, 1);
    PassesA(s.levels[1]);
  }

  lemma PassesA(l: Level)
    requires Forward(l) && ShowsLevel(l, A_OFF_UPPER.upper)
    ensures !Reached(l, A) && Reached(l, B)
  {
    Meets(l, HEAD);
    Meets(l, B);
    Meets(l, D);
    assert Walked(l, TAIL) == {TAIL};
  }

  lemma GoOnPastB(run: seq<Step>) returns (all: seq<Step>)
    requires Drawn(run, With(A_OFF_UPPER, A, Descending(2, 0, false)))
    ensures all == run + [Splice(1, A, B)] + [Unlink(B)] + [Unlink(B)] && Drawn(all, With(A_GOES_ON, B, Retired))
  {
    HidesB();
    all := Then(run, With(A_OFF_UPPER, A, Descending(2, 0, false)), Splice(1, A, B), With(A_GOES_ON, B, Verifying(1, A)));
    VerifiesB();
    all := ThenReads(all, A_GOES_ON, B, Verifying(1, A), Verifying(0, HEAD));
    all := ThenReads(all, A_GOES_ON, B, Verifying(0, HEAD), Retired);
  }

  lemma BIsThere(s: State)
    requires Shows(s, With(A_GOES_ON, B, Retired))
    ensures IsRetired(s, B) && Reachable(s.levels[1], B)
  {
    assert Walk(s.levels[1], [HEAD, B], B);
  }

  /** A helper still standing on `A` splices `B` out from behind it; the scan for
      `B` follows `A` past `B`, which the head leads to all the time. */
  lemma HidingHappens() returns (run: seq<Step>, all: seq<Step>)
    ensures IsRun(Init(), PLAIN, run) && Hides(After(Init(), PLAIN, run, |run|), Splice(1, A, B), 1)
    ensures all == run + [Splice(1, A, B)] + [Unlink(B)] + [Unlink(B)] && IsRun(Init(), PLAIN, all)
    ensures var s := After(Init(), PLAIN, all, |all|);
            IsRetired(s, B) && Reachable(s.levels[1], B)
  {
    run := BeforeHiding();
    InitInv(PLAIN);
    RunKeepsInv(Init(), PLAIN, run, |run|);
    HidesFromScan(After(Init(), PLAIN, run, |run|));
    all := GoOnPastB(run);
    BIsThere(After(Init(), PLAIN, all, |all|));
  }

  // ------------------------------------------------------------------
  // An overtaken remover
  // ------------------------------------------------------------------

  /** `D` is linked at level 0 and its level-1 slot found right.  Meanwhile a
      remove of it runs, retirement included. */
  function Left(base: Drawing): Picture {
    Scene(base, Drawing(map[HEAD := To(TAIL), D := Dead(TAIL)], {HEAD, TAIL}), map[D := Publishing(1, HEAD, TAIL, false)],
          map[D := Starting], map[D := 0])
  }

  const D_LEFT := Left(Drawing(map[HEAD := To(D), D := Dead(TAIL)], {HEAD, TAIL, D}))
  const D_GONE := Left(Drawing(map[HEAD := To(TAIL), D := Dead(TAIL)], {HEAD, TAIL, D}))

  lemma LeavesD()
    ensures var p := D_TESTED.(upper := D_LEFT.upper, passed := map[D := 1]);
            Draws(D_TESTED, Mark(D, 1), p)
  {
  }

  lemma LeavesDBelow()
    ensures var p := D_TESTED.(upper := D_LEFT.upper, passed := map[D := 1]);
            Draws(p, Mark(D, 0), D_LEFT)
  {
  }

  lemma SweepsD()
    ensures Draws(D_LEFT, ReadBound(D), With(D_LEFT, D, Descending(2, 2, false)))
    ensures Reads(D_LEFT, D, Descending(2, 2, false), Descending(2, 1, false))
    ensures Reads(D_LEFT, D, Descending(2, 1, false), Descending(2, 0, false))
    ensures Reads(D_LEFT, D, Descending(2, 0, false), Walking(2, 0, HEAD, D, false))
    ensures Reads(D_LEFT, D, Walking(2, 0, HEAD, D, false), Swinging(2, 0, HEAD, Dead(TAIL), false))
  {
  }

  lemma SwingsPastD()
    ensures Draws(With(D_LEFT, D, Swinging(2, 0, HEAD, Dead(TAIL), false)), Unlink(D), With(D_GONE, D, Verifying(2, HEAD)))
  {
  }

  lemma ScansForD()
    ensures Reads(D_GONE, D, Verifying(2, HEAD), Verifying(1, HEAD)) && Reads(D_GONE, D, Verifying(1, HEAD), Verifying(0, HEAD))
    ensures Reads(D_GONE, D, Verifying(0, HEAD), Retired)
  {
  }

  lemma SweepD() returns (run: seq<Step>)
    ensures Drawn(run, With(D_LEFT, D, Swinging(2, 0, HEAD, Dead(TAIL), false)))
  {
    run := BeginD();
    var p := D_TESTED.(upper := D_LEFT.upper, passed := map[D := 1]);
    LeavesD();
    run := Then(run, D_TESTED, Mark(D, 1), p);
    LeavesDBelow();
    run := Then(run, p, Mark(D, 0), D_LEFT);
    SweepsD();
    run := Then(run, D_LEFT, ReadBound(D), With(D_LEFT, D, Descending(2, 2, false)));
    run := ThenReads(run, D_LEFT, D, Descending(2, 2, false), Descending(2, 1, false));
    run := ThenReads(run, D_LEFT, D, Descending(2, 1, false), Descending(2, 0, false));
    run := ThenReads(run, D_LEFT, D, Descending(2, 0, false), Walking(2, 0, HEAD, D, false));
    run := ThenReads(run, D_LEFT, D, Walking(2, 0, HEAD, D, false), Swinging(2, 0, HEAD, Dead(TAIL), false));
  }

  lemma LeaveD() returns (run: seq<Step>)
    ensures Drawn(run, With(D_GONE, D, Retired))
  {
    run := SweepD();
    SwingsPastD();
    run := Then(run, With(D_LEFT, D, Swinging(2, 0, HEAD, Dead(TAIL), false)), Unlink(D), With(D_GONE, D, Verifying(2, HEAD)));
    ScansForD();
    run := ThenReads(run, D_GONE, D, Verifying(2, HEAD), Verifying(1, HEAD));
    run := ThenReads(run, D_GONE, D, Verifying(1, HEAD), Verifying(0, HEAD));
    run := ThenReads(run, D_GONE, D, Verifying(0, HEAD), Retired);
  }

  lemma LateLink(s: State)
    requires Inv(s, PLAIN) && Shows(s, With(D_GONE, D, Retired))
    ensures Enabled(s, PLAIN, LinkUpper(D)) && Overtakes(s, LinkUpper(D), 1)
    ensures Reachable(Apply(s, PLAIN, LinkUpper(D)).levels[1], D)
  {
    assert LevelOk(s, PLAIN, 1);
    assert Walk(Apply(s, PLAIN, LinkUpper(D)).levels[1], [HEAD, D], D);
  }

  /** Then the insert goes on and swings the head's level-1 pointer. */
  lemma OvertakingHappens() returns (run: seq<Step>)
    ensures IsRun(Init(), PLAIN, run)
    ensures var s := After(Init(), PLAIN, run, |run|);
            && IsRetired(s, D)
            && Enabled(s, PLAIN, LinkUpper(D)) && Overtakes(s, LinkUpper(D), 1)
            && Reachable(Apply(s, PLAIN, LinkUpper(D)).levels[1], D)
  {
    run := LeaveD();
    InitInv(PLAIN);
    RunKeepsInv(Init(), PLAIN, run, |run|);
    LateLink(After(Init(), PLAIN, run, |run|));
  }
}
