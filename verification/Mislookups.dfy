/**
  Lookups with wrong answers: one that misses a key which is in the list all the
  time, and one that finds a node which is not.
 */
module Mislookups {
  import opened LevelChain
  import opened LockFree
  import opened Membership
  import opened Strays
  import opened Lookups
  import opened Pictures
  import opened Mishaps
  import Removing

  // ------------------------------------------------------------------
  // A removed node is found
  // ------------------------------------------------------------------

  /** Nobody else makes a step. */
  const ALONE: seq<Move> := [Reading, Reading, Reading]

  /** A run erases the level-1 mark of `A`, which is removed; a lookup started
      after that stops at level 1 and reports it. */
  lemma StrayIsFound() returns (run: seq<Step>)
    ensures IsRun(Init(), PLAIN, run)
    ensures var s := After(Init(), PLAIN, run, |run|);
            && s.headHeight == 2 && !Member(s, A) && Stray(s, A, 1)
            && CanMove(s, PLAIN, ALONE) && Outcome(s, PLAIN, PLAIN.key(A), Top(s), ALONE) == Found(1, A)
  {
    run := Erase();
    StopsAtA(After(Init(), PLAIN, run, |run|));
  }

  lemma StopsAtA(s: State)
    requires Shows(s, A_ERASED)
    ensures s.headHeight == 2 && !Member(s, A) && Stray(s, A, 1)
    ensures CanMove(s, PLAIN, ALONE) && Outcome(s, PLAIN, PLAIN.key(A), Top(s), ALONE) == Found(1, A)
  {
    assert ALONE[1..] == [Reading, Reading] && [Reading, Reading][1..] == [Reading] && [Reading][1..] == [];
    assert Read(s, PLAIN, 1, Top(s)) == Inspecting(1, HEAD, A);
    assert Read(s, PLAIN, 1, Inspecting(1, HEAD, A)) == Checking(1, HEAD, A);
    assert Read(s, PLAIN, 1, Checking(1, HEAD, A)) == Found(1, A);
  }

  // ------------------------------------------------------------------
  // A present key is missed
  // ------------------------------------------------------------------

  /** The lookup ends without its key, though the key was there throughout. */
  ghost predicate Misses(s: State, key: int, r: Lookup, moves: seq<Move>)
    requires |s.levels| == MAX_HEIGHT
  {
    && CanMove(s, PLAIN, moves) && InRange(r) && Outcome(s, PLAIN, key, r, moves).Absent?
    && forall k :: 0 <= k <= |moves| ==> Present(StateAt(s, PLAIN, moves, k), PLAIN, key)
  }

  lemma MissesByRead(s: State, key: int, r: Lookup, moves: seq<Move>)
    requires |s.levels| == MAX_HEIGHT && 1 <= s.headHeight < MAX_HEIGHT && InRange(r)
    requires Misses(s, key, Read(s, PLAIN, key, r), moves)
    ensures Misses(s, key, r, [Reading] + moves)
  {
    var all := [Reading] + moves;
    assert all[1..] == moves;
    forall k | 0 <= k <= |all|
      ensures Present(StateAt(s, PLAIN, all, k), PLAIN, key)
    {
      assert Present(StateAt(s, PLAIN, moves, 0), PLAIN, key);
      assert k > 0 ==> StateAt(s, PLAIN, all, k) == StateAt(s, PLAIN, moves, k - 1);
    }
  }

  lemma MissesByStep(s: State, key: int, r: Lookup, step: Step, moves: seq<Move>)
    requires |s.levels| == MAX_HEIGHT && Enabled(s, PLAIN, step) && Present(s, PLAIN, key)
    requires Misses(Apply(s, PLAIN, step), key, r, moves)
    ensures Misses(s, key, r, [Env(step)] + moves)
  {
    var all := [Env(step)] + moves;
    assert all[1..] == moves;
    forall k | 0 <= k <= |all|
      ensures Present(StateAt(s, PLAIN, all, k), PLAIN, key)
    {
      assert k > 0 ==> StateAt(s, PLAIN, all, k) == StateAt(Apply(s, PLAIN, step), PLAIN, moves, k - 1);
    }
  }

  /** `n` is drawn as a member. */
  predicate ShowsMember(p: Picture, n: Node) {
    n != HEAD && n in p.base.ever && n in p.base.next && !p.base.next[n].marked
  }

  lemma MissesByDrawing(s: State, p: Picture, r: Lookup, step: Step, n: Node, moves: seq<Move>)
    requires Shows(s, p) && Allowed(p, step) && ShowsMember(p, n)
    requires forall t :: Shows(t, Draw(p, step)) ==> Misses(t, PLAIN.key(n), r, moves)
    ensures Misses(s, PLAIN.key(n), r, [Env(step)] + moves)
  {
    DrawnHappens(s, p, step);
    assert Member(s, n);
    MissesByStep(s, PLAIN.key(n), r, step, moves);
  }

  /** A second node with the key of `D`. */
  const C: Node := 31

  /** `D` stands in the list, and the insert of `C` has found it there. */
  const C_CAME := Picture(
    Drawing(map[HEAD := To(D), D := To(TAIL)], {HEAD, TAIL, D}),
    Drawing(map[HEAD := To(D), D := To(TAIL)], {HEAD, TAIL, D}), EMPTY,
    map[D := Finished, C := Filling], map[], map[], false, 2)

  /** `D` is marked at level 1. */
  const D_PARTED := Picture(
    Drawing(map[HEAD := To(D), D := To(TAIL)], {HEAD, TAIL, D}),
    Drawing(map[HEAD := To(D), D := Dead(TAIL)], {HEAD, TAIL, D}), EMPTY,
    map[D := Finished, C := Filling], map[], map[D := 1], false, 2)

  const C_HALF_FILLED := Picture(
    Drawing(map[HEAD := To(D), D := To(TAIL), C := To(D)], {HEAD, TAIL, D}),
    Drawing(map[HEAD := To(D), D := Dead(TAIL)], {HEAD, TAIL, D}), EMPTY,
    map[D := Finished, C := Filling], map[], map[D := 1], false, 2)

  const C_FILLED := Picture(
    Drawing(map[HEAD := To(D), D := To(TAIL), C := To(D)], {HEAD, TAIL, D}),
    Drawing(map[HEAD := To(D), D := Dead(TAIL), C := To(D)], {HEAD, TAIL, D}), EMPTY,
    map[D := Finished, C := Filling], map[], map[D := 1], false, 2)

  const C_NOTED := Picture(
    Drawing(map[HEAD := To(D), D := To(TAIL), C := To(D)], {HEAD, TAIL, D}),
    Drawing(map[HEAD := To(D), D := Dead(TAIL), C := To(D)], {HEAD, TAIL, D}), EMPTY,
    map[D := Finished, C := Filling], map[], map[D := 1], true, 2)

  const C_LINKED := Picture(
    Drawing(map[HEAD := To(C), D := To(TAIL), C := To(D)], {HEAD, TAIL, D, C}),
    Drawing(map[HEAD := To(D), D := Dead(TAIL), C := To(D)], {HEAD, TAIL, D}), EMPTY,
    map[D := Finished, C := Linking(1, false)], map[], map[D := 1], true, 2)

  const D_REPLACED := Picture(
    Drawing(map[HEAD := To(C), D := Dead(TAIL), C := To(D)], {HEAD, TAIL, D, C}),
    Drawing(map[HEAD := To(D), D := Dead(TAIL), C := To(D)], {HEAD, TAIL, D}), EMPTY,
    map[D := Finished, C := Linking(1, false)], map[D := Removing.Starting], map[D := 0], true, 2)

  const LAST: seq<Move> := [Reading] + [Reading]
  const REPLACE: seq<Move> := [Env(LinkBase(C, HEAD, D))] + ([Env(Mark(D, 0))] + LAST)
  const NOTE: seq<Move> := [Env(Fill(C, 1, D))] + ([Env(NoteDuplicate)] + REPLACE)
  const FILL: seq<Move> := [Env(Fill(C, 0, D))] + NOTE
  const DESCEND: seq<Move> := [Reading] + ([Reading] + ([Reading] + FILL))
  const MISS: seq<Move> := [Reading] + ([Env(Mark(D, 1))] + DESCEND)

  /** The walk stands on `D`, which is marked now; behind it is the tail. */
  lemma Last(s: State)
    requires Shows(s, D_REPLACED)
    ensures Misses(s, 3, Inspecting(0, HEAD, D), LAST)
  {
    assert Member(s, C) && PLAIN.key(C) == 3;
    assert Misses(s, 3, Absent, []);
    assert Read(s, PLAIN, 3, Inspecting(0, HEAD, TAIL)) == Absent;
    MissesByRead(s, 3, Inspecting(0, HEAD, TAIL), []);
    assert [Reading] + [] == [Reading];
    assert Read(s, PLAIN, 3, Inspecting(0, HEAD, D)) == Inspecting(0, HEAD, TAIL);
    MissesByRead(s, 3, Inspecting(0, HEAD, D), [Reading]);
  }

  lemma MarkReplaced()
    ensures Draws(C_LINKED, Mark(D, 0), D_REPLACED)
  {
  }

  lemma LinkInFront()
    ensures Draws(C_NOTED, LinkBase(C, HEAD, D), C_LINKED)
  {
  }

  lemma AtMark(s: State)
    requires Shows(s, C_LINKED)
    ensures Misses(s, 3, Inspecting(0, HEAD, D), [Env(Mark(D, 0))] + LAST)
  {
    MarkReplaced();
    forall t | Shows(t, D_REPLACED)
      ensures Misses(t, 3, Inspecting(0, HEAD, D), LAST)
    {
      Last(t);
    }
    MissesByDrawing(s, C_LINKED, Inspecting(0, HEAD, D), Mark(D, 0), C, LAST);
  }

  lemma AtLink(s: State)
    requires Shows(s, C_NOTED)
    ensures Misses(s, 3, Inspecting(0, HEAD, D), REPLACE)
  {
    LinkInFront();
    forall t | Shows(t, C_LINKED)
      ensures Misses(t, 3, Inspecting(0, HEAD, D), [Env(Mark(D, 0))] + LAST)
    {
      AtMark(t);
    }
    MissesByDrawing(s, C_NOTED, Inspecting(0, HEAD, D), LinkBase(C, HEAD, D), D, [Env(Mark(D, 0))] + LAST);
  }

  lemma AtNote(s: State)
    requires Shows(s, C_FILLED)
    ensures Misses(s, 3, Inspecting(0, HEAD, D), [Env(NoteDuplicate)] + REPLACE)
  {
    assert Draws(C_FILLED, NoteDuplicate, C_NOTED);
    forall t | Shows(t, C_NOTED)
      ensures Misses(t, 3, Inspecting(0, HEAD, D), REPLACE)
    {
      AtLink(t);
    }
    MissesByDrawing(s, C_FILLED, Inspecting(0, HEAD, D), NoteDuplicate, D, REPLACE);
  }

  lemma AtSecondFill(s: State)
    requires Shows(s, C_HALF_FILLED)
    ensures Misses(s, 3, Inspecting(0, HEAD, D), NOTE)
  {
    assert Draws(C_HALF_FILLED, Fill(C, 1, D), C_FILLED);
    forall t | Shows(t, C_FILLED)
      ensures Misses(t, 3, Inspecting(0, HEAD, D), [Env(NoteDuplicate)] + REPLACE)
    {
      AtNote(t);
    }
    MissesByDrawing(s, C_HALF_FILLED, Inspecting(0, HEAD, D), Fill(C, 1, D), D, [Env(NoteDuplicate)] + REPLACE);
  }

  lemma AtFirstFill(s: State)
    requires Shows(s, D_PARTED)
    ensures Misses(s, 3, Inspecting(0, HEAD, D), FILL)
  {
    assert Draws(D_PARTED, Fill(C, 0, D), C_HALF_FILLED);
    forall t | Shows(t, C_HALF_FILLED)
      ensures Misses(t, 3, Inspecting(0, HEAD, D), NOTE)
    {
      AtSecondFill(t);
    }
    MissesByDrawing(s, D_PARTED, Inspecting(0, HEAD, D), Fill(C, 0, D), D, NOTE);
  }

  /** `D` carries a mark at level 1, so the walk goes on below. */
  lemma AtDescent(s: State)
    requires Shows(s, D_PARTED)
    ensures Misses(s, 3, Inspecting(1, HEAD, D), DESCEND)
  {
    AtFirstFill(s);
    assert Read(s, PLAIN, 3, Entering(0, HEAD)) == Inspecting(0, HEAD, D);
    MissesByRead(s, 3, Entering(0, HEAD), FILL);
    assert Read(s, PLAIN, 3, Inspecting(1, HEAD, TAIL)) == Entering(0, HEAD);
    MissesByRead(s, 3, Inspecting(1, HEAD, TAIL), [Reading] + FILL);
    assert Read(s, PLAIN, 3, Inspecting(1, HEAD, D)) == Inspecting(1, HEAD, TAIL);
    MissesByRead(s, 3, Inspecting(1, HEAD, D), [Reading] + ([Reading] + FILL));
  }

  lemma MarkAbove()
    ensures Draws(C_CAME, Mark(D, 1), D_PARTED)
  {
  }

  lemma AtTop(s: State)
    requires Shows(s, C_CAME)
    ensures s.headHeight == 2 && Misses(s, 3, Top(s), MISS)
  {
    MarkAbove();
    forall t | Shows(t, D_PARTED)
      ensures Misses(t, 3, Inspecting(1, HEAD, D), DESCEND)
    {
      AtDescent(t);
    }
    MissesByDrawing(s, C_CAME, Inspecting(1, HEAD, D), Mark(D, 1), D, DESCEND);
    assert Read(s, PLAIN, 3, Top(s)) == Inspecting(1, HEAD, D);
    MissesByRead(s, 3, Top(s), [Env(Mark(D, 1))] + DESCEND);
  }

  lemma ComesC()
    ensures Draws(D_ALONE, Allocate(C), C_CAME)
  {
  }

  /** While a lookup stands on `D`, a second node with its key is inserted before
      it and `D` is removed: the lookup reports the key absent, which it never
      was. */
  lemma PresentKeyIsMissed() returns (run: seq<Step>)
    ensures IsRun(Init(), PLAIN, run)
    ensures var s := After(Init(), PLAIN, run, |run|); s.headHeight == 2 && Misses(s, 3, Top(s), MISS)
  {
    run := InsertD();
    ComesC();
    run := Then(run, D_ALONE, Allocate(C), C_CAME);
    AtTop(After(Init(), PLAIN, run, |run|));
  }
}
