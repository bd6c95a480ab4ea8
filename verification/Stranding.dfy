/**
  A run that ends with a retired node which no level leads to from the head, but
  which a search comes to on its way down: module Descents says why.
 */
module Stranding {
  import opened LevelChain
  import opened Removing
  import opened LockFree
  import opened Retirement
  import opened Descents
  import opened Pictures
  import opened Mishaps

  /** A node of three levels, between `A` and `D`. */
  const T: Node := 25

  /** A level at which all three have been linked. */
  function Row(h: Link, a: Link, t: Link, d: Link): Drawing {
    Drawing(map[HEAD := h, A := a, T := t, D := d], {HEAD, TAIL, A, T, D})
  }

  /** One at which `T` has not. */
  function Slotted(h: Link): Drawing {
    Drawing(map[HEAD := h, A := To(D), T := To(D), D := To(TAIL)], {HEAD, TAIL, A, D})
  }

  const TOP_FILLED := Drawing(map[HEAD := To(TAIL), T := To(TAIL)], {HEAD, TAIL})
  const TOP_LINKED := Drawing(map[HEAD := To(T), T := To(TAIL)], {HEAD, TAIL, T})

  /** Three levels are in use. */
  function Hall(base: Drawing, upper: Drawing, top: Drawing, insert: Insert, removals: map<Node, Removal>, passed: map<Node, nat>): Picture {
    Picture(base, upper, top, map[A := Finished, D := Finished, T := insert], removals, passed, false, 3)
  }

  // ------------------------------------------------------------------
  // T is stranded behind A
  // ------------------------------------------------------------------

  const PLAIN_PAIR := Pair(To(A), To(D), To(TAIL))
  const T_CAME := Hall(PLAIN_PAIR, PLAIN_PAIR, EMPTY, Filling, map[], map[A := 1])
  const T_THIRD := Hall(Slotted(To(A)), PLAIN_PAIR, EMPTY, Filling, map[], map[A := 1])
  const T_HALF := Hall(Slotted(To(A)), Slotted(To(A)), EMPTY, Filling, map[], map[A := 1])
  const T_FULL := Hall(Slotted(To(A)), Slotted(To(A)), TOP_FILLED, Filling, map[], map[A := 1])

  function Based(a: Link, upper: Drawing, insert: Insert, removals: map<Node, Removal>, passed: nat): Picture {
    Hall(Row(To(A), a, To(D), To(TAIL)), upper, TOP_FILLED, insert, removals, map[A := passed])
  }

  const T_BASED := Based(To(T), Slotted(To(A)), Linking(1, false), map[], 1)
  const T_TESTED := Based(To(T), Slotted(To(A)), Publishing(1, A, D, false), map[], 1)

  /** The remover of `A`, whose mark at level 1 was erased, takes it out there. */
  const A_DYING := Based(Dead(T), Slotted(To(A)), Publishing(1, A, D, false), map[A := Starting], 0)
  const A_OFF := Based(Dead(T), Slotted(To(D)), Publishing(1, A, D, false), map[A := Descending(3, 0, false)], 0)

  /** `T` is linked behind it all the same, and then one level up. */
  const T_ASIDE := Based(Dead(T), Row(To(D), To(T), To(D), To(TAIL)), Linking(2, false), map[A := Descending(3, 0, false)], 0)
  const T_TRIES := Based(Dead(T), Row(To(D), To(T), To(D), To(TAIL)), Publishing(2, HEAD, TAIL, false), map[A := Descending(3, 0, false)], 0)
  const T_UP := Hall(Row(To(A), Dead(T), To(D), To(TAIL)), Row(To(D), To(T), To(D), To(TAIL)), TOP_LINKED, Linking(3, false),
                     map[A := Descending(3, 0, false)], map[A := 0])

  lemma ComesT()
    ensures Draws(A_LATE, Allocate(T), T_CAME.(headHeight := 2)) && Draws(T_CAME.(headHeight := 2), SetHeadHeight(3), T_CAME)
  {
  }

  lemma FillsT()
    ensures Draws(T_CAME, Fill(T, 0, D), T_THIRD) && Draws(T_THIRD, Fill(T, 1, D), T_HALF) && Draws(T_HALF, Fill(T, 2, TAIL), T_FULL)
  {
  }

  lemma BasesT()
    ensures Draws(T_FULL, LinkBase(T, A, D), T_BASED)
  {
  }

  lemma TestsT()
    ensures Draws(T_BASED, TestSlot(T, A, D), T_TESTED)
  {
  }

  lemma MarksADown()
    ensures Draws(T_TESTED, Mark(A, 0), A_DYING)
  {
  }

  lemma SweepsUpperA()
    ensures Draws(A_DYING, ReadBound(A), With(A_DYING, A, Descending(3, 3, false)))
    ensures Reads(A_DYING, A, Descending(3, 3, false), Descending(3, 2, false))
    ensures Reads(A_DYING, A, Descending(3, 2, false), Descending(3, 1, false))
    ensures Reads(A_DYING, A, Descending(3, 1, false), Walking(3, 1, HEAD, A, false))
    ensures Reads(A_DYING, A, Walking(3, 1, HEAD, A, false), Swinging(3, 1, HEAD, To(D), false))
  {
  }

  lemma SwingsPastA()
    ensures Draws(With(A_DYING, A, Swinging(3, 1, HEAD, To(D), false)), Unlink(A), A_OFF)
  {
    SwingsPastAThen(Swinging(3, 1, HEAD, To(D), false));
    assert With(A_DYING, A, Swinging(3, 1, HEAD, To(D), false)).removals == map[A := Swinging(3, 1, HEAD, To(D), false)];
  }

  lemma SwingsPastAThen(u: Removal)
    requires u == Swinging(3, 1, HEAD, To(D), false)
    ensures Draws(Based(Dead(T), Slotted(To(A)), Publishing(1, A, D, false), map[A := u], 0), Unlink(A), A_OFF)
  {
  }

  lemma LinksTAside()
    ensures Draws(A_OFF, LinkUpper(T), T_ASIDE)
  {
  }

  lemma TriesT()
    ensures Draws(T_ASIDE, TestSlot(T, HEAD, TAIL), T_TRIES)
  {
  }

  lemma LinksTUp()
    ensures Draws(T_TRIES, LinkUpper(T), T_UP)
  {
  }

  lemma BeginT() returns (run: seq<Step>)
    ensures Drawn(run, A_DYING)
  {
    run := InsertA();
    ComesT();
    run := Then(run, A_LATE, Allocate(T), T_CAME.(headHeight := 2));
    run := Then(run, T_CAME.(headHeight := 2), SetHeadHeight(3), T_CAME);
    FillsT();
    run := Then(run, T_CAME, Fill(T, 0, D), T_THIRD);
    run := Then(run, T_THIRD, Fill(T, 1, D), T_HALF);
    run := Then(run, T_HALF, Fill(T, 2, TAIL), T_FULL);
    BasesT();
    run := Then(run, T_FULL, LinkBase(T, A, D), T_BASED);
    TestsT();
    run := Then(run, T_BASED, TestSlot(T, A, D), T_TESTED);
    MarksADown();
    run := Then(run, T_TESTED, Mark(A, 0), A_DYING);
  }

  lemma TakeA() returns (run: seq<Step>)
    ensures Drawn(run, A_OFF)
  {
    run := BeginT();
    SweepsUpperA();
    run := Then(run, A_DYING, ReadBound(A), With(A_DYING, A, Descending(3, 3, false)));
    run := ThenReads(run, A_DYING, A, Descending(3, 3, false), Descending(3, 2, false));
    run := ThenReads(run, A_DYING, A, Descending(3, 2, false), Descending(3, 1, false));
    run := ThenReads(run, A_DYING, A, Descending(3, 1, false), Walking(3, 1, HEAD, A, false));
    run := ThenReads(run, A_DYING, A, Walking(3, 1, HEAD, A, false), Swinging(3, 1, HEAD, To(D), false));
    SwingsPastA();
    run := Then(run, With(A_DYING, A, Swinging(3, 1, HEAD, To(D), false)), Unlink(A), A_OFF);
  }

  // ------------------------------------------------------------------
  // D, which T leads to, is retired
  // ------------------------------------------------------------------

  function Later(base: Drawing, upper: Drawing): Picture {
    Hall(base, upper, TOP_LINKED, Linking(3, false), map[A := Descending(3, 0, false), D := Starting], map[A := 0, D := 0])
  }

  const D_ABOVE := Hall(Row(To(A), Dead(T), To(D), To(TAIL)), Row(To(D), To(T), To(D), Dead(TAIL)), TOP_LINKED, Linking(3, false),
                        map[A := Descending(3, 0, false)], map[A := 0, D := 1])
  const D_DYING := Later(Row(To(A), Dead(T), To(D), Dead(TAIL)), Row(To(D), To(T), To(D), Dead(TAIL)))
  const D_OFF_ABOVE := Later(Row(To(A), Dead(T), To(D), Dead(TAIL)), Row(To(TAIL), To(T), To(D), Dead(TAIL)))
  const A_OFF_BELOW := Later(Row(To(T), Dead(T), To(D), Dead(TAIL)), Row(To(TAIL), To(T), To(D), Dead(TAIL)))
  const D_OFF_BELOW := Later(Row(To(T), Dead(T), To(TAIL), Dead(TAIL)), Row(To(TAIL), To(T), To(D), Dead(TAIL)))

  lemma MarksDFirst()
    ensures Draws(T_UP, Mark(D, 1), D_ABOVE)
  {
  }

  lemma MarksDThen()
    ensures Draws(D_ABOVE, Mark(D, 0), D_DYING)
  {
  }

  lemma SweepsUpperD()
    ensures Draws(D_DYING, ReadBound(D), With(D_DYING, D, Descending(3, 3, false)))
    ensures Reads(D_DYING, D, Descending(3, 3, false), Descending(3, 2, false))
    ensures Reads(D_DYING, D, Descending(3, 2, false), Walking(3, 2, HEAD, T, false))
    ensures Reads(D_DYING, D, Walking(3, 2, HEAD, T, false), Descending(3, 1, false))
    ensures Reads(D_DYING, D, Descending(3, 1, false), Walking(3, 1, HEAD, D, false))
    ensures Reads(D_DYING, D, Walking(3, 1, HEAD, D, false), Swinging(3, 1, HEAD, Dead(TAIL), false))
  {
  }

  lemma SwingsAbove()
    ensures Draws(With(D_DYING, D, Swinging(3, 1, HEAD, Dead(TAIL), false)), Unlink(D), With(D_OFF_ABOVE, D, Descending(3, 0, false)))
  {
  }

  lemma SweepsBaseD()
    ensures Reads(D_OFF_ABOVE, D, Descending(3, 0, false), Walking(3, 0, HEAD, A, false))
    ensures Reads(D_OFF_ABOVE, D, Walking(3, 0, HEAD, A, false), Helping(3, 0, HEAD, A, T, false))
  {
  }

  lemma SwingsToT()
    ensures Draws(With(D_OFF_ABOVE, D, Helping(3, 0, HEAD, A, T, false)), Unlink(D), With(A_OFF_BELOW, D, Walking(3, 0, HEAD, T, false)))
  {
  }

  lemma SwingsT()
    ensures Reads(A_OFF_BELOW, D, Walking(3, 0, HEAD, T, false), Walking(3, 0, T, D, false))
    ensures Reads(A_OFF_BELOW, D, Walking(3, 0, T, D, false), Swinging(3, 0, T, Dead(TAIL), false))
    ensures Draws(With(A_OFF_BELOW, D, Swinging(3, 0, T, Dead(TAIL), false)), Unlink(D), With(D_OFF_BELOW, D, Verifying(3, HEAD)))
  {
  }

  lemma ScansUpperD()
    ensures Reads(D_OFF_BELOW, D, Verifying(3, HEAD), Verifying(2, HEAD)) && Reads(D_OFF_BELOW, D, Verifying(2, HEAD), Verifying(2, T))
    ensures Reads(D_OFF_BELOW, D, Verifying(2, T), Verifying(1, HEAD)) && Reads(D_OFF_BELOW, D, Verifying(1, HEAD), Verifying(0, HEAD))
  {
  }

  lemma ScansBaseD()
    ensures Reads(D_OFF_BELOW, D, Verifying(0, HEAD), Verifying(0, T)) && Reads(D_OFF_BELOW, D, Verifying(0, T), Retired)
  {
  }

  lemma RaiseT(run: seq<Step>) returns (all: seq<Step>)
    requires Drawn(run, T_ASIDE)
    ensures Drawn(all, D_DYING) && run <= all
  {
    TriesT();
    all := Then(run, T_ASIDE, TestSlot(T, HEAD, TAIL), T_TRIES);
    LinksTUp();
    all := Then(all, T_TRIES, LinkUpper(T), T_UP);
    MarksDFirst();
    all := Then(all, T_UP, Mark(D, 1), D_ABOVE);
    MarksDThen();
    all := Then(all, D_ABOVE, Mark(D, 0), D_DYING);
  }

  lemma TakeD(run: seq<Step>) returns (all: seq<Step>)
    requires Drawn(run, D_DYING)
    ensures Drawn(all, With(D_OFF_ABOVE, D, Descending(3, 0, false))) && run <= all
  {
    SweepsUpperD();
    all := Then(run, D_DYING, ReadBound(D), With(D_DYING, D, Descending(3, 3, false)));
    all := ThenReads(all, D_DYING, D, Descending(3, 3, false), Descending(3, 2, false));
    all := ThenReads(all, D_DYING, D, Descending(3, 2, false), Walking(3, 2, HEAD, T, false));
    all := ThenReads(all, D_DYING, D, Walking(3, 2, HEAD, T, false), Descending(3, 1, false));
    all := ThenReads(all, D_DYING, D, Descending(3, 1, false), Walking(3, 1, HEAD, D, false));
    all := ThenReads(all, D_DYING, D, Walking(3, 1, HEAD, D, false), Swinging(3, 1, HEAD, Dead(TAIL), false));
    SwingsAbove();
    all := Then(all, With(D_DYING, D, Swinging(3, 1, HEAD, Dead(TAIL), false)), Unlink(D), With(D_OFF_ABOVE, D, Descending(3, 0, false)));
  }

  lemma RetiresD(run: seq<Step>) returns (all: seq<Step>)
    requires Drawn(run, With(D_OFF_ABOVE, D, Descending(3, 0, false)))
    ensures Drawn(all, With(D_OFF_BELOW, D, Retired)) && run <= all
  {
    SweepsBaseD();
    all := ThenReads(run, D_OFF_ABOVE, D, Descending(3, 0, false), Walking(3, 0, HEAD, A, false));
    all := ThenReads(all, D_OFF_ABOVE, D, Walking(3, 0, HEAD, A, false), Helping(3, 0, HEAD, A, T, false));
    SwingsToT();
    all := Then(all, With(D_OFF_ABOVE, D, Helping(3, 0, HEAD, A, T, false)), Unlink(D), With(A_OFF_BELOW, D, Walking(3, 0, HEAD, T, false)));
    SwingsT();
    all := ThenReads(all, A_OFF_BELOW, D, Walking(3, 0, HEAD, T, false), Walking(3, 0, T, D, false));
    all := ThenReads(all, A_OFF_BELOW, D, Walking(3, 0, T, D, false), Swinging(3, 0, T, Dead(TAIL), false));
    all := Then(all, With(A_OFF_BELOW, D, Swinging(3, 0, T, Dead(TAIL), false)), Unlink(D), With(D_OFF_BELOW, D, Verifying(3, HEAD)));
    ScansUpperD();
    all := ThenReads(all, D_OFF_BELOW, D, Verifying(3, HEAD), Verifying(2, HEAD));
    all := ThenReads(all, D_OFF_BELOW, D, Verifying(2, HEAD), Verifying(2, T));
    all := ThenReads(all, D_OFF_BELOW, D, Verifying(2, T), Verifying(1, HEAD));
    all := ThenReads(all, D_OFF_BELOW, D, Verifying(1, HEAD), Verifying(0, HEAD));
    ScansBaseD();
    all := ThenReads(all, D_OFF_BELOW, D, Verifying(0, HEAD), Verifying(0, T));
    all := ThenReads(all, D_OFF_BELOW, D, Verifying(0, T), Retired);
  }

  // ------------------------------------------------------------------
  // The way down
  // ------------------------------------------------------------------

  lemma StrandsT(s: State)
    requires Inv(s, PLAIN) && Shows(s, A_OFF)
    ensures Strands(s, PLAIN, LinkUpper(T), 1)
  {
    assert LevelOk(s, PLAIN, 1);
    PassesAAbove(s.levels[1]);
  }

  lemma PassesAAbove(l: Level)
    requires Forward(l) && ShowsLevel(l, A_OFF.upper)
    ensures !Reached(l, A)
  {
    Meets(l, HEAD);
    Meets(l, D);
    assert Walked(l, TAIL) == {TAIL};
  }

  /** From the head of no level. */
  lemma IsNowhere(s: State, i: nat)
    requires Inv(s, PLAIN) && Shows(s, With(D_OFF_BELOW, D, Retired)) && i < MAX_HEIGHT
    ensures !Reachable(s.levels[i], D)
  {
    var l := s.levels[i];
    assert LevelOk(s, PLAIN, i);
    ShowsAt(s, With(D_OFF_BELOW, D, Retired), i);
    Meets(l, HEAD);
    assert Walked(l, TAIL) == {TAIL};
    if i == 0 || i == 2 {
      Meets(l, T);
    }
    ReachedIsReachable(l, D);
  }

  const WAY: seq<(nat, Node)> := [(2, HEAD), (2, T), (1, T), (1, D)]

  lemma LeadsToD(s: State)
    requires Shows(s, With(D_OFF_BELOW, D, Retired))
    ensures IsRetired(s, D) && IsWay(s, WAY)
  {
    assert GoesOn(s, (2, HEAD), (2, T)) && GoesOn(s, (2, T), (1, T)) && GoesOn(s, (1, T), (1, D));
  }

  lemma RaiseAndRetire(run: seq<Step>) returns (all: seq<Step>)
    requires Drawn(run, A_OFF)
    ensures Drawn(all, With(D_OFF_BELOW, D, Retired)) && run + [LinkUpper(T)] <= all
  {
    LinksTAside();
    var aside := Then(run, A_OFF, LinkUpper(T), T_ASIDE);
    var raised := RaiseT(aside);
    var taken := TakeD(raised);
    all := RetiresD(taken);
    Longer(run + [LinkUpper(T)], raised, taken, all);
  }

  lemma Longer(a: seq<Step>, b: seq<Step>, c: seq<Step>, d: seq<Step>)
    requires a <= b && b <= c && c <= d
    ensures a <= d
  {
  }

  lemma IsOnlyOnTheWay(s: State)
    requires Inv(s, PLAIN) && Shows(s, With(D_OFF_BELOW, D, Retired))
    ensures IsRetired(s, D) && IsWay(s, WAY) && WAY[3].1 == D
    ensures forall i :: 0 <= i < MAX_HEIGHT ==> !Reachable(s.levels[i], D)
  {
    LeadsToD(s);
    forall i | 0 <= i < MAX_HEIGHT
      ensures !Reachable(s.levels[i], D)
    {
      IsNowhere(s, i);
    }
  }

  /** `T` is linked behind `A`, which is off the level by then, and one level up
      on the chain.  `D` is removed and retired; no level leads to it from the
      head, but a search that meets `T` at the top enters level 1 there, and comes
      to `D`. */
  lemma StrandingHappens() returns (run: seq<Step>, all: seq<Step>)
    ensures IsRun(Init(), PLAIN, run) && Strands(After(Init(), PLAIN, run, |run|), PLAIN, LinkUpper(T), 1)
    ensures IsRun(Init(), PLAIN, all) && run + [LinkUpper(T)] <= all
    ensures var s := After(Init(), PLAIN, all, |all|);
            && IsRetired(s, D) && IsWay(s, WAY) && WAY[3].1 == D
            && forall i :: 0 <= i < MAX_HEIGHT ==> !Reachable(s.levels[i], D)
  {
    run := TakeA();
    InitInv(PLAIN);
    RunKeepsInv(Init(), PLAIN, run, |run|);
    StrandsT(After(Init(), PLAIN, run, |run|));
    all := RaiseAndRetire(run);
    RunKeepsInv(Init(), PLAIN, all, |all|);
    IsOnlyOnTheWay(After(Init(), PLAIN, all, |all|));
  }
}
