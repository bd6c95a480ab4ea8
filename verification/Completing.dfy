/**
  That inserts and removes get done: one that nobody disturbs comes to its end,
  whatever was going on before.  An insert that has ended has linked every level of
  its tower, unless a remover has begun to mark the node.
 */
module Completing {
  import opened LevelChain
  import opened Removing
  import opened LockFree
  import opened Sweeping

  // ------------------------------------------------------------------
  // A remover left alone
  // ------------------------------------------------------------------

  ghost predicate Tracks(s: State, nd: Nodes, n: Node, x: Sweep) {
    Inv(s, nd) && n in s.removals && x == Sweep(s.levels, s.removals[n])
  }

  lemma TrackedIsOk(s: State, nd: Nodes, n: Node, x: Sweep)
    requires Tracks(s, nd, n, x)
    ensures IsOk(x, nd.key, n, nd.height(n))
  {
    assert RemovalOk(s, nd, n) && InsertOk(s, nd, n, 0) && LevelOk(s, nd, 0);
    assert LeadsOn(s.levels[0], n);
    forall i | 0 <= i < MAX_HEIGHT
      ensures Forward(x.levels[i]) && Rises(x.levels[i], nd.key, n)
    {
      assert LevelOk(s, nd, i);
      SortedRises(x.levels[i], nd.key, n);
    }
  }

  lemma SortedRises(l: Level, key: Node -> int, n: Node)
    requires Sorted(l, key)
    ensures Rises(l, key, n)
  {
    forall c
      ensures RisesBehind(l, key, n, c)
    {
      assert RisesAt(l, key, c);
    }
  }

  lemma AccessIsStep(s: State, nd: Nodes, n: Node, x: Sweep)
    requires Tracks(s, nd, n, x) && HasLevel(x.u)
    ensures Enabled(s, nd, Unlink(n)) && Tracks(Apply(s, nd, Unlink(n)), nd, n, Access(x, nd.key, n))
  {
    TrackedIsOk(s, nd, n, x);
    AccessFits(x, nd.key, n, nd.height(n));
    StepKeepsInv(s, nd, Unlink(n));
  }

  lemma {:induction false} RunCons(s: State, nd: Nodes, step: Step, rest: seq<Step>)
    requires |s.levels| == MAX_HEIGHT && Enabled(s, nd, step) && IsRun(Apply(s, nd, step), nd, rest)
    ensures IsRun(s, nd, [step] + rest)
    ensures After(s, nd, [step] + rest, |rest| + 1) == After(Apply(s, nd, step), nd, rest, |rest|)
  {
    assert ([step] + rest)[1..] == rest;
  }

  lemma {:induction false} RunOn(s: State, nd: Nodes, a: seq<Step>, b: seq<Step>)
    requires |s.levels| == MAX_HEIGHT && IsRun(s, nd, a) && IsRun(After(s, nd, a, |a|), nd, b)
    ensures IsRun(s, nd, a + b) && After(s, nd, a + b, |a + b|) == After(After(s, nd, a, |a|), nd, b, |b|)
    decreases |a|
  {
    if a == [] {
      assert a + b == b;
    } else {
      assert (a + b)[1..] == a[1..] + b;
      RunOn(Apply(s, nd, a[0]), nd, a[1..], b);
    }
  }

  /** Only the remover of `n` makes steps. */
  predicate IsOwn(run: seq<Step>, n: Node) {
    forall i :: 0 <= i < |run| ==> run[i] == Unlink(n) || run[i] == ReadBound(n)
  }

  lemma {:induction false} AccessesAreSteps(s: State, nd: Nodes, n: Node, x: Sweep, k: nat) returns (run: seq<Step>)
    requires Tracks(s, nd, n, x) && Lasts(x, nd.key, n, k)
    ensures IsRun(s, nd, run) && IsOwn(run, n) && Tracks(After(s, nd, run, |run|), nd, n, Accesses(x, nd.key, n, k))
    decreases k
  {
    run := [];
    if k > 0 {
      AccessIsStep(s, nd, n, x);
      var rest := AccessesAreSteps(Apply(s, nd, Unlink(n)), nd, n, Access(x, nd.key, n), k - 1);
      run := UnlinksFirst(s, nd, n, rest);
    }
  }

  lemma UnlinksFirst(s: State, nd: Nodes, n: Node, rest: seq<Step>) returns (run: seq<Step>)
    requires |s.levels| == MAX_HEIGHT && Enabled(s, nd, Unlink(n))
    requires IsRun(Apply(s, nd, Unlink(n)), nd, rest) && IsOwn(rest, n)
    ensures IsRun(s, nd, run) && IsOwn(run, n)
    ensures After(s, nd, run, |run|) == After(Apply(s, nd, Unlink(n)), nd, rest, |rest|)
  {
    run := [Unlink(n)] + rest;
    RunCons(s, nd, Unlink(n), rest);
  }

  /** To the end of a round; `y` is where that is. */
  lemma Rounds(s: State, nd: Nodes, n: Node, x: Sweep, top: nat, clean: bool) returns (run: seq<Step>, y: Sweep)
    requires Tracks(s, nd, n, x) && (clean ==> IsClean(x, n, top))
    ensures IsRun(s, nd, run) && IsOwn(run, n) && Tracks(After(s, nd, run, |run|), nd, n, y) && RoundOver(y, n, top, clean)
  {
    TrackedIsOk(s, nd, n, x);
    var k := RoundEnds(x, nd.key, n, nd.height(n), top, clean);
    run := AccessesAreSteps(s, nd, n, x, k);
    y := Accesses(x, nd.key, n, k);
  }

  lemma BeginIsStep(s: State, nd: Nodes, n: Node, x: Sweep) returns (y: Sweep, top: nat)
    requires Tracks(s, nd, n, x) && x.u.Starting?
    ensures Enabled(s, nd, ReadBound(n)) && Tracks(Apply(s, nd, ReadBound(n)), nd, n, y) && IsClean(y, n, top) && nd.height(n) <= top
  {
    TrackedIsOk(s, nd, n, x);
    StepKeepsInv(s, nd, ReadBound(n));
    var s' := Apply(s, nd, ReadBound(n));
    y := Sweep(s'.levels, s'.removals[n]);
    top := y.u.bound;
    BeginsClean(s.levels, nd.key, n, nd.height(n), top);
  }

  /** From the start of a round: the node is retired, and off every level. */
  lemma CleanRound(s: State, nd: Nodes, n: Node, x: Sweep) returns (run: seq<Step>, y: Sweep, top: nat)
    requires Tracks(s, nd, n, x) && x.u.Starting?
    ensures IsRun(s, nd, run) && IsOwn(run, n) && Tracks(After(s, nd, run, |run|), nd, n, y)
    ensures y.u.Retired? && IsClean(y, n, top) && nd.height(n) <= top
  {
    var b;
    b, top := BeginIsStep(s, nd, n, x);
    run, y := Rounds(Apply(s, nd, ReadBound(n)), nd, n, b, top, true);
    RunCons(s, nd, ReadBound(n), run);
    run := [ReadBound(n)] + run;
  }

  /** A remover left alone, wherever it stands and whatever marks were erased
      before, retires its node; and after a round from the start no level leads to
      the node any more. */
  lemma RemoverRetires(s: State, nd: Nodes, n: Node) returns (run: seq<Step>)
    requires Inv(s, nd) && n in s.removals
    ensures IsRun(s, nd, run) && IsOwn(run, n)
    ensures var t := After(s, nd, run, |run|);
            && n in t.removals && t.removals[n].Retired?
            && (s.removals[n].Starting? ==> forall i :: 0 <= i < MAX_HEIGHT ==> !Reachable(t.levels[i], n))
  {
    var x, y := Sweep(s.levels, s.removals[n]), Sweep(s.levels, s.removals[n]);
    run := [];
    if !x.u.Starting? {
      run, y := Rounds(s, nd, n, x, 0, false);
    }
    if y.u.Starting? {
      var t := After(s, nd, run, |run|);
      var more, z, top := CleanRound(t, nd, n, y);
      RunOn(s, nd, run, more);
      run := run + more;
      IsNowhere(After(t, nd, more, |more|), nd, n, z, top);
    }
  }

  lemma IsNowhere(s: State, nd: Nodes, n: Node, x: Sweep, top: nat)
    requires Tracks(s, nd, n, x) && x.u.Retired? && IsClean(x, n, top) && nd.height(n) <= top
    ensures forall i :: 0 <= i < MAX_HEIGHT ==> !Reachable(s.levels[i], n)
  {
    TrackedIsOk(s, nd, n, x);
    assert RemovalOk(s, nd, n) && InsertOk(s, nd, n, 0);
    forall i | 0 <= i < MAX_HEIGHT
      ensures !Reachable(s.levels[i], n)
    {
      assert LevelOk(s, nd, i) && InsertOk(s, nd, n, i);
      if i <= top {
        assert OffAt(s.levels[i], n);
      } else {
        assert n !in s.levels[i].rank && Walked(s.levels[i], HEAD) <= s.levels[i].rank.Keys;
      }
      ReachedIsReachable(s.levels[i], n);
    }
  }

  // ------------------------------------------------------------------
  // What an insert has done
  // ------------------------------------------------------------------

  /** The insert does not give up a level without a mark. */
  ghost predicate DoneOk(s: State, nd: Nodes, n: Node, l: nat)
    requires |s.levels| == MAX_HEIGHT && l < MAX_HEIGHT
  {
    n in s.inserts && s.inserts[n].Finished? && n !in s.passed && l <= nd.height(n) ==> n in s.levels[l].rank
  }

  predicate Refills(i: Insert) {
    i.Filling? || (i.Linking? && !i.again) || (i.Publishing? && !i.again)
  }

  /** A slot yet to be linked that the insert has not searched anew leads where
      the node fits. */
  ghost predicate SlotFits(s: State, nd: Nodes, n: Node, l: nat)
    requires |s.levels| == MAX_HEIGHT && l < MAX_HEIGHT
  {
    n in s.inserts && Refills(s.inserts[n]) && n !in s.levels[l].rank && n in s.levels[l].next ==>
      s.levels[l].next[n].ptr in s.levels[l].rank && Compare(nd.key, n, s.levels[l].next[n].ptr) <= 0
  }

  ghost predicate Proper(s: State, nd: Nodes) {
    Inv(s, nd) && forall n, l :: 0 <= l < MAX_HEIGHT ==> DoneOk(s, nd, n, l) && SlotFits(s, nd, n, l)
  }

  lemma InitIsProper(nd: Nodes)
    ensures Proper(Init(), nd)
  {
    InitInv(nd);
  }

  lemma StepKeepsDone(s: State, nd: Nodes, step: Step, n: Node, l: nat)
    requires Inv(s, nd) && Enabled(s, nd, step) && l < MAX_HEIGHT && DoneOk(s, nd, n, l)
    ensures DoneOk(Apply(s, nd, step), nd, n, l)
  {
    StepKeepsLevel(s, nd, step, l);
    assert InsertOk(s, nd, n, l) && InsertOk(s, nd, n, 0) && NodeEvolves(s.levels[l], Apply(s, nd, step).levels[l], n);
    if !ActsOn(step, n) {
      OthersUntouched(s, nd, step, n, l);
    } else if step.TestSlot? {
      assert InsertOk(s, nd, n, s.inserts[n].level) && PassedOk(s, nd, n, s.inserts[n].level);
    } else if step.Relocate? {
      assert PassedOk(s, nd, n, 0);
    }
  }

  lemma OthersKeepFit(s: State, nd: Nodes, step: Step, n: Node, l: nat)
    requires Inv(s, nd) && Enabled(s, nd, step) && l < MAX_HEIGHT && SlotFits(s, nd, n, l) && !ActsOn(step, n)
    ensures SlotFits(Apply(s, nd, step), nd, n, l)
  {
    StepKeepsLevel(s, nd, step, l);
    OthersUntouched(s, nd, step, n, l);
    if n in s.levels[l].next {
      assert NodeEvolves(s.levels[l], Apply(s, nd, step).levels[l], s.levels[l].next[n].ptr);
    }
  }

  lemma OwnKeepsFit(s: State, nd: Nodes, step: Step, n: Node, l: nat)
    requires Inv(s, nd) && Enabled(s, nd, step) && l < MAX_HEIGHT && SlotFits(s, nd, n, l) && ActsOn(step, n)
    ensures SlotFits(Apply(s, nd, step), nd, n, l)
  {
    var (i, w) := WriteOf(s, nd, step);
    assert InsertOk(s, nd, n, l);
    WriteFits(s, nd, step);
    WriteRanks(s.levels[i], w, n);
    if n in s.levels[l].next {
      WriteRanks(s.levels[i], w, s.levels[l].next[n].ptr);
    }
    if step.Unlink? {
      UnlinkFits(s, nd, n);
      WriteKeepsSlot(s.levels[i], w, n);
    }
  }

  lemma StepKeepsSlot(s: State, nd: Nodes, step: Step, n: Node, l: nat)
    requires Inv(s, nd) && Enabled(s, nd, step) && l < MAX_HEIGHT && SlotFits(s, nd, n, l)
    ensures SlotFits(Apply(s, nd, step), nd, n, l)
  {
    if ActsOn(step, n) {
      OwnKeepsFit(s, nd, step, n, l);
    } else {
      OthersKeepFit(s, nd, step, n, l);
    }
  }

  lemma StepKeepsProper(s: State, nd: Nodes, step: Step)
    requires Proper(s, nd) && Enabled(s, nd, step)
    ensures Proper(Apply(s, nd, step), nd)
  {
    StepKeepsInv(s, nd, step);
    forall n, l | 0 <= l < MAX_HEIGHT
      ensures DoneOk(Apply(s, nd, step), nd, n, l) && SlotFits(Apply(s, nd, step), nd, n, l)
    {
      assert DoneOk(s, nd, n, l) && SlotFits(s, nd, n, l);
      StepKeepsDone(s, nd, step, n, l);
      StepKeepsSlot(s, nd, step, n, l);
    }
  }

  lemma {:induction false} RunKeepsProper(s: State, nd: Nodes, run: seq<Step>)
    requires Proper(s, nd) && IsRun(s, nd, run)
    ensures Proper(After(s, nd, run, |run|), nd)
    decreases |run|
  {
    if run != [] {
      StepKeepsProper(s, nd, run[0]);
      RunKeepsProper(Apply(s, nd, run[0]), nd, run[1..]);
    }
  }

  /** After any run from the empty list, an insert that has ended has linked its
      node at every level of the tower, unless the node was marked. */
  lemma EndedIsLinked(nd: Nodes, run: seq<Step>, n: Node, l: nat)
    requires IsRun(Init(), nd, run) && l < MAX_HEIGHT
    ensures var s := After(Init(), nd, run, |run|);
            n in s.inserts && s.inserts[n].Finished? && l <= nd.height(n) ==> n in s.passed || n in s.levels[l].rank
  {
    InitIsProper(nd);
    RunKeepsProper(Init(), nd, run);
    assert DoneOk(After(Init(), nd, run, |run|), nd, n, l);
  }

  // ------------------------------------------------------------------
  // An insert left alone
  // ------------------------------------------------------------------

  /** What the inserting thread does itself: helping included. */
  predicate IsInserting(step: Step, n: Node) {
    || step.Splice? || step.NoteDuplicate?
    || ((step.Fill? || step.LinkBase? || step.TestSlot? || step.StoreSlot? || step.LinkUpper? || step.Relocate? || step.FinishInsert?)
        && step.n == n)
  }

  predicate AllInserting(run: seq<Step>, n: Node) {
    forall i :: 0 <= i < |run| ==> IsInserting(run[i], n)
  }

  /** The predecessors the insert remembers from its search fit. */
  ghost predicate Remembers(s: State, nd: Nodes, n: Node, path: nat -> Node)
    requires |s.levels| == MAX_HEIGHT
  {
    forall l :: 0 <= l < MAX_HEIGHT ==> path(l) in s.levels[l].rank && Compare(nd.key, path(l), n) < 0
  }

  /** What steps of the insert keep. */
  ghost predicate Alone(s: State, nd: Nodes, n: Node, path: nat -> Node, marked: bool) {
    Proper(s, nd) && n in s.inserts && Remembers(s, nd, n, path) && marked == (n in s.passed)
  }

  /** The insert of `n` does not mark it. */
  lemma {:induction false} MarksNothing(s: State, nd: Nodes, n: Node, run: seq<Step>)
    requires |s.levels| == MAX_HEIGHT && IsRun(s, nd, run) && AllInserting(run, n) && n in s.inserts
    ensures var t := After(s, nd, run, |run|); n in t.inserts && (n in t.passed <==> n in s.passed)
    decreases |run|
  {
    if run != [] {
      assert IsInserting(run[0], n);
      MarksNothing(Apply(s, nd, run[0]), nd, n, run[1..]);
    }
  }

  lemma StillRemembers(s: State, nd: Nodes, n: Node, path: nat -> Node, run: seq<Step>)
    requires Inv(s, nd) && IsRun(s, nd, run) && Remembers(s, nd, n, path)
    ensures Remembers(After(s, nd, run, |run|), nd, n, path)
  {
    forall l | 0 <= l < MAX_HEIGHT
      ensures path(l) in After(s, nd, run, |run|).levels[l].rank && Compare(nd.key, path(l), n) < 0
    {
      RunEvolves(s, nd, run, 0, |run|, l);
      assert NodeEvolves(s.levels[l], After(s, nd, run, |run|).levels[l], path(l));
    }
  }

  lemma StillAlone(s: State, nd: Nodes, n: Node, path: nat -> Node, marked: bool, run: seq<Step>)
    requires Alone(s, nd, n, path, marked) && IsRun(s, nd, run) && AllInserting(run, n)
    ensures Alone(After(s, nd, run, |run|), nd, n, path, marked)
  {
    RunKeepsProper(s, nd, run);
    StillRemembers(s, nd, n, path, run);
    MarksNothing(s, nd, n, run);
  }

  /** How far a search that stands at `pred` still has to go. */
  ghost function Search(l: Level, pred: Node): nat {
    ToTail(l, pred) + ToTail(l, Slot(l, pred).ptr)
  }

  /** It stands at an unmarked node with a smaller key. */
  ghost predicate StandsAt(s: State, nd: Nodes, n: Node, l: nat, pred: Node)
    requires |s.levels| == MAX_HEIGHT
  {
    && l < MAX_HEIGHT && n !in s.levels[l].rank
    && pred in s.levels[l].rank && Compare(nd.key, pred, n) < 0 && !Slot(s.levels[l], pred).marked
  }

  /** A marked node ahead is taken out. */
  lemma HelpsOut(s: State, nd: Nodes, n: Node, l: nat, pred: Node)
    requires Inv(s, nd) && n in s.inserts && StandsAt(s, nd, n, l, pred)
    requires var c := Slot(s.levels[l], pred).ptr; c != TAIL && Slot(s.levels[l], c).marked
    ensures var step := Splice(l, pred, Slot(s.levels[l], pred).ptr);
            && Enabled(s, nd, step) && Apply(s, nd, step).inserts == s.inserts
            && StandsAt(Apply(s, nd, step), nd, n, l, pred)
            && Search(Apply(s, nd, step).levels[l], pred) < Search(s.levels[l], pred)
  {
    var level := s.levels[l];
    assert LevelOk(s, nd, l) && LeadsOn(level, pred) && InsertOk(s, nd, n, l);
    var c := level.next[pred].ptr;
    assert LeadsOn(level, c) && LeadsOn(level, level.next[c].ptr);
  }

  /** Behind `p` comes a node that is not smaller. */
  ghost predicate IsPlace(l: Level, nd: Nodes, n: Node, p: Node) {
    var c := Slot(l, p).ptr;
    p in l.rank && c in l.rank && Points(l, p, c) && FitsBetween(nd.key, p, n, c)
  }

  lemma LooksAhead(s: State, nd: Nodes, n: Node, l: nat, pred: Node)
    requires Inv(s, nd) && n in s.inserts && StandsAt(s, nd, n, l, pred)
    ensures var level := s.levels[l];
            var c := Slot(level, pred).ptr;
            if Compare(nd.key, c, n) < 0 then
              Search(level, c) < Search(level, pred) && (!Slot(level, c).marked ==> StandsAt(s, nd, n, l, c))
            else IsPlace(level, nd, n, pred)
  {
    var level := s.levels[l];
    assert LevelOk(s, nd, l) && LeadsOn(level, pred) && InsertOk(s, nd, n, l);
    var c := level.next[pred].ptr;
    assert LeadsOn(level, c) && LeadsOn(level, Slot(level, c).ptr);
  }

  /** A search of one level takes marked nodes out on its way, and finds where the
      node fits. */
  lemma {:induction false} FindPlace(s: State, nd: Nodes, n: Node, l: nat, pred: Node) returns (run: seq<Step>, p: Node)
    requires Inv(s, nd) && n in s.inserts && StandsAt(s, nd, n, l, pred)
    ensures IsRun(s, nd, run) && AllInserting(run, n) && After(s, nd, run, |run|).inserts == s.inserts
    ensures StandsAt(After(s, nd, run, |run|), nd, n, l, p) && IsPlace(After(s, nd, run, |run|).levels[l], nd, n, p)
    decreases Search(s.levels[l], pred)
  {
    var c := Slot(s.levels[l], pred).ptr;
    LooksAhead(s, nd, n, l, pred);
    if c != TAIL && Slot(s.levels[l], c).marked {
      HelpsOut(s, nd, n, l, pred);
      StepKeepsInv(s, nd, Splice(l, pred, c));
      run, p := FindPlace(Apply(s, nd, Splice(l, pred, c)), nd, n, l, pred);
      RunCons(s, nd, Splice(l, pred, c), run);
      run := [Splice(l, pred, c)] + run;
    } else if Compare(nd.key, c, n) < 0 {
      run, p := FindPlace(s, nd, n, l, c);
    } else {
      run, p := [], pred;
    }
  }

  /** One step more of the insert. */
  lemma StepsOn(s: State, nd: Nodes, n: Node, path: nat -> Node, marked: bool, step: Step)
    requires Alone(s, nd, n, path, marked) && Enabled(s, nd, step) && IsInserting(step, n)
    ensures IsRun(s, nd, [step]) && AllInserting([step], n)
    ensures Alone(Apply(s, nd, step), nd, n, path, marked)
  {
    assert [step][1..] == [];
    StillAlone(s, nd, n, path, marked, [step]);
  }

  /** Beyond the first attempt a level is searched anew; then it is linked, or a
      mark is found. */
  lemma LinksAfresh(s: State, nd: Nodes, n: Node) returns (run: seq<Step>)
    requires Inv(s, nd) && n in s.inserts && s.inserts[n].Linking? && s.inserts[n].again && s.inserts[n].level <= nd.height(n)
    ensures IsRun(s, nd, run) && AllInserting(run, n)
    ensures var t := After(s, nd, run, |run|);
            n in t.inserts && (t.inserts[n].Finished? || t.inserts[n] == Linking(s.inserts[n].level + 1, true))
  {
    var i := s.inserts[n].level;
    assert InsertOk(s, nd, n, 0);
    assert InsertOk(s, nd, n, i) && LevelOk(s, nd, i);
    assert LeadsOn(s.levels[i], HEAD);
    var p;
    run, p := FindPlace(s, nd, n, i, HEAD);
    RunKeepsInv(s, nd, run, |run|);
    var more := LinksAt(After(s, nd, run, |run|), nd, n, p);
    RunOn(s, nd, run, more);
    run := run + more;
  }

  lemma LinksAt(s: State, nd: Nodes, n: Node, p: Node) returns (run: seq<Step>)
    requires Inv(s, nd) && n in s.inserts && s.inserts[n].Linking? && s.inserts[n].again && s.inserts[n].level <= nd.height(n) < MAX_HEIGHT
    requires IsPlace(s.levels[s.inserts[n].level], nd, n, p) && n !in s.levels[s.inserts[n].level].rank
    ensures IsRun(s, nd, run) && AllInserting(run, n)
    ensures var t := After(s, nd, run, |run|);
            n in t.inserts && (t.inserts[n].Finished? || t.inserts[n] == Linking(s.inserts[n].level + 1, true))
  {
    var i := s.inserts[n].level;
    assert InsertOk(s, nd, n, i) && InsertOk(s, nd, n, 0);
    var test := TestSlot(n, p, Slot(s.levels[i], p).ptr);
    var s1 := Apply(s, nd, test);
    run := [];
    if s1.inserts[n].Storing? {
      run := StoresAndLinks(s1, nd, n);
    } else if s1.inserts[n].Publishing? {
      run := JustLinks(s1, nd, n);
    }
    RunCons(s, nd, test, run);
    run := [test] + run;
  }

  lemma JustLinks(s: State, nd: Nodes, n: Node) returns (run: seq<Step>)
    requires |s.levels| == MAX_HEIGHT && Enabled(s, nd, LinkUpper(n))
    ensures IsRun(s, nd, run) && AllInserting(run, n)
    ensures var t := After(s, nd, run, |run|);
            n in t.inserts && t.inserts[n] == Linking(s.inserts[n].level + 1, s.inserts[n].again)
  {
    run := [LinkUpper(n)];
    assert run[1..] == [];
  }

  lemma StoresAndLinks(s: State, nd: Nodes, n: Node) returns (run: seq<Step>)
    requires |s.levels| == MAX_HEIGHT && n in s.inserts && s.inserts[n].Storing? && s.inserts[n].level < MAX_HEIGHT
    requires var l := s.levels[s.inserts[n].level];
             n !in l.rank && s.inserts[n].pred in l.rank && Points(l, s.inserts[n].pred, s.inserts[n].succ)
    ensures IsRun(s, nd, run) && AllInserting(run, n)
    ensures var t := After(s, nd, run, |run|);
            n in t.inserts && t.inserts[n] == Linking(s.inserts[n].level + 1, true)
  {
    run := JustLinks(Apply(s, nd, StoreSlot(n)), nd, n);
    RunCons(s, nd, StoreSlot(n), run);
    run := [StoreSlot(n)] + run;
  }

  /** What remains to be done on a level. */
  function Left(i: Insert): nat {
    match i
    case Linking(_, again) => if again then 1 else 4
    case Storing(_, _, _) => 3
    case Publishing(_, _, _, _) => 2
    case _ => 0
  }

  function LevelAt(i: Insert): nat {
    if i.Linking? || i.Storing? || i.Publishing? then i.level else 0
  }

  function LevelsLeft(nd: Nodes, n: Node, i: Insert): nat {
    if i.Finished? || nd.height(n) < LevelAt(i) then 0 else nd.height(n) + 1 - LevelAt(i)
  }

  /** The access that follows, a new search apart. */
  function NextStep(s: State, n: Node, path: nat -> Node): Step
    requires |s.levels| == MAX_HEIGHT && n in s.inserts && LevelAt(s.inserts[n]) < MAX_HEIGHT
  {
    var i := s.inserts[n];
    if i.Linking? then TestSlot(n, path(i.level), Slot(s.levels[i.level], n).ptr)
    else if i.Storing? then StoreSlot(n)
    else if i.Publishing? && Points(s.levels[i.level], i.pred, i.succ) then LinkUpper(n)
    else Relocate(n)
  }

  lemma NextIsEnabled(s: State, nd: Nodes, n: Node, path: nat -> Node, marked: bool)
    requires Alone(s, nd, n, path, marked)
    requires LevelsLeft(nd, n, s.inserts[n]) > 0 && Left(s.inserts[n]) > 1
    ensures LevelAt(s.inserts[n]) < MAX_HEIGHT && Enabled(s, nd, NextStep(s, n, path)) && IsInserting(NextStep(s, n, path), n)
    ensures var i, j := s.inserts[n], Apply(s, nd, NextStep(s, n, path)).inserts[n];
            || LevelsLeft(nd, n, j) < LevelsLeft(nd, n, i)
            || (LevelsLeft(nd, n, j) == LevelsLeft(nd, n, i) && Left(j) < Left(i))
  {
    var l := LevelAt(s.inserts[n]);
    assert InsertOk(s, nd, n, 0);
    assert InsertOk(s, nd, n, l) && SlotFits(s, nd, n, l);
  }

  /** A step, or a new search and what follows it, brings the insert closer to its
      end. */
  lemma GetsOn(s: State, nd: Nodes, n: Node, path: nat -> Node, marked: bool) returns (run: seq<Step>)
    requires Alone(s, nd, n, path, marked) && Left(s.inserts[n]) > 0
    ensures IsRun(s, nd, run) && AllInserting(run, n) && Alone(After(s, nd, run, |run|), nd, n, path, marked)
    ensures var i, j := s.inserts[n], After(s, nd, run, |run|).inserts[n];
            && !j.Filling?
            && (|| LevelsLeft(nd, n, j) < LevelsLeft(nd, n, i)
                || (LevelsLeft(nd, n, j) == LevelsLeft(nd, n, i) && Left(j) < Left(i)))
  {
    var i := s.inserts[n];
    assert InsertOk(s, nd, n, 0);
    if i.Linking? && nd.height(n) < i.level {
      StepsOn(s, nd, n, path, marked, FinishInsert(n));
      run := [FinishInsert(n)];
    } else if Left(i) > 1 {
      NextIsEnabled(s, nd, n, path, marked);
      StepsOn(s, nd, n, path, marked, NextStep(s, n, path));
      run := [NextStep(s, n, path)];
    } else {
      run := LinksAfresh(s, nd, n);
      StillAlone(s, nd, n, path, marked, run);
    }
  }

  /** An insert in the list that nobody disturbs comes to its end. */
  lemma {:induction false} Finishes(s: State, nd: Nodes, n: Node, path: nat -> Node, marked: bool) returns (run: seq<Step>)
    requires Alone(s, nd, n, path, marked) && !s.inserts[n].Filling?
    ensures IsRun(s, nd, run) && AllInserting(run, n)
    ensures var t := After(s, nd, run, |run|); n in t.inserts && t.inserts[n].Finished?
    decreases LevelsLeft(nd, n, s.inserts[n]), Left(s.inserts[n])
  {
    run := [];
    if !s.inserts[n].Finished? {
      run := GetsOn(s, nd, n, path, marked);
      var more := Finishes(After(s, nd, run, |run|), nd, n, path, marked);
      RunOn(s, nd, run, more);
      run := run + more;
    }
  }

  // ------------------------------------------------------------------
  // From the beginning
  // ------------------------------------------------------------------

  ghost predicate FilledFrom(s: State, nd: Nodes, n: Node, l: nat)
    requires |s.levels| == MAX_HEIGHT
  {
    nd.height(n) < MAX_HEIGHT && forall i :: l <= i <= nd.height(n) ==> n in s.levels[i].next
  }

  lemma {:induction false} StillFilled(s: State, nd: Nodes, n: Node, run: seq<Step>, l: nat)
    requires |s.levels| == MAX_HEIGHT && IsRun(s, nd, run) && FilledFrom(s, nd, n, l)
    ensures FilledFrom(After(s, nd, run, |run|), nd, n, l)
    decreases |run|
  {
    if run != [] {
      StillFilled(Apply(s, nd, run[0]), nd, n, run[1..], l);
    }
  }

  /** A slot is filled with what a search of its level finds. */
  lemma FillsOne(s: State, nd: Nodes, n: Node, l: nat) returns (run: seq<Step>, p: Node)
    requires Inv(s, nd) && n in s.inserts && s.inserts[n].Filling? && l <= nd.height(n) && FilledFrom(s, nd, n, l + 1)
    ensures IsRun(s, nd, run) && AllInserting(run, n)
    ensures var t := After(s, nd, run, |run|);
            && Inv(t, nd) && n in t.inserts && t.inserts[n].Filling? && FilledFrom(t, nd, n, l)
            && IsPlace(t.levels[l], nd, n, p) && t.levels[l].next[n].ptr == Slot(t.levels[l], p).ptr
  {
    assert InsertOk(s, nd, n, l) && LevelOk(s, nd, l);
    assert LeadsOn(s.levels[l], HEAD);
    run, p := FindPlace(s, nd, n, l, HEAD);
    RunKeepsInv(s, nd, run, |run|);
    var t := After(s, nd, run, |run|);
    StillFilled(s, nd, n, run, l + 1);
    var fill := Fill(n, l, Slot(t.levels[l], p).ptr);
    StepKeepsInv(t, nd, fill);
    assert [fill][1..] == [] && IsRun(t, nd, [fill]);
    RunOn(s, nd, run, [fill]);
    run := run + [fill];
  }

  lemma {:induction false} FillsAll(s: State, nd: Nodes, n: Node, l: nat) returns (run: seq<Step>)
    requires Inv(s, nd) && n in s.inserts && s.inserts[n].Filling?
    ensures IsRun(s, nd, run) && AllInserting(run, n)
    ensures var t := After(s, nd, run, |run|);
            Inv(t, nd) && n in t.inserts && t.inserts[n].Filling? && FilledFrom(t, nd, n, l)
    decreases MAX_HEIGHT - l
  {
    run := [];
    assert InsertOk(s, nd, n, 0);
    if l <= nd.height(n) {
      run := FillsAll(s, nd, n, l + 1);
      var more, _ := FillsOne(After(s, nd, run, |run|), nd, n, l);
      RunOn(s, nd, run, more);
      run := run + more;
    }
  }

  /** Level 0 is linked; an equal key behind it is noted before. */
  lemma LinksBase(s: State, nd: Nodes, n: Node, p: Node) returns (run: seq<Step>)
    requires Inv(s, nd) && n in s.inserts && s.inserts[n].Filling? && FilledFrom(s, nd, n, 0)
    requires IsPlace(s.levels[0], nd, n, p) && s.levels[0].next[n].ptr == Slot(s.levels[0], p).ptr
    ensures IsRun(s, nd, run) && AllInserting(run, n)
    ensures var t := After(s, nd, run, |run|); n in t.inserts && t.inserts[n].Linking?
  {
    assert InsertOk(s, nd, n, 0);
    var link := LinkBase(n, p, Slot(s.levels[0], p).ptr);
    run := [link];
    assert run[1..] == [];
    if Enabled(s, nd, link) {
      assert IsRun(s, nd, run);
    } else {
      assert IsRun(Apply(s, nd, NoteDuplicate), nd, run);
      RunCons(s, nd, NoteDuplicate, run);
      run := [NoteDuplicate] + run;
    }
  }

  lemma Begins(s: State, nd: Nodes, n: Node) returns (run: seq<Step>)
    requires Inv(s, nd) && n in s.inserts && s.inserts[n].Filling?
    ensures IsRun(s, nd, run) && AllInserting(run, n)
    ensures var t := After(s, nd, run, |run|); n in t.inserts && t.inserts[n].Linking?
  {
    run := FillsAll(s, nd, n, 1);
    var s1 := After(s, nd, run, |run|);
    var more, p := FillsOne(s1, nd, n, 0);
    RunOn(s, nd, run, more);
    run := run + more;
    var last := LinksBase(After(s1, nd, more, |more|), nd, n, p);
    RunOn(s, nd, run, last);
    run := run + last;
  }

  /** An insert left alone, wherever it stands and whatever marks were erased
      before, comes to its end; and unless a remover has begun to mark the node, it
      is then linked at every level of its tower. */
  lemma InsertGetsDone(s: State, nd: Nodes, n: Node, path: nat -> Node) returns (run: seq<Step>)
    requires Proper(s, nd) && n in s.inserts && Remembers(s, nd, n, path)
    ensures IsRun(s, nd, run) && AllInserting(run, n)
    ensures var t := After(s, nd, run, |run|);
            && n in t.inserts && t.inserts[n].Finished? && n in t.levels[0].rank
            && (n in s.passed || forall l :: 0 <= l <= nd.height(n) < MAX_HEIGHT ==> n in t.levels[l].rank)
  {
    run := [];
    if s.inserts[n].Filling? {
      run := Begins(s, nd, n);
    }
    StillAlone(s, nd, n, path, n in s.passed, run);
    var more := Finishes(After(s, nd, run, |run|), nd, n, path, n in s.passed);
    RunOn(s, nd, run, more);
    run := run + more;
    StillAlone(s, nd, n, path, n in s.passed, run);
    IsDone(After(s, nd, run, |run|), nd, n);
  }

  lemma IsDone(t: State, nd: Nodes, n: Node)
    requires Proper(t, nd) && n in t.inserts && t.inserts[n].Finished?
    ensures n in t.levels[0].rank
    ensures n in t.passed || forall l :: 0 <= l <= nd.height(n) < MAX_HEIGHT ==> n in t.levels[l].rank
  {
    assert InsertOk(t, nd, n, 0);
    if n !in t.passed {
      forall l | 0 <= l <= nd.height(n) < MAX_HEIGHT
        ensures n in t.levels[l].rank
      {
        assert DoneOk(t, nd, n, l);
      }
    }
  }
}
