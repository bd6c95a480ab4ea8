/**
  That a promotion and the remove beside it get done: each comes to its end when
  nobody disturbs it, wherever both stand and whatever others wrote before.
 */
module Settling {
  import opened LevelChain
  import opened Removing
  import opened Promotion
  import opened Sweeping

  // ------------------------------------------------------------------
  // Runs put together
  // ------------------------------------------------------------------

  function EndOf(s: State, c: Setting, run: seq<Step>): (t: State)
    requires |s.levels| == MAX_HEIGHT && c.h + 1 < MAX_HEIGHT && IsRun(s, c, run)
    ensures |t.levels| == MAX_HEIGHT
  {
    After(s, c, run, |run|)
  }

  predicate IsPromoter(step: Step) {
    step.Promote? || step.PromoterReadsBound? || step.PromoterUnlinks?
  }

  predicate IsRemover(step: Step) {
    step.Remove? || step.RemoverReadsBound? || step.RemoverUnlinks?
  }

  /** Only the one thread makes steps. */
  predicate IsLone(run: seq<Step>, promoter: bool) {
    forall i :: 0 <= i < |run| ==> if promoter then IsPromoter(run[i]) else IsRemover(run[i])
  }

  lemma {:induction false} RunCons(s: State, c: Setting, step: Step, rest: seq<Step>)
    requires |s.levels| == MAX_HEIGHT && c.h + 1 < MAX_HEIGHT && Enabled(s, c, step) && IsRun(Apply(s, c, step), c, rest)
    ensures IsRun(s, c, [step] + rest) && EndOf(s, c, [step] + rest) == EndOf(Apply(s, c, step), c, rest)
    ensures forall p :: IsLone([step], p) && IsLone(rest, p) ==> IsLone([step] + rest, p)
  {
    assert ([step] + rest)[1..] == rest;
  }

  lemma {:induction false} RunOn(s: State, c: Setting, a: seq<Step>, b: seq<Step>)
    requires |s.levels| == MAX_HEIGHT && c.h + 1 < MAX_HEIGHT && IsRun(s, c, a) && IsRun(EndOf(s, c, a), c, b)
    ensures IsRun(s, c, a + b) && EndOf(s, c, a + b) == EndOf(EndOf(s, c, a), c, b)
    decreases |a|
  {
    if a == [] {
      assert a + b == b;
    } else {
      assert (a + b)[1..] == a[1..] + b;
      var t := Apply(s, c, a[0]);
      RunOn(t, c, a[1..], b);
      Longer(s, c, a + b, t);
      Longer(s, c, a, t);
    }
  }

  lemma Longer(s: State, c: Setting, run: seq<Step>, t: State)
    requires |s.levels| == MAX_HEIGHT && c.h + 1 < MAX_HEIGHT && run != [] && Enabled(s, c, run[0]) && t == Apply(s, c, run[0])
    ensures IsRun(s, c, run) <==> IsRun(t, c, run[1..])
    ensures IsRun(s, c, run) ==> EndOf(s, c, run) == EndOf(t, c, run[1..])
  {
  }

  // ------------------------------------------------------------------
  // The sweeps of either thread
  // ------------------------------------------------------------------

  /** The thread unlinks the node, and `x` is where it stands; a promoter that has
      retired it is done. */
  ghost predicate Stands(s: State, promoter: bool, height: nat, x: Sweep) {
    && x.levels == s.levels
    && (promoter ==> s.prom == if x.u.Retired? then Done(true) else Again(height, x.u))
    && (!promoter ==> s.rem == Unlinking(height, x.u))
  }

  ghost predicate Tracks(s: State, c: Setting, promoter: bool, height: nat, x: Sweep) {
    Inv(s, c) && Stands(s, promoter, height, x)
  }

  function AccessStep(promoter: bool): Step {
    if promoter then PromoterUnlinks else RemoverUnlinks
  }

  function BoundStep(promoter: bool, headHeight: nat): Step {
    if promoter then PromoterReadsBound(headHeight) else RemoverReadsBound(headHeight)
  }

  lemma TrackedIsOk(s: State, c: Setting, promoter: bool, height: nat, x: Sweep)
    requires Tracks(s, c, promoter, height, x) && !x.u.Retired?
    ensures IsOk(x, c.key, c.n, height) && height <= c.h + 1
  {
    forall i | 0 <= i < MAX_HEIGHT
      ensures Forward(x.levels[i]) && Rises(x.levels[i], c.key, c.n)
    {
      assert LevelOk(s.levels[i], c, s.upset, i);
      forall y
        ensures RisesBehind(x.levels[i], c.key, c.n, y)
      {
        assert OrderedAt(x.levels[i], c.key, c.n, Calm(s.upset, c, i), y);
      }
    }
  }

  lemma AccessIsStep(s: State, c: Setting, promoter: bool, height: nat, x: Sweep)
    requires |s.levels| == MAX_HEIGHT && c.h + 1 < MAX_HEIGHT
    requires Stands(s, promoter, height, x) && HasLevel(x.u) && x.u.level < MAX_HEIGHT
    ensures Enabled(s, c, AccessStep(promoter))
    ensures Stands(Apply(s, c, AccessStep(promoter)), promoter, height, Access(x, c.key, c.n))
  {
  }

  lemma {:induction false} AccessesAreSteps(s: State, c: Setting, promoter: bool, height: nat, x: Sweep, k: nat)
    returns (run: seq<Step>)
    requires |s.levels| == MAX_HEIGHT && c.h + 1 < MAX_HEIGHT
    requires Stands(s, promoter, height, x) && Lasts(x, c.key, c.n, k)
    ensures IsRun(s, c, run) && IsLone(run, promoter)
    ensures Stands(EndOf(s, c, run), promoter, height, Accesses(x, c.key, c.n, k))
    decreases k
  {
    run := [];
    if k > 0 {
      var step := AccessStep(promoter);
      AccessIsStep(s, c, promoter, height, x);
      var t := Apply(s, c, step);
      var rest := AccessesAreSteps(t, c, promoter, height, Access(x, c.key, c.n), k - 1);
      run := Prepended(s, c, promoter, step, t, rest);
    }
  }

  lemma Prepended(s: State, c: Setting, promoter: bool, step: Step, t: State, rest: seq<Step>) returns (run: seq<Step>)
    requires |s.levels| == MAX_HEIGHT && c.h + 1 < MAX_HEIGHT && step == AccessStep(promoter)
    requires Enabled(s, c, step) && t == Apply(s, c, step) && IsRun(t, c, rest) && IsLone(rest, promoter)
    ensures IsRun(s, c, run) && IsLone(run, promoter) && EndOf(s, c, run) == EndOf(t, c, rest)
  {
    run := [step] + rest;
    assert run[1..] == rest;
    Longer(s, c, run, t);
  }

  lemma Rounds(s: State, c: Setting, promoter: bool, height: nat, x: Sweep, top: nat, clean: bool)
    returns (run: seq<Step>, y: Sweep)
    requires Tracks(s, c, promoter, height, x) && (clean ==> IsClean(x, c.n, top)) && !x.u.Retired?
    ensures IsRun(s, c, run) && IsLone(run, promoter)
    ensures Tracks(EndOf(s, c, run), c, promoter, height, y) && RoundOver(y, c.n, top, clean)
  {
    TrackedIsOk(s, c, promoter, height, x);
    var k := RoundEnds(x, c.key, c.n, height, top, clean);
    run := AccessesAreSteps(s, c, promoter, height, x, k);
    y := Accesses(x, c.key, c.n, k);
    RunKeepsInv(s, c, run, |run|);
  }

  lemma BeginIsStep(s: State, c: Setting, promoter: bool, height: nat, x: Sweep) returns (y: Sweep, top: nat)
    requires Tracks(s, c, promoter, height, x) && x.u.Starting?
    ensures Enabled(s, c, BoundStep(promoter, height))
    ensures Tracks(Apply(s, c, BoundStep(promoter, height)), c, promoter, height, y) && IsClean(y, c.n, top) && !y.u.Retired?
  {
    TrackedIsOk(s, c, promoter, height, x);
    StepKeepsInv(s, c, BoundStep(promoter, height));
    y, top := Sweep(s.levels, Descending(height, height, false)), height;
    BeginsClean(s.levels, c.key, c.n, height, height);
  }

  /** A round from its start. */
  lemma CleanRound(s: State, c: Setting, promoter: bool, height: nat, x: Sweep) returns (run: seq<Step>, y: Sweep)
    requires Tracks(s, c, promoter, height, x) && x.u.Starting?
    ensures IsRun(s, c, run) && IsLone(run, promoter)
    ensures Tracks(EndOf(s, c, run), c, promoter, height, y) && y.u.Retired?
  {
    var z, top := BeginIsStep(s, c, promoter, height, x);
    var step := BoundStep(promoter, height);
    run, y := Rounds(Apply(s, c, step), c, promoter, height, z, top, true);
    RunCons(s, c, step, run);
    run := [step] + run;
  }

  /** Wherever the thread stands, it retires the node. */
  lemma Retires(s: State, c: Setting, promoter: bool, height: nat, x: Sweep) returns (run: seq<Step>, y: Sweep)
    requires Tracks(s, c, promoter, height, x)
    ensures IsRun(s, c, run) && IsLone(run, promoter)
    ensures Tracks(EndOf(s, c, run), c, promoter, height, y) && y.u.Retired?
  {
    run, y := [], x;
    if HasLevel(x.u) {
      run, y := Rounds(s, c, promoter, height, x, 0, false);
    }
    if y.u.Starting? {
      var more;
      more, y := CleanRound(EndOf(s, c, run), c, promoter, height, y);
      RunOn(s, c, run, more);
      run := run + more;
    }
  }

  // ------------------------------------------------------------------
  // To the end
  // ------------------------------------------------------------------

  function StepsLeft(p: Promoter): nat {
    match p
    case Raising(_) => 9
    case ReadingPred(_) => 8
    case StoringNext(_, _) => 7
    case Publishing(_, _) => 6
    case Rechecking(_) => 5
    case LoadingNext(_) => 4
    case Undoing(_, _) => 3
    case Bounding => 2
    case Reverting => 1
    case _ => 0
  }

  lemma PromoteIsEnabled(s: State, c: Setting)
    requires Inv(s, c) && StepsLeft(s.prom) > 0
    ensures Enabled(s, c, Promote) && StepsLeft(Apply(s, c, Promote).prom) < StepsLeft(s.prom)
  {
    assert LevelOk(s.levels[c.h + 1], c, s.upset, c.h + 1);
    if s.prom.ReadingPred? {
      assert LeadsOn(s.levels[c.h + 1], s.prom.pred);
    }
  }

  /** A promotion that nobody disturbs comes to its end, wherever it stands: raised,
      given up, or taken back. */
  lemma {:induction false} PromotionEnds(s: State, c: Setting) returns (run: seq<Step>)
    requires Inv(s, c)
    ensures IsRun(s, c, run) && IsLone(run, true) && EndOf(s, c, run).prom.Done?
    decreases StepsLeft(s.prom)
  {
    run := [];
    if StepsLeft(s.prom) > 0 {
      PromoteIsEnabled(s, c);
      StepKeepsInv(s, c, Promote);
      run := PromotionEnds(Apply(s, c, Promote), c);
      RunCons(s, c, Promote, run);
      run := [Promote] + run;
    } else if s.prom.Again? {
      var y;
      run, y := Retires(s, c, true, s.prom.height, Sweep(s.levels, s.prom.unlink));
    }
  }

  function MarksLeft(r: Remover): nat {
    match r
    case ReadingHeight => MAX_HEIGHT + 2
    case Marking(i) => i + 2
    case ReadingBound => 1
    case Unlinking(_, _) => 0
  }

  lemma RemoveIsEnabled(s: State, c: Setting)
    requires Inv(s, c) && MarksLeft(s.rem) > 0
    ensures Enabled(s, c, Remove) && MarksLeft(Apply(s, c, Remove).rem) < MarksLeft(s.rem)
  {
  }

  /** A remove that nobody disturbs marks all levels and retires the node. */
  lemma {:induction false} RemoveEnds(s: State, c: Setting) returns (run: seq<Step>)
    requires Inv(s, c)
    ensures IsRun(s, c, run) && IsLone(run, false)
    ensures EndOf(s, c, run).rem.Unlinking? && EndOf(s, c, run).rem.unlink.Retired? && Removed(EndOf(s, c, run), c)
    decreases MarksLeft(s.rem)
  {
    if MarksLeft(s.rem) > 0 {
      RemoveIsEnabled(s, c);
      StepKeepsInv(s, c, Remove);
      run := RemoveEnds(Apply(s, c, Remove), c);
      RunCons(s, c, Remove, run);
      run := [Remove] + run;
    } else {
      var y;
      run, y := Retires(s, c, false, s.rem.height, Sweep(s.levels, s.rem.unlink));
    }
  }
}
