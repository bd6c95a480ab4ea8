/**
  The one write that can clear a mark, and what holds while it does not.

  Phase 6 of an insert tests its own slot and, if the slot is stale, stores the
  successor into it.  These are two accesses, and the store is a plain one: a
  mark that lands in between is erased.  In runs without such a store every
  level is a proper chain, not level 0 alone.
 */
module Erasure {
  import opened LevelChain
  import opened Removing
  import opened LockFree

  /** The store hits a slot that has been marked since it was tested. */
  predicate Erases(s: State, step: Step)
    requires |s.levels| == MAX_HEIGHT
  {
    && step.StoreSlot? && step.n in s.inserts && s.inserts[step.n].Storing? && s.inserts[step.n].level < MAX_HEIGHT
    && IsMarked(s, step.n, s.inserts[step.n].level)
  }

  /** Some mark of some node, linked there or not, is gone. */
  ghost predicate Clears(s: State, s': State)
    requires |s.levels| == |s'.levels| == MAX_HEIGHT
  {
    exists n, l :: 0 <= l < MAX_HEIGHT && IsMarked(s, n, l) && !IsMarked(s', n, l)
  }

  lemma MarkStays(s: State, nd: Nodes, step: Step, n: Node, l: nat)
    requires Inv(s, nd) && Enabled(s, nd, step) && l < MAX_HEIGHT && IsMarked(s, n, l) && !Erases(s, step)
    ensures IsMarked(Apply(s, nd, step), n, l)
  {
    var (i, w) := WriteOf(s, nd, step);
    WriteFits(s, nd, step);
    assert InsertOk(s, nd, n, l) && InsertOk(s, nd, n, 0);
    if l == i {
      if WritesOwn(w, n) {
        WriteOfOwn(s, nd, step);
      } else {
        WriteKeepsSlot(s.levels[i], w, n);
      }
    }
  }

  /** No other write to a node's own slot hits a mark. */
  lemma WriteOfOwn(s: State, nd: Nodes, step: Step)
    requires Inv(s, nd) && Enabled(s, nd, step)
    ensures var (i, w) := WriteOf(s, nd, step);
            (w.Put? || w.SetMark?) && IsMarked(s, w.n, i) ==> Erases(s, step)
  {
    if step.Fill? {
      assert InsertOk(s, nd, step.n, step.level) && InsertOk(s, nd, step.n, 0);
    }
  }

  /** A step clears a mark if and only if it is such a store. */
  lemma ClearsIff(s: State, nd: Nodes, step: Step)
    requires Inv(s, nd) && Enabled(s, nd, step)
    ensures Clears(s, Apply(s, nd, step)) <==> Erases(s, step)
  {
    var s' := Apply(s, nd, step);
    if Erases(s, step) {
      assert !IsMarked(s', step.n, s.inserts[step.n].level);
    } else {
      forall n, l | 0 <= l < MAX_HEIGHT && IsMarked(s, n, l)
        ensures IsMarked(s', n, l)
      {
        MarkStays(s, nd, step, n, l);
      }
    }
  }

  // ------------------------------------------------------------------
  // Marks from the top down
  // ------------------------------------------------------------------

  ghost predicate StandsAt(s: State, nd: Nodes, n: Node, l: nat)
    requires |s.levels| == MAX_HEIGHT && l < MAX_HEIGHT
  {
    n in s.passed && s.passed[n] <= l <= nd.height(n) ==> IsMarked(s, n, l)
  }

  /** Every level a remover has passed is still marked. */
  ghost predicate MarksStand(s: State, nd: Nodes)
    requires |s.levels| == MAX_HEIGHT
  {
    forall n, l :: 0 <= l < MAX_HEIGHT ==> StandsAt(s, nd, n, l)
  }

  /** A step leaves it so exactly if it erases no mark. */
  lemma StandsIff(s: State, nd: Nodes, step: Step)
    requires Inv(s, nd) && Enabled(s, nd, step) && MarksStand(s, nd)
    ensures MarksStand(Apply(s, nd, step), nd) <==> !Erases(s, step)
  {
    var s' := Apply(s, nd, step);
    if Erases(s, step) {
      var i := s.inserts[step.n].level;
      assert InsertOk(s, nd, step.n, 0) && PassedOk(s, nd, step.n, i);
      assert !StandsAt(s', nd, step.n, i);
    } else {
      forall n, l | 0 <= l < MAX_HEIGHT
        ensures StandsAt(s', nd, n, l)
      {
        assert StandsAt(s, nd, n, l);
        if IsMarked(s, n, l) {
          MarkStays(s, nd, step, n, l);
        }
      }
    }
  }

  ghost predicate NeverErases(nd: Nodes, run: seq<Step>, k: nat)
    requires IsRun(Init(), nd, run) && k <= |run|
  {
    forall i :: 0 <= i < k ==> !Erases(After(Init(), nd, run, i), run[i])
  }

  lemma NextStandsIff(nd: Nodes, run: seq<Step>, k: nat)
    requires IsRun(Init(), nd, run) && k < |run| && MarksStand(After(Init(), nd, run, k), nd)
    ensures MarksStand(After(Init(), nd, run, k + 1), nd) <==> !Erases(After(Init(), nd, run, k), run[k])
  {
    InitInv(nd);
    RunKeepsInv(Init(), nd, run, k);
    RunStep(Init(), nd, run, k);
    StandsIff(After(Init(), nd, run, k), nd, run[k]);
  }

  /** Over whole runs: the marks of all removers stand in every state if and only
      if no store ever hits a marked slot. */
  lemma {:induction false} RunKeepsMarksIff(nd: Nodes, run: seq<Step>, k: nat)
    requires IsRun(Init(), nd, run) && k <= |run|
    ensures (forall i :: 0 <= i <= k ==> MarksStand(After(Init(), nd, run, i), nd)) <==> NeverErases(nd, run, k)
    decreases k
  {
    InitInv(nd);
    if k > 0 {
      RunKeepsMarksIff(nd, run, k - 1);
      if NeverErases(nd, run, k - 1) {
        NextStandsIff(nd, run, k - 1);
      } else {
        var i :| 0 <= i <= k - 1 && !MarksStand(After(Init(), nd, run, i), nd);
        assert 0 <= i <= k;
      }
    }
  }

  // ------------------------------------------------------------------
  // Every level a chain
  // ------------------------------------------------------------------

  ghost predicate SwingKept(s: State, n: Node) {
    n in s.removals && s.removals[n].Swinging? ==> s.removals[n].link.marked
  }

  ghost predicate Kept(s: State, nd: Nodes) {
    && Inv(s, nd) && MarksStand(s, nd)
    && (forall l :: 0 <= l < MAX_HEIGHT ==> Valid(s.levels[l], nd.key))
    && (forall n :: SwingKept(s, n))
  }

  lemma StepKeepsKept(s: State, nd: Nodes, step: Step)
    requires Kept(s, nd) && Enabled(s, nd, step) && !Erases(s, step)
    ensures Kept(Apply(s, nd, step), nd)
  {
    var s' := Apply(s, nd, step);
    StepKeepsInv(s, nd, step);
    StandsIff(s, nd, step);
    forall l | 0 <= l < MAX_HEIGHT
      ensures Valid(s'.levels[l], nd.key)
    {
      StepKeepsChain(s, nd, step, l);
    }
    forall n
      ensures SwingKept(s', n)
    {
      StepKeepsSwing(s, nd, step, n);
    }
  }

  lemma StepKeepsChain(s: State, nd: Nodes, step: Step, l: nat)
    requires Kept(s, nd) && Enabled(s, nd, step) && l < MAX_HEIGHT
    ensures Valid(Apply(s, nd, step).levels[l], nd.key)
  {
    var (i, w) := WriteOf(s, nd, step);
    WriteFits(s, nd, step);
    if l == i {
      if step.Unlink? {
        assert SwingKept(s, step.n) && RemovalOk(s, nd, step.n);
      }
      WriteKeepsValid(s.levels[l], nd.key, w);
    }
  }

  /** A remover that meets its node finds it marked. */
  lemma MeetsMarked(s: State, nd: Nodes, n: Node)
    requires Kept(s, nd) && n in s.removals && s.removals[n].Walking? && s.removals[n].curr == n && s.removals[n].level < MAX_HEIGHT
    ensures Slot(s.levels[s.removals[n].level], n).marked
  {
    var i := s.removals[n].level;
    assert RemovalOk(s, nd, n) && InsertOk(s, nd, n, i) && PassedOk(s, nd, n, i) && StandsAt(s, nd, n, i);
  }

  lemma StepKeepsSwing(s: State, nd: Nodes, step: Step, n: Node)
    requires Kept(s, nd) && Enabled(s, nd, step)
    ensures SwingKept(Apply(s, nd, step), n)
  {
    assert SwingKept(s, n);
    if !ActsOn(step, n) {
      OthersKeepPhase(s, nd, step, n);
    } else if step.Unlink? {
      UnlinkKeepsSwing(s, nd, n);
    }
  }

  lemma UnlinkKeepsSwing(s: State, nd: Nodes, n: Node)
    requires Kept(s, nd) && Enabled(s, nd, Unlink(n))
    ensures SwingKept(Apply(s, nd, Unlink(n)), n)
  {
    if s.removals[n].Walking? && s.removals[n].curr == n {
      MeetsMarked(s, nd, n);
    }
  }

  /** In runs that erase no mark, every level is a chain throughout. */
  lemma {:induction false} RunKeepsKept(nd: Nodes, run: seq<Step>, k: nat)
    requires IsRun(Init(), nd, run) && k <= |run| && NeverErases(nd, run, k)
    ensures Kept(After(Init(), nd, run, k), nd)
    decreases k
  {
    InitInv(nd);
    if k == 0 {
      EmptyIsValid(nd.key);
    } else {
      RunKeepsKept(nd, run, k - 1);
      RunStep(Init(), nd, run, k - 1);
      StepKeepsKept(After(Init(), nd, run, k - 1), nd, run[k - 1]);
    }
  }

  /** The erasing store can come about, whatever the state: every insert about
      to store can be met by a remover marking its slot. */
  lemma {:induction false} MarkCanLandBeforeStore(s: State, nd: Nodes, n: Node, j: nat) returns (run: seq<Step>)
    requires Inv(s, nd) && n in s.inserts && s.inserts[n].Storing? && s.inserts[n].level <= j <= nd.height(n) < MAX_HEIGHT
    requires j == nd.height(n) || IsMarked(s, n, j + 1)
    requires forall x :: 0 <= x <= j < MAX_HEIGHT ==> !IsMarked(s, n, x)
    ensures IsRun(s, nd, run)
    ensures var t := After(s, nd, run, |run|);
            n in t.inserts && t.inserts[n] == s.inserts[n] && Erases(t, StoreSlot(n))
    decreases j
  {
    assert InsertOk(s, nd, n, 0) && InsertOk(s, nd, n, j);
    assert j < nd.height(n) ==> PassedOk(s, nd, n, j + 1);
    var step := Mark(n, j);
    assert !IsMarked(s, n, j);
    var t := Apply(s, nd, step);
    run := [step];
    if s.inserts[n].level < j {
      StepKeepsInv(s, nd, step);
      forall x | 0 <= x <= j - 1 < MAX_HEIGHT
        ensures !IsMarked(t, n, x)
      {
        assert !IsMarked(s, n, x);
      }
      assert IsMarked(t, n, j);
      run := MarkCanLandBeforeStore(t, nd, n, j - 1);
      assert ([step] + run)[1..] == run;
      run := [step] + run;
    } else {
      assert IsMarked(t, n, j);
      assert IsRun(t, nd, run[1..]);
      assert After(s, nd, run, 1) == t;
    }
  }
}
