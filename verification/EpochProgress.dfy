/**
  That reclamation gets on: when the epoch advances, and what is freed then.

  Safety alone is met by a reclamation that never frees anything.  Here a thread
  is followed that nobody disturbs: through a retirement and its attempt to
  advance the epoch, which succeeds exactly if all active threads are up to
  date, and on through the emptying of the old bucket.
 */
module EpochProgress {
  import opened Epochs

  /** The state after a run. */
  function EndOf(s: State, run: seq<Step>): State
    requires Shape(s) && IsRun(s, run)
  {
    After(s, run, |run|)
  }

  /** A run of thread `t` alone. */
  predicate IsSolo(s: State, run: seq<Step>, t: nat)
    requires Shape(s)
  {
    IsRun(s, run) && forall i :: 0 <= i < |run| ==> run[i].t == t
  }

  lemma {:induction false} RunOn(s: State, a: seq<Step>, b: seq<Step>)
    requires Shape(s) && IsRun(s, a) && IsRun(EndOf(s, a), b)
    ensures IsRun(s, a + b) && EndOf(s, a + b) == EndOf(EndOf(s, a), b)
    decreases |a|
  {
    if a == [] {
      assert a + b == b;
    } else {
      assert (a + b)[1..] == a[1..] + b;
      RunOn(Apply(s, a[0]), a[1..], b);
    }
  }

  lemma SoloOn(s: State, a: seq<Step>, b: seq<Step>, t: nat)
    requires Shape(s) && IsSolo(s, a, t) && IsSolo(EndOf(s, a), b, t)
    ensures IsSolo(s, a + b, t) && EndOf(s, a + b) == EndOf(EndOf(s, a), b)
  {
    RunOn(s, a, b);
  }

  lemma SoloStep(s: State, step: Step)
    requires Shape(s) && Enabled(s, step)
    ensures IsSolo(s, [step], step.t) && EndOf(s, [step]) == Apply(s, step)
  {
    assert [step][1..] == [];
    assert After(s, [step], 1) == After(Apply(s, step), [step][1..], 0);
  }

  /** The state with thread `t` at another place. */
  function At(s: State, t: nat, p: Phase): State
    requires Shape(s) && t < MAX_THREADS
  {
    s.(threads := s.threads[t := s.threads[t].(phase := p)])
  }

  // ------------------------------------------------------------------
  // The attempt to advance
  // ------------------------------------------------------------------

  predicate IsAdvancing(p: Phase) {
    p.Advancing? || p.Bounding? || p.Scanning? || p.Comparing? || p.Swinging?
  }

  /** The next step of an attempt; there is only one. */
  function AdvanceStep(t: nat, p: Phase): Step
    requires IsAdvancing(p)
  {
    match p
    case Advancing => LoadCurrent(t)
    case Bounding(_) => LoadCount(t)
    case Scanning(_, count, next) => if next < count then CheckActive(t) else Swing(t)
    case Comparing(_, _, _) => CheckLocal(t)
    case Swinging(_) => Swing(t)
  }

  lemma OnlyAdvanceStep(s: State, step: Step)
    requires Inv(s) && step.t < MAX_THREADS && IsAdvancing(s.threads[step.t].phase)
    ensures Enabled(s, step) <==> step == AdvanceStep(step.t, s.threads[step.t].phase)
  {
    assert ThreadOk(s, step.t);
  }

  /** The thread's slot does not stand against moving on from epoch `cur`. */
  predicate UpToDate(s: State, u: nat, cur: nat)
    requires Shape(s) && u < MAX_THREADS
  {
    s.threads[u].active ==> s.threads[u].local >= cur
  }

  /** All slots in use are up to date with the global epoch. */
  ghost predicate AllUpToDate(s: State)
    requires Shape(s)
  {
    forall u :: 0 <= u < s.count ==> UpToDate(s, u, s.epoch)
  }

  /** Those the attempt has still to look at. */
  ghost predicate RestUpToDate(s: State, p: Phase)
    requires Shape(s) && (p.Scanning? || p.Comparing? ==> p.count <= MAX_THREADS)
  {
    match p
    case Scanning(cur, count, next) => forall u :: next <= u < count ==> UpToDate(s, u, cur)
    case Comparing(cur, count, next) =>
      next < count && s.threads[next].local >= cur && forall u :: next < u < count ==> UpToDate(s, u, cur)
    case Swinging(_) => true
    case _ => AllUpToDate(s)
  }

  /** How an attempt of thread `t` ends that nobody disturbs. */
  ghost predicate Attempted(s: State, t: nat, success: bool, end: State)
    requires Shape(s) && t < MAX_THREADS
  {
    end == if success then At(s, t, Reclaiming(s.epoch + 1)).(epoch := s.epoch + 1, reclaimer := t) else At(s, t, Pinned)
  }

  /** Nobody has moved the epoch since the attempt loaded it. */
  predicate IsFresh(s: State, p: Phase) {
    (p.Bounding? || p.Scanning? || p.Comparing? || p.Swinging? ==> p.cur == s.epoch)
    && (p.Scanning? || p.Comparing? ==> p.count == s.count)
  }

  ghost function Left(s: State, p: Phase): nat {
    match p
    case Advancing => 2 * s.count + 5
    case Bounding(_) => 2 * s.count + 4
    case Scanning(_, count, next) => if next <= count then 2 * (count - next) + 2 else 2
    case Comparing(_, count, next) => if next <= count then 2 * (count - next) + 1 else 1
    case Swinging(_) => 1
    case _ => 0
  }

  /** Where a thread goes on, nothing else changes. */
  lemma LooksOn(s: State, step: Step)
    requires Shape(s) && Enabled(s, step)
    requires step.LoadCurrent? || step.LoadCount? || step.CheckActive? || step.CheckLocal?
    ensures Apply(s, step) == At(s, step.t, PhaseAfter(s, step))
  {
    var t := step.t;
    assert Apply(s, step).threads == s.threads[t := s.threads[t].(phase := PhaseAfter(s, step))];
  }

  /** One look: the attempt goes on, or gives up because a thread lags behind. */
  lemma AttemptStep(s: State, t: nat)
    requires Inv(s) && t < MAX_THREADS && IsAdvancing(s.threads[t].phase) && IsFresh(s, s.threads[t].phase)
    requires !AdvanceStep(t, s.threads[t].phase).Swing?
    ensures var p := s.threads[t].phase;
            && Enabled(s, AdvanceStep(t, p))
            && var p' := PhaseAfter(s, AdvanceStep(t, p));
               && (IsAdvancing(p') ==> IsFresh(s, p') && Left(s, p') < Left(s, p) && (RestUpToDate(s, p') <==> RestUpToDate(s, p)))
               && (!IsAdvancing(p') ==> p' == Pinned && !RestUpToDate(s, p))
  {
    assert ThreadOk(s, t);
    var p := s.threads[t].phase;
    if p.Scanning? {
      assert UpToDate(s, p.next, p.cur) <==> (s.threads[p.next].active ==> s.threads[p.next].local >= p.cur);
    }
  }

  lemma SwingSucceeds(s: State, t: nat)
    requires Inv(s) && t < MAX_THREADS && IsAdvancing(s.threads[t].phase) && IsFresh(s, s.threads[t].phase)
    requires AdvanceStep(t, s.threads[t].phase).Swing?
    ensures Enabled(s, Swing(t)) && Attempted(s, t, true, Apply(s, Swing(t))) && RestUpToDate(s, s.threads[t].phase)
  {
    assert ThreadOk(s, t);
    assert Apply(s, Swing(t)).threads == s.threads[t := s.threads[t].(phase := Reclaiming(s.epoch + 1))];
  }

  lemma AtAgain(s: State, t: nat, p: Phase, q: Phase)
    requires Shape(s) && t < MAX_THREADS
    ensures At(At(s, t, p), t, q) == At(s, t, q) && At(s, t, p).threads[t].phase == p
  {
  }

  /** The rest of an attempt. */
  lemma {:induction false} AttemptEnds(s: State, t: nat) returns (run: seq<Step>)
    requires Inv(s) && t < MAX_THREADS && IsAdvancing(s.threads[t].phase) && IsFresh(s, s.threads[t].phase)
    ensures IsSolo(s, run, t) && Attempted(s, t, RestUpToDate(s, s.threads[t].phase), EndOf(s, run))
    decreases Left(s, s.threads[t].phase)
  {
    var p := s.threads[t].phase;
    var step := AdvanceStep(t, p);
    run := [step];
    if step.Swing? {
      SwingSucceeds(s, t);
      SoloStep(s, step);
    } else {
      AttemptStep(s, t);
      LooksOn(s, step);
      SoloStep(s, step);
      var s', p' := Apply(s, step), PhaseAfter(s, step);
      if IsAdvancing(p') {
        StepKeepsInv(s, step);
        SameRest(s, t, p');
        var rest := AttemptEnds(s', t);
        SoloOn(s, [step], rest, t);
        run := [step] + rest;
        SameEnd(s, t, p', RestUpToDate(s, p'), EndOf(s, run));
      }
    }
  }

  lemma SameEnd(s: State, t: nat, p: Phase, success: bool, end: State)
    requires Shape(s) && t < MAX_THREADS && Attempted(At(s, t, p), t, success, end)
    ensures Attempted(s, t, success, end)
  {
    AtAgain(s, t, p, Reclaiming(s.epoch + 1));
    AtAgain(s, t, p, Pinned);
  }

  /** The thread's own place does not matter to that. */
  lemma SameRest(s: State, t: nat, p: Phase)
    requires Inv(s) && t < MAX_THREADS && (p.Scanning? || p.Comparing? ==> p.count <= MAX_THREADS)
    ensures RestUpToDate(At(s, t, p), p) <==> RestUpToDate(s, p)
    ensures Left(At(s, t, p), p) == Left(s, p) && (IsFresh(At(s, t, p), p) <==> IsFresh(s, p))
  {
    forall u, cur | 0 <= u < MAX_THREADS
      ensures UpToDate(At(s, t, p), u, cur) <==> UpToDate(s, u, cur)
    {
    }
  }

  /** A thread that has just pushed a retired node, and is not disturbed, advances
      the epoch by one if and only if all slots in use are up to date; otherwise
      it gives up and changes nothing. */
  lemma AdvancesIff(s: State, t: nat) returns (run: seq<Step>)
    requires Inv(s) && t < MAX_THREADS && s.threads[t].phase.Advancing?
    ensures IsSolo(s, run, t)
    ensures EndOf(s, run).epoch == s.epoch + 1 <==> AllUpToDate(s)
    ensures EndOf(s, run).threads[t].phase == if AllUpToDate(s) then Reclaiming(s.epoch + 1) else Pinned
  {
    run := AttemptEnds(s, t);
  }

  // ------------------------------------------------------------------
  // The emptying of the old bucket
  // ------------------------------------------------------------------

  /** The nodes waiting in the bucket of epoch `e`. */
  ghost predicate Waiting(s: State, n: Node, e: nat) {
    n in s.stage && s.stage[n] == Bucketed(e)
  }

  /** What freeing a set of nodes does. */
  ghost predicate FreesExactly(s: State, t: nat, nodes: set<Node>, end: State)
    requires Shape(s) && t < MAX_THREADS
  {
    && Shape(end) && end.threads == At(s, t, Pinned).threads && end.epoch == s.epoch && end.count == s.count
    && end.buckets == s.buckets && end.reclaimer == s.reclaimer
    && end.frees == s.frees + multiset(nodes)
    && end.stage.Keys == s.stage.Keys + nodes
    && (forall n <- end.stage.Keys :: if n in nodes then end.stage[n] == Freed else n in s.stage && end.stage[n] == s.stage[n])
  }

  lemma FreeOne(s: State, t: nat, n: Node)
    requires Inv(s) && t < MAX_THREADS && s.threads[t].phase.Freeing? && n in s.threads[t].phase.nodes
    ensures Enabled(s, Free(t, n))
    ensures var s' := Apply(s, Free(t, n));
            && s'.threads == At(s, t, Freeing(s.threads[t].phase.nodes - {n})).threads && s'.epoch == s.epoch && s'.count == s.count
            && s'.buckets == s.buckets && s'.reclaimer == s.reclaimer
            && s'.frees == s.frees + multiset{n} && s'.stage == s.stage[n := Freed]
  {
    var p := Freeing(s.threads[t].phase.nodes - {n});
    assert Apply(s, Free(t, n)).threads == s.threads[t := s.threads[t].(phase := p)];
  }

  lemma FinishOne(s: State, t: nat)
    requires Inv(s) && t < MAX_THREADS && s.threads[t].phase == Freeing({})
    ensures Enabled(s, FinishFree(t)) && Apply(s, FinishFree(t)) == At(s, t, Pinned)
  {
    assert Apply(s, FinishFree(t)).threads == s.threads[t := s.threads[t].(phase := Pinned)];
  }

  lemma SomeNode(nodes: set<Node>)
    ensures nodes == {} || exists n :: n in nodes
  {
    if forall n :: n !in nodes {
      assert nodes == {};
    }
  }

  /** A thread that nobody disturbs frees the nodes it has detached, each once. */
  lemma {:induction false} FreesAll(s: State, t: nat) returns (run: seq<Step>)
    requires Inv(s) && t < MAX_THREADS && s.threads[t].phase.Freeing?
    ensures IsSolo(s, run, t) && FreesExactly(s, t, s.threads[t].phase.nodes, EndOf(s, run))
    decreases s.threads[t].phase.nodes
  {
    var nodes := s.threads[t].phase.nodes;
    SomeNode(nodes);
    if nodes == {} {
      FinishOne(s, t);
      SoloStep(s, FinishFree(t));
      run := [FinishFree(t)];
    } else {
      var n :| n in nodes;
      FreeOne(s, t, n);
      var s' := Apply(s, Free(t, n));
      StepKeepsInv(s, Free(t, n));
      SoloStep(s, Free(t, n));
      var rest := FreesAll(s', t);
      SoloOn(s, [Free(t, n)], rest, t);
      run := [Free(t, n)] + rest;
      OneAndRest(s, t, n, nodes, s', EndOf(s, run));
    }
  }

  lemma OneAndRest(s: State, t: nat, n: Node, nodes: set<Node>, s': State, end: State)
    requires Shape(s) && Shape(s') && t < MAX_THREADS && n in nodes
    requires s'.threads == At(s, t, Freeing(nodes - {n})).threads && s'.epoch == s.epoch && s'.count == s.count
    requires s'.buckets == s.buckets && s'.reclaimer == s.reclaimer
    requires s'.frees == s.frees + multiset{n} && s'.stage == s.stage[n := Freed]
    requires FreesExactly(s', t, nodes - {n}, end)
    ensures FreesExactly(s, t, nodes, end)
  {
    assert multiset(nodes) == multiset{n} + multiset(nodes - {n});
    assert At(s', t, Pinned).threads == At(s, t, Pinned).threads;
  }

  /** What the thread that moved the epoch to `e` does, if nobody disturbs it: it
      frees exactly the nodes that were retired two epochs ago, each once. */
  ghost predicate Reclaimed(s: State, t: nat, e: nat, end: State)
    requires Shape(s) && t < MAX_THREADS && e >= 2
  {
    && Inv(end) && end.threads == At(s, t, Pinned).threads && end.epoch == s.epoch && end.count == s.count && end.reclaimer == MAX_THREADS
    && end.stage.Keys == s.stage.Keys
    && (forall n <- s.stage.Keys :: end.stage[n] == if s.stage[n] == Bucketed(e - 2) then Freed else s.stage[n])
    && (forall n :: end.frees[n] == s.frees[n] + if Waiting(s, n, e - 2) then 1 else 0)
  }

  /** The bucket of an epoch holds just its nodes when that is due to be emptied. */
  lemma DueBucket(s: State, n: Node)
    requires Inv(s) && s.epoch >= 2
    ensures n in s.buckets[(s.epoch - 2) % 3] <==> Waiting(s, n, s.epoch - 2)
  {
    assert NodeOk(s, n);
  }

  lemma DetachOne(s: State, t: nat)
    requires Inv(s) && t < MAX_THREADS && s.threads[t].phase.Reclaiming? && s.epoch >= 2
    ensures Enabled(s, Detach(t))
    ensures var s', nodes := Apply(s, Detach(t)), s.buckets[(s.epoch - 2) % 3];
            && s'.threads == At(s, t, Freeing(nodes)).threads && s'.epoch == s.epoch && s'.count == s.count
            && s'.reclaimer == MAX_THREADS && s'.frees == s.frees && s'.stage.Keys == s.stage.Keys
            && (forall n <- s.stage.Keys :: s'.stage[n] == if n in nodes then Detached(t) else s.stage[n])
  {
    assert ThreadOk(s, t);
    var nodes := s.buckets[(s.epoch - 2) % 3];
    assert Apply(s, Detach(t)).threads == s.threads[t := s.threads[t].(phase := Freeing(nodes))];
  }

  /** Detach, free each, and be done. */
  lemma Reclaims(s: State, t: nat) returns (run: seq<Step>)
    requires Inv(s) && t < MAX_THREADS && s.threads[t].phase.Reclaiming? && s.epoch >= 2
    ensures IsSolo(s, run, t) && Reclaimed(s, t, s.epoch, EndOf(s, run))
  {
    var s', nodes := Apply(s, Detach(t)), s.buckets[(s.epoch - 2) % 3];
    DetachOne(s, t);
    StepKeepsInv(s, Detach(t));
    SoloStep(s, Detach(t));
    var rest := FreesAll(s', t);
    SoloOn(s, [Detach(t)], rest, t);
    run := [Detach(t)] + rest;
    RunKeepsInv(s, run, |run|);
    AllReclaimed(s, t, s', nodes, EndOf(s, run));
  }

  lemma AllReclaimed(s: State, t: nat, s': State, nodes: set<Node>, end: State)
    requires Inv(s) && Shape(s') && Inv(end) && t < MAX_THREADS && s.epoch >= 2 && nodes == s.buckets[(s.epoch - 2) % 3]
    requires s'.threads == At(s, t, Freeing(nodes)).threads && s'.epoch == s.epoch && s'.count == s.count
    requires s'.reclaimer == MAX_THREADS && s'.frees == s.frees && s'.stage.Keys == s.stage.Keys
    requires forall n <- s.stage.Keys :: s'.stage[n] == if n in nodes then Detached(t) else s.stage[n]
    requires FreesExactly(s', t, nodes, end)
    ensures Reclaimed(s, t, s.epoch, end)
  {
    assert At(s', t, Pinned).threads == At(s, t, Pinned).threads;
    forall n
      ensures n in nodes <==> Waiting(s, n, s.epoch - 2)
    {
      DueBucket(s, n);
    }
    assert forall n <- nodes :: n in s.stage.Keys;
    assert end.stage.Keys == s.stage.Keys;
  }

  // ------------------------------------------------------------------
  // Rounds of a thread that is alone
  // ------------------------------------------------------------------

  /** A registered thread outside its section, all others inactive, and nobody owes
      a reclaim. */
  ghost predicate Lone(s: State, t: nat) {
    && Inv(s) && t < MAX_THREADS && s.threads[t].phase.Idle? && s.epoch >= 1 && s.reclaimer == MAX_THREADS
    && forall u :: 0 <= u < MAX_THREADS && u != t ==> !s.threads[u].active
  }

  /** A thread that registers first is one. */
  lemma RegistersAlone() returns (run: seq<Step>)
    ensures IsSolo(Init(), run, 0) && Lone(EndOf(Init(), run), 0)
  {
    InitInv();
    var a, b, c, d := Claim(0), ClearLocal(0), ClearActive(0), RaiseCount(0);
    var s1 := Registers(Init(), a);
    var s2 := Registers(s1, b);
    SoloOn(Init(), [a], [b], 0);
    var s3 := Registers(s2, c);
    SoloOn(Init(), [a] + [b], [c], 0);
    var s4 := Registers(s3, d);
    SoloOn(Init(), [a] + [b] + [c], [d], 0);
    run := [a] + [b] + [c] + [d];
  }

  lemma Registers(s: State, step: Step) returns (s': State)
    requires Inv(s) && Enabled(s, step)
    ensures s' == Apply(s, step) && Inv(s') && IsSolo(s, [step], step.t) && EndOf(s, [step]) == s'
  {
    s' := Apply(s, step);
    StepKeepsInv(s, step);
    SoloStep(s, step);
  }

  /** A step that concerns nobody but thread `t`, which is then at `p`. */
  ghost predicate Private(s: State, t: nat, p: Phase, stage: map<Node, Stage>, s': State)
    requires Shape(s) && t < MAX_THREADS
  {
    && Inv(s') && s'.epoch == s.epoch && s'.count == s.count && s'.frees == s.frees && s'.reclaimer == s.reclaimer
    && s'.stage == stage && s'.threads[t].phase == p
    && forall u :: 0 <= u < MAX_THREADS && u != t ==> s'.threads[u].active == s.threads[u].active
  }

  /** It enters a section; its slot shows the epoch then. */
  lemma Pins(s: State, t: nat) returns (run: seq<Step>)
    requires Lone(s, t)
    ensures IsSolo(s, run, t) && Private(s, t, Pinned, s.stage, EndOf(s, run)) && EndOf(s, run).threads[t].local == s.epoch
  {
    var a, b, c := Announce(t), LoadEpoch(t), Publish(t);
    StepKeepsInv(s, a);
    SoloStep(s, a);
    var s1 := Apply(s, a);
    StepKeepsInv(s1, b);
    SoloStep(s1, b);
    SoloOn(s, [a], [b], t);
    var s2 := Apply(s1, b);
    StepKeepsInv(s2, c);
    SoloStep(s2, c);
    SoloOn(s, [a] + [b], [c], t);
    run := [a] + [b] + [c];
  }

  /** It unlinks a node and retires it, up to the push. */
  lemma Retires(s: State, t: nat, m: Node) returns (run: seq<Step>)
    requires Inv(s) && t < MAX_THREADS && s.threads[t].phase.Pinned? && m !in s.stage
    ensures IsSolo(s, run, t) && Private(s, t, Pushing(m, s.epoch), s.stage[m := Held(t, s.epoch)], EndOf(s, run))
    ensures EndOf(s, run).threads[t].local == s.threads[t].local
  {
    var a, b := Unlink(t, m), Retire(t, m);
    UnlinksOne(s, t, m);
    var s1 := Apply(s, a);
    StepKeepsInv(s1, b);
    SoloStep(s1, b);
    SoloOn(s, [a], [b], t);
    var s2 := Apply(s1, b);
    LoadsEpoch(s2, t, m);
    SoloOn(s, [a] + [b], [LoadRetireEpoch(t)], t);
    run := [a] + [b] + [LoadRetireEpoch(t)];
  }

  lemma UnlinksOne(s: State, t: nat, m: Node)
    requires Inv(s) && t < MAX_THREADS && s.threads[t].phase.Pinned? && m !in s.stage
    ensures Enabled(s, Unlink(t, m)) && IsSolo(s, [Unlink(t, m)], t) && EndOf(s, [Unlink(t, m)]) == Apply(s, Unlink(t, m))
    ensures var s' := Apply(s, Unlink(t, m));
            Private(s, t, Pinned, s.stage[m := Unlinked], s') && s'.threads[t].local == s.threads[t].local
  {
    StepKeepsInv(s, Unlink(t, m));
    SoloStep(s, Unlink(t, m));
  }

  lemma LoadsEpoch(s: State, t: nat, m: Node)
    requires Inv(s) && t < MAX_THREADS && s.threads[t].phase == Retiring(m) && m in s.stage && s.stage[m].Unlinked?
    ensures var step := LoadRetireEpoch(t);
            && Enabled(s, step) && IsSolo(s, [step], t)
            && Private(s, t, Pushing(m, s.epoch), s.stage[m := Held(t, s.epoch)], EndOf(s, [step]))
            && EndOf(s, [step]).threads[t].local == s.threads[t].local
  {
    StepKeepsInv(s, LoadRetireEpoch(t));
    SoloStep(s, LoadRetireEpoch(t));
  }

  lemma Pushes(s: State, t: nat, m: Node)
    requires Inv(s) && t < MAX_THREADS && s.threads[t].phase == Pushing(m, s.epoch)
    ensures IsSolo(s, [Push(t)], t) && Private(s, t, Advancing, s.stage[m := Bucketed(s.epoch)], EndOf(s, [Push(t)]))
    ensures EndOf(s, [Push(t)]).threads[t].local == s.threads[t].local
  {
    StepKeepsInv(s, Push(t));
    SoloStep(s, Push(t));
  }

  /** A push concerns no older bucket. */
  lemma SameWaiting(s: State, s': State, e: nat)
    requires forall n <- s.stage.Keys :: s.stage[n] == Bucketed(e) ==> n in s'.stage && s'.stage[n] == s.stage[n]
    requires forall n <- s'.stage.Keys :: s'.stage[n] == Bucketed(e) ==> n in s.stage && s.stage[n] == s'.stage[n]
    ensures forall n: Node :: Waiting(s', n, e) == Waiting(s, n, e)
  {
  }

  lemma Unpins(s: State, t: nat)
    requires Inv(s) && t < MAX_THREADS && s.threads[t].phase.Pinned?
    ensures IsSolo(s, [Unpin(t)], t) && Private(s, t, Idle, s.stage, EndOf(s, [Unpin(t)]))
  {
    StepKeepsInv(s, Unpin(t));
    SoloStep(s, Unpin(t));
  }

  /** One round of a thread that is alone: it enters its section, unlinks and
      retires a node, advances the epoch, frees what was due, and leaves. */
  ghost predicate RoundDone(s: State, t: nat, m: Node, end: State)
    requires s.epoch >= 1
  {
    && Lone(end, t) && end.epoch == s.epoch + 1
    && end.stage.Keys == s.stage.Keys + {m} && end.stage[m] == Bucketed(s.epoch)
    && (forall n <- s.stage.Keys :: end.stage[n] == if s.stage[n] == Bucketed(s.epoch - 1) then Freed else s.stage[n])
    && (forall n :: end.frees[n] == s.frees[n] + if Waiting(s, n, s.epoch - 1) then 1 else 0)
  }

  /** The first half, up to the push ... */
  lemma HalfRound(s: State, t: nat, m: Node) returns (run: seq<Step>)
    requires Lone(s, t) && m !in s.stage
    ensures IsSolo(s, run, t) && Private(s, t, Advancing, s.stage[m := Bucketed(s.epoch)], EndOf(s, run))
    ensures EndOf(s, run).threads[t].local == s.epoch
  {
    var a := Pins(s, t);
    var s1 := EndOf(s, a);
    var b := Retires(s1, t, m);
    SoloOn(s, a, b, t);
    var s2 := EndOf(s1, b);
    Pushes(s2, t, m);
    SoloOn(s, a + b, [Push(t)], t);
    run := a + b + [Push(t)];
    assert s.stage[m := Held(t, s.epoch)][m := Bucketed(s.epoch)] == s.stage[m := Bucketed(s.epoch)];
  }

  /** The old bucket of `s` has been emptied when its epoch has moved on. */
  ghost predicate Emptying(s: State, t: nat, end: State)
    requires Shape(s) && Shape(end) && t < MAX_THREADS && s.epoch >= 1
  {
    && end.epoch == s.epoch + 1 && end.reclaimer == MAX_THREADS
    && (forall u :: 0 <= u < MAX_THREADS && u != t ==> end.threads[u].active == s.threads[u].active)
    && end.stage.Keys == s.stage.Keys
    && (forall n <- s.stage.Keys :: end.stage[n] == if s.stage[n] == Bucketed(s.epoch - 1) then Freed else s.stage[n])
    && (forall n :: end.frees[n] == s.frees[n] + if Waiting(s, n, s.epoch - 1) then 1 else 0)
  }

  lemma EmptiesAfter(s: State, t: nat, s1: State, s2: State)
    requires Shape(s) && Shape(s1) && t < MAX_THREADS && s.epoch >= 1 && Attempted(s, t, true, s1) && Reclaimed(s1, t, s1.epoch, s2)
    ensures Emptying(s, t, s2)
  {
    assert s1.stage == s.stage;
    SameWaiting(s, s1, s.epoch - 1);
  }

  /** ... and the second. */
  lemma OtherHalf(s: State, t: nat) returns (run: seq<Step>)
    requires Inv(s) && t < MAX_THREADS && s.threads[t].phase.Advancing? && AllUpToDate(s) && s.epoch >= 1
    ensures IsSolo(s, run, t) && Inv(EndOf(s, run)) && EndOf(s, run).threads[t].phase.Idle? && Emptying(s, t, EndOf(s, run))
  {
    var a := AttemptEnds(s, t);
    RunKeepsInv(s, a, |a|);
    var s1 := EndOf(s, a);
    var b := Reclaims(s1, t);
    SoloOn(s, a, b, t);
    var s2 := EndOf(s1, b);
    EmptiesAfter(s, t, s1, s2);
    Unpins(s2, t);
    SoloOn(s, a + b, [Unpin(t)], t);
    run := a + b + [Unpin(t)];
    SameWaiting(s2, EndOf(s2, [Unpin(t)]), s.epoch - 1);
  }

  lemma RoundIs(s: State, t: nat, m: Node, s1: State, end: State)
    requires Lone(s, t) && m !in s.stage && Private(s, t, Advancing, s.stage[m := Bucketed(s.epoch)], s1)
    requires Inv(end) && end.threads[t].phase.Idle? && Emptying(s1, t, end)
    ensures RoundDone(s, t, m, end)
  {
    SameWaiting(s, s1, s.epoch - 1);
  }

  lemma Round(s: State, t: nat, m: Node) returns (run: seq<Step>)
    requires Lone(s, t) && m !in s.stage
    ensures IsSolo(s, run, t) && RoundDone(s, t, m, EndOf(s, run))
  {
    var a := HalfRound(s, t, m);
    var s1 := EndOf(s, a);
    forall u | 0 <= u < s1.count
      ensures UpToDate(s1, u, s1.epoch)
    {
      assert u != t ==> !s.threads[u].active;
    }
    var b := OtherHalf(s1, t);
    SoloOn(s, a, b, t);
    run := a + b;
    RoundIs(s, t, m, s1, EndOf(s1, b));
  }

  /** A node retired in one round is freed in the next, once; so no more than the
      nodes of the last two rounds ever wait. */
  lemma FreedInTwoRounds(s: State, t: nat, n: Node, m: Node) returns (run: seq<Step>)
    requires Lone(s, t) && n !in s.stage && m !in s.stage && n != m
    ensures IsSolo(s, run, t)
    ensures var end := EndOf(s, run);
            && Lone(end, t) && n in end.stage && end.stage[n] == Freed && end.frees[n] == 1
            && forall x <- end.stage.Keys :: end.stage[x].Bucketed? ==> end.stage[x].epoch >= s.epoch + 1
  {
    var a := Round(s, t, n);
    var s1 := EndOf(s, a);
    var b := Round(s1, t, m);
    SoloOn(s, a, b, t);
    run := a + b;
    var end := EndOf(s1, b);
    assert NodeOk(end, n);
    forall x | x in end.stage.Keys && end.stage[x].Bucketed?
      ensures end.stage[x].epoch >= s.epoch + 1
    {
      assert NodeOk(end, x);
    }
  }

  // ------------------------------------------------------------------
  // Among other threads
  // ------------------------------------------------------------------

  /** What has been taken from a bucket is in the hands of the thread that frees
      it. */
  ghost predicate InHand(s: State, n: Node)
    requires Shape(s)
  {
    n in s.stage && s.stage[n].Detached? ==>
      var t := s.stage[n].thread;
      t < MAX_THREADS && s.threads[t].phase.Freeing? && n in s.threads[t].phase.nodes
  }

  lemma StepKeepsInHand(s: State, step: Step, n: Node)
    requires Shape(s) && Enabled(s, step) && ThreadOk(s, step.t) && NodeOk(s, n) && InHand(s, n)
    ensures InHand(Apply(s, step), n)
  {
  }

  lemma {:induction false} RunKeepsInHand(s: State, run: seq<Step>, k: nat, n: Node)
    requires Inv(s) && IsRun(s, run) && k <= |run| && InHand(s, n)
    ensures InHand(After(s, run, k), n)
    decreases k
  {
    if k > 0 {
      StepKeepsInv(s, run[0]);
      assert ThreadOk(s, run[0].t) && NodeOk(s, n);
      StepKeepsInHand(s, run[0], n);
      RunKeepsInHand(Apply(s, run[0]), run[1..], k - 1, n);
    }
  }

  /** On its way from a bucket to being freed. */
  ghost predicate OnItsWay(s: State, n: Node, e: nat) {
    n in s.stage && (s.stage[n] == Bucketed(e) || s.stage[n].Detached? || s.stage[n].Freed?)
  }

  lemma StepKeepsOnItsWay(s: State, step: Step, n: Node, e: nat)
    requires Shape(s) && Enabled(s, step) && ThreadOk(s, step.t) && NodeOk(s, n) && OnItsWay(s, n, e)
    ensures OnItsWay(Apply(s, step), n, e)
  {
  }

  lemma {:induction false} RunKeepsOnItsWay(s: State, run: seq<Step>, i: nat, k: nat, n: Node, e: nat)
    requires Inv(s) && IsRun(s, run) && i <= k <= |run| && OnItsWay(After(s, run, i), n, e)
    ensures OnItsWay(After(s, run, k), n, e)
    decreases k
  {
    if i < k {
      RunKeepsOnItsWay(s, run, i, k - 1, n, e);
      RunKeepsInv(s, run, k - 1);
      RunStep(s, run, k - 1);
      assert ThreadOk(After(s, run, k - 1), run[k - 1].t) && NodeOk(After(s, run, k - 1), n);
      StepKeepsOnItsWay(After(s, run, k - 1), run[k - 1], n, e);
    }
  }

  /** In every run: once the epoch has moved two on from that of a push, and the
      thread that moved it has emptied the bucket, the node is freed -- or in the
      hands of that thread, which cannot end without freeing it. */
  lemma PushedIsFreed(run: seq<Step>, i: nat, k: nat, n: Node, e: nat)
    requires IsRun(Init(), run) && i <= k <= |run| && Waiting(After(Init(), run, i), n, e)
    requires var s := After(Init(), run, k); s.epoch > e + 2 || (s.epoch == e + 2 && s.reclaimer == MAX_THREADS)
    ensures var s := After(Init(), run, k);
            && n in s.stage
            && ((s.stage[n] == Freed && s.frees[n] == 1)
                || (s.stage[n].Detached? && s.stage[n].thread < MAX_THREADS
                    && s.threads[s.stage[n].thread].phase.Freeing? && n in s.threads[s.stage[n].thread].phase.nodes))
  {
    var s := After(Init(), run, k);
    InitInv();
    RunKeepsInv(Init(), run, k);
    RunKeepsOnItsWay(Init(), run, i, k, n, e);
    RunKeepsInHand(Init(), run, k, n);
    assert NodeOk(s, n);
  }
}
