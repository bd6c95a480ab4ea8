/**
  Epoch-based reclamation as a step system: pins, retirements, epoch advances
  and frees by any number of threads, one access to shared memory per step.

  Pinning is three steps (announce, load the global epoch, publish it), an
  advance reads a thread's flag and its epoch in two steps, and the thread that
  moved the epoch empties the old bucket only some steps later.

  A thread gets hold of nodes it can reach, and, through nodes unlinked since it
  was pinned, of nodes unlinked since then themselves: `mayFind` has those.
  `pinned` (the epoch a thread loaded), `refs`, `stage` and `reclaimer` are
  auxiliary, too.
 */
module Epochs {

  const MAX_THREADS: nat := 128

  type Node = nat

  /** Where a thread stands. */
  datatype Phase =
    | Unregistered | Claimed | Clearing | Counting            // register
    | Idle
    | Announced | Loaded(epoch: nat)                          // pin
    | Pinned
    | Retiring(node: Node) | Pushing(node: Node, epoch: nat)  // retire
    | Advancing | Bounding(cur: nat)
    | Scanning(cur: nat, count: nat, next: nat) | Comparing(cur: nat, count: nat, next: nat) | Swinging(cur: nat)
    | Reclaiming(epoch: nat) | Freeing(nodes: set<Node>)

  /** A thread's slot in the shared state, and what it holds privately. */
  datatype Thread = Thread(
    inUse: bool,
    active: bool,
    local: nat,
    phase: Phase,
    pinned: nat,
    refs: set<Node>,
    mayFind: set<Node>)

  /** The life of a node. */
  datatype Stage = Unlinked | Held(thread: nat, epoch: nat) | Bucketed(epoch: nat) | Detached(thread: nat) | Freed

  datatype State = State(
    epoch: nat,
    threads: seq<Thread>,
    count: nat,
    buckets: seq<set<Node>>,
    frees: multiset<Node>,
    stage: map<Node, Stage>,   // absent: the node is reachable
    reclaimer: nat)            // the thread that owes a reclaim, or MAX_THREADS

  datatype Step =
    | Claim(t: nat) | ClearLocal(t: nat) | ClearActive(t: nat) | RaiseCount(t: nat)
    | Deactivate(t: nat) | Unregister(t: nat)
    | Announce(t: nat) | LoadEpoch(t: nat) | Publish(t: nat) | Unpin(t: nat)
    | Acquire(t: nat, n: Node) | Unlink(t: nat, n: Node)
    | Retire(t: nat, n: Node) | LoadRetireEpoch(t: nat) | RetireFails(t: nat) | Push(t: nat)
    | LoadCurrent(t: nat) | LoadCount(t: nat) | CheckActive(t: nat) | CheckLocal(t: nat) | Swing(t: nat)
    | Detach(t: nat) | Free(t: nat, n: Node) | FinishFree(t: nat)

  function Init(): State {
    State(1, seq(MAX_THREADS, _ => Thread(false, false, 0, Unregistered, 0, {}, {})), 0, [{}, {}, {}],
          multiset{}, map[], MAX_THREADS)
  }

  predicate Shape(s: State) {
    |s.threads| == MAX_THREADS && |s.buckets| == 3 && s.count <= MAX_THREADS
  }

  /** The thread is inside a critical section. */
  predicate InSection(p: Phase) {
    p.Pinned? || p.Retiring? || p.Pushing? || p.Advancing? || p.Bounding? || p.Scanning? || p.Comparing?
    || p.Swinging? || p.Reclaiming? || p.Freeing?
  }

  predicate Enabled(s: State, step: Step)
    requires Shape(s)
  {
    step.t < MAX_THREADS &&
    var p := s.threads[step.t].phase;
    match step
    case Claim(t) => p.Unregistered? && !s.threads[t].inUse
    case ClearLocal(_) => p.Claimed?
    case ClearActive(_) => p.Clearing?
    case RaiseCount(_) => p.Counting?
    case Deactivate(_) => p.Idle?
    case Unregister(t) => p.Idle? && !s.threads[t].active
    case Announce(_) => p.Idle?
    case LoadEpoch(_) => p.Announced?
    case Publish(_) => p.Loaded?
    case Unpin(_) => p.Pinned?
    case Acquire(t, n) => p.Pinned? && (n !in s.stage || n in s.threads[t].mayFind)
    case Unlink(_, n) => p.Pinned? && n !in s.stage
    case Retire(_, n) => p.Pinned? && n in s.stage && s.stage[n].Unlinked?
    case LoadRetireEpoch(_) => p.Retiring? && p.node in s.stage && s.stage[p.node].Unlinked?
    case RetireFails(_) => p.Pushing?
    case Push(_) => p.Pushing?
    case LoadCurrent(_) => p.Advancing?
    case LoadCount(_) => p.Bounding?
    case CheckActive(_) => p.Scanning? && p.next < p.count <= MAX_THREADS
    case CheckLocal(_) => p.Comparing? && p.next < p.count <= MAX_THREADS
    case Swing(_) => p.Swinging? || (p.Scanning? && p.next >= p.count)
    case Detach(_) => p.Reclaiming?
    case Free(_, n) => p.Freeing? && n in p.nodes
    case FinishFree(_) => p.Freeing? && p.nodes == {}
  }

  function AfterCheck(cur: nat, count: nat, next: nat): Phase {
    if next + 1 == count then Swinging(cur) else Scanning(cur, count, next + 1)
  }

  function PhaseAfter(s: State, step: Step): Phase
    requires Shape(s) && Enabled(s, step)
  {
    var p := s.threads[step.t].phase;
    match step
    case Claim(_) => Claimed
    case ClearLocal(_) => Clearing
    case ClearActive(_) => Counting
    case RaiseCount(_) => Idle
    case Unregister(_) => Unregistered
    case Announce(_) => Announced
    case LoadEpoch(_) => Loaded(s.epoch)
    case Publish(_) => Pinned
    case Unpin(_) => Idle
    case Retire(_, n) => Retiring(n)
    case LoadRetireEpoch(_) => Pushing(p.node, s.epoch)
    case RetireFails(_) => Pinned
    case Push(_) => Advancing
    case LoadCurrent(_) => Bounding(s.epoch)
    case LoadCount(_) => Scanning(p.cur, s.count, 0)
    case CheckActive(_) =>
      if s.threads[p.next].active then Comparing(p.cur, p.count, p.next) else AfterCheck(p.cur, p.count, p.next)
    case CheckLocal(_) => if s.threads[p.next].local < p.cur then Pinned else AfterCheck(p.cur, p.count, p.next)
    case Swing(_) => if s.epoch == p.cur then Reclaiming(p.cur + 1) else Pinned
    case Detach(_) => if p.epoch < 2 then Pinned else Freeing(s.buckets[(p.epoch - 2) % 3])
    case Free(_, n) => Freeing(p.nodes - {n})
    case FinishFree(_) => Pinned
    case _ => p
  }

  /** The slot and the private state of the thread that takes the step. */
  function OwnAfter(s: State, step: Step): Thread
    requires Shape(s) && Enabled(s, step)
  {
    var th := s.threads[step.t];
    Thread(if step.Claim? then true else if step.Unregister? then false else th.inUse,
           if step.Announce? then true else if step.ClearActive? || step.Deactivate? || step.Unpin? then false else th.active,
           if step.ClearLocal? then 0 else if step.Publish? then th.phase.epoch else th.local,
           PhaseAfter(s, step),
           if step.LoadEpoch? then s.epoch else th.pinned,
           if step.Acquire? then th.refs + {step.n} else if step.Unpin? then {} else th.refs,
           if step.Unpin? then {} else th.mayFind)
  }

  /** An unlinked node may still be found by the threads inside a section. */
  function Noticed(th: Thread, step: Step): Thread {
    if step.Unlink? && InSection(th.phase) then th.(mayFind := th.mayFind + {step.n}) else th
  }

  function ThreadsAfter(s: State, step: Step): (r: seq<Thread>)
    requires Shape(s) && Enabled(s, step)
    ensures |r| == |s.threads|
  {
    seq(|s.threads|, t requires 0 <= t < |s.threads| => Noticed(if t == step.t then OwnAfter(s, step) else s.threads[t], step))
  }

  predicate Advances(s: State, step: Step)
    requires Shape(s) && Enabled(s, step)
  {
    step.Swing? && s.epoch == s.threads[step.t].phase.cur
  }

  /** The bucket a step empties. */
  function Emptied(s: State, step: Step): set<Node>
    requires Shape(s) && Enabled(s, step)
  {
    if step.Detach? && s.threads[step.t].phase.epoch >= 2 then s.buckets[(s.threads[step.t].phase.epoch - 2) % 3] else {}
  }

  function BucketsAfter(s: State, step: Step): (r: seq<set<Node>>)
    requires Shape(s) && Enabled(s, step)
    ensures |r| == 3
  {
    var p := s.threads[step.t].phase;
    if step.Push? then s.buckets[p.epoch % 3 := s.buckets[p.epoch % 3] + {p.node}]
    else if step.Detach? && p.epoch >= 2 then s.buckets[(p.epoch - 2) % 3 := {}]
    else s.buckets
  }

  function StageAfter(s: State, step: Step): map<Node, Stage>
    requires Shape(s) && Enabled(s, step)
  {
    var p := s.threads[step.t].phase;
    match step
    case Unlink(_, n) => s.stage[n := Unlinked]
    case LoadRetireEpoch(t) => s.stage[p.node := Held(t, s.epoch)]
    case Push(_) => s.stage[p.node := Bucketed(p.epoch)]
    case Detach(t) => map n | n in s.stage :: if n in Emptied(s, step) then Detached(t) else s.stage[n]
    case Free(_, n) => s.stage[n := Freed]
    case _ => s.stage
  }

  function Apply(s: State, step: Step): (s': State)
    requires Shape(s) && Enabled(s, step)
    ensures Shape(s')
  {
    State(if Advances(s, step) then s.epoch + 1 else s.epoch,
          ThreadsAfter(s, step),
          if step.RaiseCount? && step.t + 1 > s.count then step.t + 1 else s.count,
          BucketsAfter(s, step),
          if step.Free? then s.frees + multiset{step.n} else s.frees,
          StageAfter(s, step),
          if Advances(s, step) then step.t else if step.Detach? then MAX_THREADS else s.reclaimer)
  }

  // ------------------------------------------------------------------
  // The invariant
  // ------------------------------------------------------------------

  /** The thread has loaded the epoch it runs under. */
  predicate HasEpoch(p: Phase) {
    p.Loaded? || InSection(p)
  }

  /** What a thread is pushing or freeing is still its own. */
  ghost predicate KeepsWork(stage: map<Node, Stage>, t: nat, p: Phase) {
    match p
    case Pushing(n, e) => n in stage && stage[n] == Held(t, e)
    case Freeing(nodes) => forall n <- nodes :: n in stage && stage[n] == Detached(t)
    case _ => true
  }

  ghost predicate ThreadOk(s: State, t: nat)
    requires Shape(s) && t < MAX_THREADS
  {
    var th := s.threads[t];
    var p := th.phase;
    && th.local <= s.epoch
    && (!p.Unregistered? && !p.Claimed? && !p.Clearing? && !p.Counting? ==> t < s.count)
    && (!InSection(p) ==> th.refs == {} && th.mayFind == {})
    // while a thread runs under an epoch, the global epoch is at most one ahead
    && (p.Announced? || HasEpoch(p) ==> th.active)
    && (HasEpoch(p) ==> th.local <= th.pinned <= s.epoch <= th.pinned + 1)
    && (p.Loaded? ==> p.epoch == th.pinned)
    && (InSection(p) ==> th.local == th.pinned)
    && (match p
        case Pushing(_, e) => th.pinned <= e <= s.epoch
        case Bounding(cur) => th.pinned <= cur <= s.epoch
        case Scanning(cur, count, next) => th.pinned <= cur <= s.epoch && next <= count <= s.count
        case Comparing(cur, count, next) => th.pinned <= cur <= s.epoch && next < count <= s.count
        case Swinging(cur) => th.pinned <= cur <= s.epoch
        case Reclaiming(e) => e == s.epoch == th.pinned + 1 && s.reclaimer == t
        case _ => true)
    && KeepsWork(s.stage, t, p)
  }

  /** `u` has been looked at by the scan of `t`, or is not going to be. */
  predicate Passed(p: Phase, u: nat) {
    p.Swinging? || ((p.Scanning? || p.Comparing?) && (u < p.next || u >= p.count))
  }

  ghost predicate ScanOk(s: State, t: nat, u: nat)
    requires Shape(s) && t < MAX_THREADS && u < MAX_THREADS
  {
    var p := s.threads[t].phase;
    Passed(p, u) && HasEpoch(s.threads[u].phase) ==> s.threads[u].pinned >= p.cur
  }

  ghost predicate FreedOnce(frees: multiset<Node>, stage: map<Node, Stage>, n: Node) {
    frees[n] == if n in stage && stage[n].Freed? then 1 else 0
  }

  ghost predicate InBuckets(buckets: seq<set<Node>>, stage: map<Node, Stage>, n: Node)
    requires |buckets| == 3
  {
    forall k :: 0 <= k < 3 ==> (n in buckets[k] <==> n in stage && stage[n].Bucketed? && stage[n].epoch % 3 == k)
  }

  /** A bucket waits at most two epochs, the second only for its reclaimer. */
  ghost predicate Waits(epoch: nat, reclaimer: nat, stage: map<Node, Stage>, n: Node) {
    && (n in stage && stage[n].Bucketed? ==>
          stage[n].epoch <= epoch <= stage[n].epoch + 2 && (epoch == stage[n].epoch + 2 ==> reclaimer < MAX_THREADS))
    && (n in stage && stage[n].Held? ==> stage[n].epoch <= epoch)
  }

  ghost predicate NodeOk(s: State, n: Node)
    requires Shape(s)
  {
    FreedOnce(s.frees, s.stage, n) && InBuckets(s.buckets, s.stage, n) && Waits(s.epoch, s.reclaimer, s.stage, n)
  }

  /** What may be held under an epoch: a reference outlives unlinking only under
      an epoch no later than the retirement's, and never outlives the free. */
  ghost predicate MayHold(stage: map<Node, Stage>, pinned: nat, n: Node) {
    n in stage ==>
      match stage[n]
      case Unlinked => true
      case Held(_, e) => pinned <= e
      case Bucketed(e) => pinned <= e
      case Detached(_) => false
      case Freed => false
  }

  ghost predicate RefOk(s: State, t: nat, n: Node)
    requires Shape(s) && t < MAX_THREADS
  {
    n in s.threads[t].refs || n in s.threads[t].mayFind ==> MayHold(s.stage, s.threads[t].pinned, n)
  }

  ghost predicate ReclaimerOk(s: State)
    requires Shape(s)
  {
    s.reclaimer <= MAX_THREADS && (s.reclaimer < MAX_THREADS ==> s.threads[s.reclaimer].phase.Reclaiming?)
  }

  ghost predicate Inv(s: State) {
    && Shape(s)
    && ReclaimerOk(s)
    && (forall t :: 0 <= t < MAX_THREADS ==> ThreadOk(s, t))
    && (forall t, u :: 0 <= t < MAX_THREADS && 0 <= u < MAX_THREADS ==> ScanOk(s, t, u))
    && (forall n :: NodeOk(s, n))
    && (forall t, n :: 0 <= t < MAX_THREADS ==> RefOk(s, t, n))
  }

  lemma InitInv()
    ensures Inv(Init())
  {
  }

  /** An advance succeeds only when nobody owes a reclaim. */
  lemma SwingFindsNoReclaimer(s: State, step: Step)
    requires Inv(s) && Enabled(s, step) && step.Swing? && s.epoch == s.threads[step.t].phase.cur
    ensures s.reclaimer == MAX_THREADS
  {
    var r := if s.reclaimer < MAX_THREADS then s.reclaimer else step.t;
    assert ThreadOk(s, r) && ThreadOk(s, step.t) && ScanOk(s, step.t, r);
  }

  // ------------------------------------------------------------------
  // Threads
  // ------------------------------------------------------------------

  /** The nodes a thread is pushing or freeing are out of the others' hands. */
  lemma OthersKeepStages(s: State, step: Step, t: nat, n: Node)
    requires Shape(s) && Enabled(s, step) && ThreadOk(s, step.t) && NodeOk(s, n) && t < MAX_THREADS && t != step.t && n in s.stage
    requires s.stage[n].Detached? || s.stage[n].Held?
    requires s.stage[n].thread == t
    ensures n in StageAfter(s, step) && StageAfter(s, step)[n] == s.stage[n]
  {
  }

  /** No step of another thread moves the epoch too far for `t`. */
  lemma OthersKeepClock(s: State, step: Step, t: nat)
    requires Inv(s) && Enabled(s, step) && t < MAX_THREADS && t != step.t
    ensures var s' := Apply(s, step);
            && s.epoch <= s'.epoch && s.count <= s'.count
            && (HasEpoch(s.threads[t].phase) ==> s'.epoch <= s.threads[t].pinned + 1)
            && (s.threads[t].phase.Reclaiming? ==> s'.epoch == s.epoch && s'.reclaimer == s.reclaimer)
  {
    assert ThreadOk(s, t) && ThreadOk(s, step.t) && ScanOk(s, step.t, t);
    if step.Swing? && s.epoch == s.threads[step.t].phase.cur {
      SwingFindsNoReclaimer(s, step);
    }
  }

  /** A thread between steps of its own stays all right. */
  lemma ThreadCarries(s: State, s': State, t: nat)
    requires Shape(s) && Shape(s') && t < MAX_THREADS && ThreadOk(s, t)
    requires s'.threads[t] == s.threads[t].(mayFind := s'.threads[t].mayFind)
    requires !InSection(s.threads[t].phase) ==> s'.threads[t].mayFind == s.threads[t].mayFind
    requires s.epoch <= s'.epoch && s.count <= s'.count && (HasEpoch(s.threads[t].phase) ==> s'.epoch <= s.threads[t].pinned + 1)
    requires s.threads[t].phase.Reclaiming? ==> s'.epoch == s.epoch && s'.reclaimer == s.reclaimer
    requires KeepsWork(s'.stage, t, s.threads[t].phase)
    ensures ThreadOk(s', t)
  {
  }

  lemma OthersKeepWork(s: State, step: Step, t: nat)
    requires Inv(s) && Enabled(s, step) && t < MAX_THREADS && t != step.t
    ensures KeepsWork(StageAfter(s, step), t, s.threads[t].phase)
  {
    assert ThreadOk(s, t) && ThreadOk(s, step.t);
    match s.threads[t].phase {
      case Freeing(nodes) =>
        forall n | n in nodes
          ensures n in StageAfter(s, step) && StageAfter(s, step)[n] == Detached(t)
        {
          assert NodeOk(s, n);
          OthersKeepStages(s, step, t, n);
        }
      case Pushing(n, _) =>
        assert NodeOk(s, n);
        OthersKeepStages(s, step, t, n);
      case _ =>
    }
  }

  lemma OthersKeepThread(s: State, step: Step, t: nat)
    requires Inv(s) && Enabled(s, step) && t < MAX_THREADS && t != step.t
    ensures ThreadOk(Apply(s, step), t)
  {
    assert ThreadOk(s, t);
    OthersKeepClock(s, step, t);
    OthersKeepWork(s, step, t);
    ThreadCarries(s, Apply(s, step), t);
  }

  predicate IsScan(step: Step) {
    step.LoadCurrent? || step.LoadCount? || step.CheckActive? || step.CheckLocal?
  }

  predicate IsReclaim(step: Step) {
    step.Swing? || step.Detach? || step.Free? || step.FinishFree?
  }

  predicate IsRegistration(step: Step) {
    step.Claim? || step.ClearLocal? || step.ClearActive? || step.RaiseCount? || step.Deactivate? || step.Unregister?
  }

  lemma RegistrationKeepsThread(s: State, step: Step)
    requires Shape(s) && Enabled(s, step) && ThreadOk(s, step.t) && IsRegistration(step)
    ensures ThreadOk(Apply(s, step), step.t)
  {
  }

  lemma OwnKeepsThread(s: State, step: Step)
    requires Shape(s) && Enabled(s, step) && ThreadOk(s, step.t) && !IsScan(step) && !IsReclaim(step) && !IsRegistration(step)
    ensures ThreadOk(Apply(s, step), step.t)
  {
  }

  lemma ScanKeepsThread(s: State, step: Step)
    requires Shape(s) && Enabled(s, step) && ThreadOk(s, step.t) && IsScan(step)
    ensures ThreadOk(Apply(s, step), step.t)
  {
  }

  lemma ReclaimKeepsThread(s: State, step: Step)
    requires Inv(s) && Enabled(s, step) && IsReclaim(step)
    ensures ThreadOk(Apply(s, step), step.t)
  {
    assert ThreadOk(s, step.t) && ScanOk(s, step.t, step.t);
    forall n | n in Emptied(s, step)
      ensures n in s.stage
    {
      assert NodeOk(s, n);
    }
  }

  lemma StepKeepsThread(s: State, step: Step, t: nat)
    requires Inv(s) && Enabled(s, step) && t < MAX_THREADS
    ensures ThreadOk(Apply(s, step), t)
  {
    assert ThreadOk(s, step.t);
    if t != step.t {
      OthersKeepThread(s, step, t);
    } else if IsScan(step) {
      ScanKeepsThread(s, step);
    } else if IsReclaim(step) {
      ReclaimKeepsThread(s, step);
    } else if IsRegistration(step) {
      RegistrationKeepsThread(s, step);
    } else {
      OwnKeepsThread(s, step);
    }
  }

  /** The scanner's own step: the slot it just read was inactive or current. */
  lemma ScanPasses(s: State, step: Step, u: nat)
    requires Inv(s) && Enabled(s, step) && IsScan(step) && u < MAX_THREADS
    ensures Passed(PhaseAfter(s, step), u) && HasEpoch(s.threads[u].phase) ==> s.threads[u].pinned >= PhaseAfter(s, step).cur
  {
    assert ThreadOk(s, u) && ThreadOk(s, step.t) && ScanOk(s, step.t, u);
  }

  lemma ScannerKeepsScan(s: State, step: Step, u: nat)
    requires Inv(s) && Enabled(s, step) && u < MAX_THREADS
    ensures ScanOk(Apply(s, step), step.t, u)
  {
    if IsScan(step) {
      ScanPasses(s, step, u);
    }
  }

  /** Another thread's step: a pin that completes behind the scan loads an
      epoch at least as late as the scan's. */
  lemma OthersKeepScan(s: State, step: Step, t: nat, u: nat)
    requires Inv(s) && Enabled(s, step) && t < MAX_THREADS && u < MAX_THREADS && t != step.t
    ensures ScanOk(Apply(s, step), t, u)
  {
    assert ThreadOk(s, t) && ScanOk(s, t, u);
  }

  // ------------------------------------------------------------------
  // Nodes
  // ------------------------------------------------------------------

  lemma StepKeepsFreed(s: State, step: Step, n: Node)
    requires Shape(s) && Enabled(s, step) && ThreadOk(s, step.t) && NodeOk(s, n)
    ensures FreedOnce(Apply(s, step).frees, StageAfter(s, step), n)
  {
  }

  lemma StepKeepsBuckets(s: State, step: Step, n: Node)
    requires Shape(s) && Enabled(s, step) && ThreadOk(s, step.t) && NodeOk(s, n)
    ensures InBuckets(BucketsAfter(s, step), StageAfter(s, step), n)
  {
  }

  lemma StepKeepsWaits(s: State, step: Step, n: Node)
    requires Inv(s) && Enabled(s, step)
    ensures var s' := Apply(s, step); Waits(s'.epoch, s'.reclaimer, s'.stage, n)
  {
    assert NodeOk(s, n) && ThreadOk(s, step.t);
    if step.Swing? && s.epoch == s.threads[step.t].phase.cur {
      SwingFindsNoReclaimer(s, step);
    }
  }

  /** What a thread inside its section may hold stays so while it is there. */
  lemma StepKeepsMayHold(s: State, step: Step, t: nat, n: Node)
    requires Shape(s) && Enabled(s, step) && t < MAX_THREADS && InSection(s.threads[t].phase)
    requires ThreadOk(s, t) && ThreadOk(s, step.t) && NodeOk(s, n) && MayHold(s.stage, s.threads[t].pinned, n)
    ensures MayHold(StageAfter(s, step), s.threads[t].pinned, n)
  {
  }

  /** What a thread holds or may find after a step, it held or could find before,
      or the node was on the list before. */
  lemma StepKeepsRef(s: State, step: Step, t: nat, n: Node)
    requires Shape(s) && Enabled(s, step) && t < MAX_THREADS && ThreadOk(s, t) && RefOk(s, t, n)
    requires InSection(s.threads[t].phase) && MayHold(s.stage, s.threads[t].pinned, n) ==>
               MayHold(StageAfter(s, step), s.threads[t].pinned, n)
    ensures RefOk(Apply(s, step), t, n)
  {
  }

  lemma StepKeepsThreads(s: State, step: Step)
    requires Inv(s) && Enabled(s, step)
    ensures forall t :: 0 <= t < MAX_THREADS ==> ThreadOk(Apply(s, step), t)
  {
    forall t | 0 <= t < MAX_THREADS
      ensures ThreadOk(Apply(s, step), t)
    {
      StepKeepsThread(s, step, t);
    }
  }

  lemma StepKeepsScans(s: State, step: Step)
    requires Inv(s) && Enabled(s, step)
    ensures forall t, u :: 0 <= t < MAX_THREADS && 0 <= u < MAX_THREADS ==> ScanOk(Apply(s, step), t, u)
  {
    forall t, u | 0 <= t < MAX_THREADS && 0 <= u < MAX_THREADS
      ensures ScanOk(Apply(s, step), t, u)
    {
      if t == step.t {
        ScannerKeepsScan(s, step, u);
      } else {
        OthersKeepScan(s, step, t, u);
      }
    }
  }

  lemma StepKeepsNode(s: State, step: Step, n: Node)
    requires Inv(s) && Enabled(s, step)
    ensures NodeOk(Apply(s, step), n)
  {
    assert NodeOk(s, n) && ThreadOk(s, step.t);
    StepKeepsFreed(s, step, n);
    StepKeepsBuckets(s, step, n);
    StepKeepsWaits(s, step, n);
  }

  lemma StepKeepsRefs(s: State, step: Step, t: nat, n: Node)
    requires Inv(s) && Enabled(s, step) && t < MAX_THREADS
    ensures RefOk(Apply(s, step), t, n)
  {
    assert ThreadOk(s, t) && ThreadOk(s, step.t) && RefOk(s, t, n) && NodeOk(s, n);
    if InSection(s.threads[t].phase) && MayHold(s.stage, s.threads[t].pinned, n) {
      StepKeepsMayHold(s, step, t, n);
    }
    StepKeepsRef(s, step, t, n);
  }

  lemma StepKeepsReclaimer(s: State, step: Step)
    requires Shape(s) && Enabled(s, step) && ReclaimerOk(s) && ThreadOk(s, step.t)
    ensures ReclaimerOk(Apply(s, step))
  {
  }

  lemma StepKeepsInv(s: State, step: Step)
    requires Inv(s) && Enabled(s, step)
    ensures Inv(Apply(s, step))
  {
    assert ThreadOk(s, step.t);
    StepKeepsReclaimer(s, step);
    StepKeepsThreads(s, step);
    StepKeepsScans(s, step);
    forall n
      ensures NodeOk(Apply(s, step), n)
    {
      StepKeepsNode(s, step, n);
    }
    forall t, n | 0 <= t < MAX_THREADS
      ensures RefOk(Apply(s, step), t, n)
    {
      StepKeepsRefs(s, step, t, n);
    }
  }

  // ------------------------------------------------------------------
  // Main results, over every run
  // ------------------------------------------------------------------

  predicate IsRun(s: State, run: seq<Step>)
    requires Shape(s)
    decreases |run|
  {
    run == [] || (Enabled(s, run[0]) && IsRun(Apply(s, run[0]), run[1..]))
  }

  function After(s: State, run: seq<Step>, k: nat): (s': State)
    requires Shape(s) && IsRun(s, run) && k <= |run|
    ensures Shape(s')
    decreases k
  {
    if k == 0 then s else After(Apply(s, run[0]), run[1..], k - 1)
  }

  lemma {:induction false} RunKeepsInv(s: State, run: seq<Step>, k: nat)
    requires Inv(s) && IsRun(s, run) && k <= |run|
    ensures Inv(After(s, run, k))
    decreases k
  {
    if k > 0 {
      StepKeepsInv(s, run[0]);
      RunKeepsInv(Apply(s, run[0]), run[1..], k - 1);
    }
  }

  /** In every state of every run: a node that was freed is referenced by no
      thread, none can get hold of it any more, and it was freed once. */
  lemma FreedIsUnreferenced(run: seq<Step>, k: nat, t: nat, n: Node)
    requires IsRun(Init(), run) && k <= |run| && t < MAX_THREADS
    ensures var s := After(Init(), run, k);
            s.frees[n] <= 1 && (s.frees[n] == 1 ==> n !in s.threads[t].refs && !Enabled(s, Acquire(t, n)))
  {
    InitInv();
    RunKeepsInv(Init(), run, k);
    FreedNow(After(Init(), run, k), n, t);
  }

  lemma FreeHappensOnce(s: State, step: Step, n: Node, t: nat)
    requires Inv(s) && Enabled(s, step) && t < MAX_THREADS
    ensures step.Free? && step.n == n ==> s.frees[n] == 0 && Apply(s, step).frees[n] == 1 && n !in s.threads[t].refs
    ensures s.frees[n] == 1 ==> Apply(s, step).frees[n] == 1
  {
    assert NodeOk(s, n) && ThreadOk(s, step.t) && RefOk(s, t, n);
  }

  /** The same at the moment of the free, and from then on for good: no pinned
      thread holds the node, none can get hold of it again, and it is not
      freed a second time. */
  lemma FreedStaysUnreferenced(run: seq<Step>, i: nat, k: nat, t: nat, n: Node)
    requires IsRun(Init(), run) && i < k <= |run| && t < MAX_THREADS && run[i].Free? && run[i].n == n
    ensures n !in After(Init(), run, i).threads[t].refs
    ensures n !in After(Init(), run, k).threads[t].refs && !Enabled(After(Init(), run, k), Acquire(t, n))
    ensures After(Init(), run, k).frees[n] == 1
    ensures forall j :: i < j < k ==> !(run[j].Free? && run[j].n == n)
  {
    InitInv();
    var s := After(Init(), run, i);
    RunKeepsInv(Init(), run, i);
    RunStep(Init(), run, i);
    FreeHappensOnce(s, run[i], n, t);
    StaysFreed(Init(), run, i, k, n);
    FreedIsUnreferenced(run, k, t, n);
  }

  lemma {:induction false} StaysFreed(s0: State, run: seq<Step>, i: nat, k: nat, n: Node)
    requires Inv(s0) && IsRun(s0, run) && i < k <= |run| && run[i].Free? && run[i].n == n
    ensures After(s0, run, k).frees[n] == 1
    ensures forall j :: i < j < k ==> !(run[j].Free? && run[j].n == n)
    decreases k
  {
    RunKeepsInv(s0, run, k - 1);
    RunStep(s0, run, k - 1);
    FreeHappensOnce(After(s0, run, k - 1), run[k - 1], n, 0);
    if i < k - 1 {
      StaysFreed(s0, run, i, k - 1, n);
    }
  }

  lemma FreedNow(s: State, n: Node, t: nat)
    requires Inv(s) && t < MAX_THREADS
    ensures s.frees[n] <= 1 && (s.frees[n] == 1 ==> n !in s.threads[t].refs && !Enabled(s, Acquire(t, n)))
  {
    assert NodeOk(s, n) && RefOk(s, t, n);
  }

  lemma {:induction false} RunStep(s: State, run: seq<Step>, k: nat)
    requires Shape(s) && IsRun(s, run) && k < |run|
    ensures Enabled(After(s, run, k), run[k])
    ensures After(s, run, k + 1) == Apply(After(s, run, k), run[k])
    decreases k
  {
    if k > 0 {
      RunStep(Apply(s, run[0]), run[1..], k - 1);
    }
  }

  /** The epoch never goes back, and while any thread is inside a critical
      section it moves at most one step from the epoch that thread loaded. */
  lemma EpochIsMonotone(run: seq<Step>, i: nat, k: nat, t: nat)
    requires IsRun(Init(), run) && i <= k <= |run| && t < MAX_THREADS
    ensures After(Init(), run, i).epoch <= After(Init(), run, k).epoch
    ensures var s := After(Init(), run, k);
            InSection(s.threads[t].phase) ==> s.threads[t].local <= s.epoch <= s.threads[t].local + 1
  {
    InitInv();
    RunKeepsInv(Init(), run, k);
    assert ThreadOk(After(Init(), run, k), t);
    EpochRises(Init(), run, i, k);
  }

  lemma {:induction false} EpochRises(s0: State, run: seq<Step>, i: nat, k: nat)
    requires Inv(s0) && IsRun(s0, run) && i <= k <= |run|
    ensures After(s0, run, i).epoch <= After(s0, run, k).epoch
    decreases k
  {
    if i < k {
      var s := After(s0, run, k - 1);
      EpochRises(s0, run, i, k - 1);
      RunKeepsInv(s0, run, k - 1);
      RunStep(s0, run, k - 1);
      StepRaises(s, run[k - 1]);
    }
  }

  lemma StepRaises(s: State, step: Step)
    requires Inv(s) && Enabled(s, step)
    ensures s.epoch <= Apply(s, step).epoch
  {
    assert ThreadOk(s, step.t);
  }
}
