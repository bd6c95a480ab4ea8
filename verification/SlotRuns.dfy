/**
  The slot pool under any number of threads: claims, releases and the hand-over
  of slots to a list and to its reclamation, one access to shared memory per
  step.

  A claim is the increment of the cursor, one compare-and-swap per slot looked
  at, and the clearing of the slot won -- after it is already marked as used.
  The pool keeps one state word per slot and knows no owners.  `owner`, `wrote`
  and `seen` are auxiliary.
 */
module SlotRuns {
  import opened SlotPool

  type Slot = nat

  datatype Phase =
    | Idle
    | Probing(start: nat, round: nat, seen: set<Slot>)   // `seen`: found in use
    | Clearing(slot: Slot)
    | Exhausted(start: nat, seen: set<Slot>)             // the claim has failed

  /** What a thread has in hand, and what it wrote there. */
  datatype Thread = Thread(phase: Phase, held: set<Slot>, wrote: map<Slot, int>)

  datatype Owner = Nobody | By(thread: nat) | List | Limbo

  datatype State = State(
    word: nat,
    cursor: nat,
    used: seq<bool>,
    data: seq<int>,
    threads: seq<Thread>,
    linked: set<Slot>,       // slots of nodes in the list
    limbo: set<Slot>,        // retired, not yet reclaimed
    kept: map<Slot, int>,    // what list and limbo rely on
    owner: seq<Owner>)

  datatype Step =
    | Begin(t: nat) | Probe(t: nat) | Clear(t: nat) | GiveUp(t: nat)
    | Write(t: nat, i: Slot, v: int)
    | Release(t: nat, i: Slot)
    | Link(t: nat, i: Slot)
    | Update(t: nat, i: Slot, v: int)
    | Retire(t: nat, i: Slot)
    | Reclaim(t: nat, i: Slot)

  predicate Shape(s: State) {
    && 0 < |s.used| <= s.word && s.cursor < s.word
    && |s.data| == |s.owner| == |s.used|
  }

  function Slots(s: State): nat {
    |s.used|
  }

  predicate Enabled(s: State, step: Step)
    requires Shape(s)
  {
    step.t < |s.threads| &&
    var th := s.threads[step.t];
    match step
    case Begin(_) => th.phase.Idle?
    case Probe(_) => th.phase.Probing? && th.phase.round < Slots(s)
    case Clear(_) => th.phase.Clearing? && th.phase.slot < Slots(s)
    case GiveUp(_) => th.phase.Exhausted?
    case Write(_, i, _) => th.phase.Idle? && i in th.held && i < Slots(s)
    case Release(_, i) => th.phase.Idle? && i in th.held && i < Slots(s)
    case Link(_, i) => th.phase.Idle? && i in th.held && i < Slots(s)
    case Update(_, i, _) => i in s.linked && i < Slots(s)
    case Retire(_, i) => i in s.linked && i < Slots(s)
    case Reclaim(_, i) => i in s.limbo && i < Slots(s)
  }

  function WithThread(s: State, t: nat, th: Thread): (s': State)
    requires Shape(s) && t < |s.threads|
    ensures Shape(s') && |s'.used| == |s.used| && |s'.threads| == |s.threads|
  {
    s.(threads := s.threads[t := th])
  }

  function Apply(s: State, step: Step): (s': State)
    requires Shape(s) && Enabled(s, step)
    ensures Shape(s') && |s'.used| == |s.used| && |s'.threads| == |s.threads| && s'.word == s.word
  {
    var t := step.t;
    var th := s.threads[t];
    match step
    case Begin(_) => WithThread(s.(cursor := (s.cursor + 1) % s.word), t, th.(phase := Probing(s.cursor, 0, {})))
    case Probe(_) =>
      var p := th.phase;
      var i := SlotPool.Probe(p.start, p.round, Slots(s), s.word);
      if !s.used[i] then
        WithThread(s.(used := s.used[i := true], owner := s.owner[i := By(t)]), t, th.(phase := Clearing(i)))
      else if p.round + 1 < Slots(s) then
        WithThread(s, t, th.(phase := Probing(p.start, p.round + 1, p.seen + {i})))
      else
        WithThread(s, t, th.(phase := Exhausted(p.start, p.seen + {i})))
    case Clear(_) =>
      var i := th.phase.slot;
      WithThread(s.(data := s.data[i := 0]), t, Thread(Idle, th.held + {i}, th.wrote[i := 0]))
    case GiveUp(_) => WithThread(s, t, th.(phase := Idle))
    case Write(_, i, v) => WithThread(s.(data := s.data[i := v]), t, th.(wrote := th.wrote[i := v]))
    case Release(_, i) =>
      WithThread(s.(used := s.used[i := false], owner := s.owner[i := Nobody]), t, th.(held := th.held - {i}))
    case Link(_, i) =>
      WithThread(s.(linked := s.linked + {i}, kept := s.kept[i := s.data[i]], owner := s.owner[i := List]), t,
                 th.(held := th.held - {i}))
    case Update(_, i, v) => s.(data := s.data[i := v], kept := s.kept[i := v])
    case Retire(_, i) => s.(linked := s.linked - {i}, limbo := s.limbo + {i}, owner := s.owner[i := Limbo])
    case Reclaim(_, i) => s.(used := s.used[i := false], limbo := s.limbo - {i}, owner := s.owner[i := Nobody])
  }

  // ------------------------------------------------------------------
  // The invariant
  // ------------------------------------------------------------------

  predicate Has(th: Thread, i: Slot) {
    i in th.held || th.phase == Clearing(i)
  }

  ghost predicate SlotOk(s: State, i: Slot)
    requires Shape(s) && i < Slots(s)
  {
    && (s.used[i] <==> s.owner[i] != Nobody)
    && (s.owner[i].By? ==> s.owner[i].thread < |s.threads|)
    && (i in s.linked <==> s.owner[i] == List)
    && (i in s.limbo <==> s.owner[i] == Limbo)
    && (i in s.linked || i in s.limbo ==> i in s.kept && s.data[i] == s.kept[i])
  }

  ghost predicate HoldOk(s: State, t: nat, i: Slot)
    requires Shape(s) && t < |s.threads| && i < Slots(s)
  {
    var th := s.threads[t];
    && (Has(th, i) <==> s.owner[i] == By(t))
    && (i in th.held ==> th.phase != Clearing(i) && i in th.wrote && s.data[i] == th.wrote[i])
  }

  ghost predicate SawOk(seen: set<Slot>, start: nat, round: nat, capacity: nat, word: nat)
    requires 0 < capacity && 0 < word
  {
    forall u: nat :: u < round ==> SlotPool.Probe(start, u, capacity, word) in seen
  }

  ghost predicate ThreadOk(s: State, t: nat)
    requires Shape(s) && t < |s.threads|
  {
    match s.threads[t].phase
    case Probing(start, round, seen) => start < s.word && round < Slots(s) && SawOk(seen, start, round, Slots(s), s.word)
    case Exhausted(start, seen) => start < s.word && SawOk(seen, start, Slots(s), Slots(s), s.word)
    case Clearing(i) => i < Slots(s)
    case Idle => true
  }

  ghost predicate Inv(s: State) {
    && Shape(s)
    && (forall i: nat :: i < Slots(s) ==> SlotOk(s, i))
    && (forall t: nat, i: nat :: t < |s.threads| && i < Slots(s) ==> HoldOk(s, t, i))
    && (forall t: nat :: t < |s.threads| ==> ThreadOk(s, t))
  }

  function Init(word: nat, capacity: nat, threads: nat): (s: State)
    requires 0 < capacity <= word
    ensures Shape(s)
  {
    State(word, 0, seq(capacity, _ => false), seq(capacity, _ => 0), seq(threads, _ => Thread(Idle, {}, map[])),
          {}, {}, map[], seq(capacity, _ => Nobody))
  }

  lemma InitHoldsInv(word: nat, capacity: nat, threads: nat)
    requires 0 < capacity <= word
    ensures Inv(Init(word, capacity, threads))
  {
  }

  /** The slot a step is about; for the others it changes nothing. */
  function Target(s: State, step: Step): Slot
    requires Shape(s) && Enabled(s, step)
  {
    var p := s.threads[step.t].phase;
    match step
    case Begin(_) => 0
    case GiveUp(_) => 0
    case Probe(_) => SlotPool.Probe(p.start, p.round, Slots(s), s.word)
    case Clear(_) => p.slot
    case Write(_, i, _) => i
    case Release(_, i) => i
    case Link(_, i) => i
    case Update(_, i, _) => i
    case Retire(_, i) => i
    case Reclaim(_, i) => i
  }

  lemma SlotStaysOk(s: State, step: Step, i: Slot)
    requires Inv(s) && Enabled(s, step) && i < Slots(s)
    ensures SlotOk(Apply(s, step), i)
  {
    assert SlotOk(s, i) && HoldOk(s, step.t, i);
  }

  lemma HoldStaysOk(s: State, step: Step, t: nat, i: Slot)
    requires Inv(s) && Enabled(s, step) && t < |s.threads| && i < Slots(s)
    ensures HoldOk(Apply(s, step), t, i)
  {
    assert SlotOk(s, i) && HoldOk(s, step.t, i) && HoldOk(s, t, i);
  }

  lemma ThreadStaysOk(s: State, step: Step, t: nat)
    requires Inv(s) && Enabled(s, step) && t < |s.threads|
    ensures ThreadOk(Apply(s, step), t)
  {
    assert ThreadOk(s, t);
  }

  lemma StepKeepsInv(s: State, step: Step)
    requires Inv(s) && Enabled(s, step)
    ensures Inv(Apply(s, step))
  {
    var s' := Apply(s, step);
    forall i: nat | i < Slots(s)
      ensures SlotOk(s', i)
    {
      SlotStaysOk(s, step, i);
    }
    forall t: nat, i: nat | t < |s.threads| && i < Slots(s)
      ensures HoldOk(s', t, i)
    {
      HoldStaysOk(s, step, t, i);
    }
    forall t: nat | t < |s.threads|
      ensures ThreadOk(s', t)
    {
      ThreadStaysOk(s, step, t);
    }
  }

  // ------------------------------------------------------------------
  // Whole runs
  // ------------------------------------------------------------------

  predicate Valid(s: State, steps: seq<Step>)
    requires Shape(s)
    decreases |steps|
  {
    steps == [] || (Enabled(s, steps[0]) && Valid(Apply(s, steps[0]), steps[1..]))
  }

  function Run(s: State, steps: seq<Step>): (s': State)
    requires Shape(s) && Valid(s, steps)
    ensures Shape(s') && |s'.used| == |s.used| && |s'.threads| == |s.threads| && s'.word == s.word
    decreases |steps|
  {
    if steps == [] then s else Run(Apply(s, steps[0]), steps[1..])
  }

  lemma {:induction false} RunKeepsInv(s: State, steps: seq<Step>)
    requires Inv(s) && Valid(s, steps)
    ensures Inv(Run(s, steps))
    decreases |steps|
  {
    if steps != [] {
      StepKeepsInv(s, steps[0]);
      RunKeepsInv(Apply(s, steps[0]), steps[1..]);
    }
  }

  /** The slot is in one hand at most -- a thread's, the list's or the
      reclamation's -- and it is in use exactly if it is in one. */
  ghost predicate InOneHand(s: State, i: Slot)
    requires Shape(s) && i < Slots(s)
  {
    && (forall t, u | 0 <= t < |s.threads| && 0 <= u < |s.threads| :: Has(s.threads[t], i) && Has(s.threads[u], i) ==> t == u)
    && (forall t | 0 <= t < |s.threads| :: Has(s.threads[t], i) ==> i !in s.linked && i !in s.limbo)
    && !(i in s.linked && i in s.limbo)
    && (s.used[i] <==> i in s.linked || i in s.limbo || exists t | 0 <= t < |s.threads| :: Has(s.threads[t], i))
  }

  lemma InvMeansOneHand(s: State, i: Slot)
    requires Inv(s) && i < Slots(s)
    ensures InOneHand(s, i)
  {
    assert SlotOk(s, i);
    forall t: nat | t < |s.threads|
      ensures Has(s.threads[t], i) <==> s.owner[i] == By(t)
    {
      assert HoldOk(s, t, i);
    }
    if s.owner[i].By? {
      assert Has(s.threads[s.owner[i].thread], i);
    }
  }

  /** After any run no slot is in two hands, and none in use is lost. */
  lemma EverySlotHasOneOwner(word: nat, capacity: nat, threads: nat, steps: seq<Step>, i: Slot)
    requires 0 < capacity <= word && i < capacity && Valid(Init(word, capacity, threads), steps)
    ensures InOneHand(Run(Init(word, capacity, threads), steps), i)
  {
    InitHoldsInv(word, capacity, threads);
    RunKeepsInv(Init(word, capacity, threads), steps);
    InvMeansOneHand(Run(Init(word, capacity, threads), steps), i);
  }

  /** What a thread holds contains what it wrote there: no other thread's claim,
      clearing or release has touched it. */
  lemma HeldSlotsAreUntouched(word: nat, capacity: nat, threads: nat, steps: seq<Step>, t: nat, i: Slot)
    requires 0 < capacity <= word && i < capacity && t < threads && Valid(Init(word, capacity, threads), steps)
    ensures var s := Run(Init(word, capacity, threads), steps);
            i in s.threads[t].held ==> i in s.threads[t].wrote && s.data[i] == s.threads[t].wrote[i]
  {
    var s0 := Init(word, capacity, threads);
    InitHoldsInv(word, capacity, threads);
    RunKeepsInv(s0, steps);
    assert HoldOk(Run(s0, steps), t, i);
  }

  predicate InNoHand(s: State, i: Slot) {
    i !in s.linked && i !in s.limbo && forall t | 0 <= t < |s.threads| :: !Has(s.threads[t], i)
  }

  /** Once list and reclamation have let go of all slots and the threads have
      released what they held, the whole pool is free again; and not before. */
  lemma AllComeBackIff(s: State)
    requires Inv(s)
    ensures (forall i: nat | i < Slots(s) :: !s.used[i]) <==> (forall i: nat | i < Slots(s) :: InNoHand(s, i))
  {
    forall i: nat | i < Slots(s)
      ensures !s.used[i] <==> InNoHand(s, i)
    {
      InvMeansOneHand(s, i);
    }
  }

  // ------------------------------------------------------------------
  // What exhaustion means
  // ------------------------------------------------------------------

  function Seen(s: State, t: nat): set<Slot>
    requires t < |s.threads|
  {
    var p := s.threads[t].phase;
    if p.Probing? || p.Exhausted? then p.seen else {}
  }

  /** At some moment of the run the slot is in use. */
  predicate UsedAtSomeMoment(s: State, steps: seq<Step>, i: Slot)
    requires Shape(s) && Valid(s, steps) && i < Slots(s)
    decreases |steps|
  {
    s.used[i] || (steps != [] && UsedAtSomeMoment(Apply(s, steps[0]), steps[1..], i))
  }

  lemma {:induction false} SeenWasUsed(s: State, steps: seq<Step>, t: nat, i: Slot)
    requires Shape(s) && Valid(s, steps) && t < |s.threads| && i < Slots(s)
    ensures i in Seen(Run(s, steps), t) ==> i in Seen(s, t) || UsedAtSomeMoment(s, steps, i)
    decreases |steps|
  {
    if steps != [] {
      SeenWasUsed(Apply(s, steps[0]), steps[1..], t, i);
    }
  }

  /** A claim that fails has found every slot in use at some moment while it
      ran, if its search leaves no gap. */
  lemma ExhaustedSawAll(s: State, steps: seq<Step>, t: nat, i: Slot)
    requires Inv(s) && Valid(s, steps) && t < |s.threads| && i < Slots(s)
    requires s.threads[t].phase.Idle? && Run(s, steps).threads[t].phase.Exhausted?
    requires NoGap(Run(s, steps).threads[t].phase.start, Slots(s), s.word)
    ensures UsedAtSomeMoment(s, steps, i)
  {
    var s' := Run(s, steps);
    RunKeepsInv(s, steps);
    assert ThreadOk(s', t);
    SlotIsProbed(i, s'.threads[t].phase.start, Slots(s), s.word);
    SeenWasUsed(s, steps, t, i);
  }

  // ------------------------------------------------------------------
  // Claims end, and begin in turn
  // ------------------------------------------------------------------

  function Occurs(steps: seq<Step>, step: Step): nat {
    if steps == [] then 0 else (if steps[0] == step then 1 else 0) + Occurs(steps[1..], step)
  }

  /** How many probes a claim may still make. */
  function ProbesLeft(s: State, t: nat): nat
    requires t < |s.threads|
  {
    var p := s.threads[t].phase;
    if p.Probing? && p.round < Slots(s) then Slots(s) - p.round else 0
  }

  lemma ProbeUsesUp(s: State, step: Step, t: nat)
    requires Shape(s) && Enabled(s, step) && t < |s.threads| && step != Begin(t)
    ensures ProbesLeft(Apply(s, step), t) + (if step == Probe(t) then 1 else 0) <= ProbesLeft(s, t)
  {
  }

  /** Whatever the other threads do, a claim is over after as many probes as there
      are slots, counting from its beginning. */
  lemma {:induction false} ClaimEnds(s: State, steps: seq<Step>, t: nat)
    requires Shape(s) && Valid(s, steps) && t < |s.threads| && Begin(t) !in steps
    ensures Occurs(steps, Probe(t)) + ProbesLeft(Run(s, steps), t) <= ProbesLeft(s, t) <= Slots(s)
    decreases |steps|
  {
    if steps != [] {
      ProbeUsesUp(s, steps[0], t);
      ClaimEnds(Apply(s, steps[0]), steps[1..], t);
    }
  }

  function Begins(steps: seq<Step>): nat {
    if steps == [] then 0 else (if steps[0].Begin? then 1 else 0) + Begins(steps[1..])
  }

  lemma NextInTurn(cursor: nat, n: nat, word: nat)
    requires cursor < word
    ensures ((cursor + 1) % word + n) % word == (cursor + (1 + n)) % word
  {
    if cursor + 1 < word {
      Small(cursor + 1, word);
    } else {
      assert word == 1 * word;
      QuotientIs(word, word, 1, 0);
      DivMod(n, word);
      SlotPool.Next(n / word, word);
      QuotientIs(word + n, word, n / word + 1, n % word);
    }
  }

  lemma StepTurns(s: State, step: Step)
    requires Shape(s) && Enabled(s, step)
    ensures Apply(s, step).cursor == if step.Begin? then (s.cursor + 1) % s.word else s.cursor
  {
  }

  lemma {:induction false} CursorCounts(s: State, steps: seq<Step>)
    requires Shape(s) && Valid(s, steps)
    ensures Run(s, steps).cursor == (s.cursor + Begins(steps)) % s.word
    decreases |steps|
  {
    if steps == [] {
      Small(s.cursor, s.word);
    } else {
      StepTurns(s, steps[0]);
      CursorCounts(Apply(s, steps[0]), steps[1..]);
      NextInTurn(s.cursor, Begins(steps[1..]), s.word);
    }
  }

  /** The claims of all threads begin their searches in turn, one place after the
      other, and wrap around with the cursor's word. */
  lemma SearchesBeginInTurn(s: State, steps: seq<Step>, t: nat)
    requires Shape(s) && Valid(s, steps) && t < |s.threads| && Enabled(Run(s, steps), Begin(t))
    ensures Apply(Run(s, steps), Begin(t)).threads[t].phase == Probing((s.cursor + Begins(steps)) % s.word, 0, {})
  {
    CursorCounts(s, steps);
  }
}
