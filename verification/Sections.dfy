/**
  What a critical section is worth to the thread in it, and what its slot shows to
  the others.

  A node got hold of in a section is not freed before the section ends; a node
  unlinked can be met again by exactly the threads that were in their sections then
  and have not left them.
 */
module Sections {
  import opened Epochs

  // ------------------------------------------------------------------
  // What the slot shows
  // ------------------------------------------------------------------

  /** A slot is in use from its claim to the end of its registration, and active
      from the announcement of a section to its end. */
  ghost predicate Shows(s: State, t: nat)
    requires Shape(s) && t < MAX_THREADS
  {
    var th := s.threads[t];
    && (th.inUse <==> !th.phase.Unregistered?)
    && (th.active <==> th.phase.Announced? || HasEpoch(th.phase))
  }

  lemma StepShows(s: State, step: Step, t: nat)
    requires Shape(s) && Enabled(s, step) && t < MAX_THREADS && Shows(s, t)
    ensures Shows(Apply(s, step), t)
  {
  }

  lemma {:induction false} RunShows(s: State, run: seq<Step>, t: nat)
    requires Shape(s) && IsRun(s, run) && t < MAX_THREADS && Shows(s, t)
    ensures Shows(After(s, run, |run|), t)
    decreases |run|
  {
    if run != [] {
      StepShows(s, run[0], t);
      RunShows(Apply(s, run[0]), run[1..], t);
    }
  }

  ghost predicate Tells(s: State, t: nat)
    requires Shape(s) && t < MAX_THREADS
  {
    && (Enabled(s, Claim(t)) <==> s.threads[t].phase.Unregistered?)
    && (Enabled(s, Unregister(t)) <==> s.threads[t].phase.Idle?)
    && (s.threads[t].active ==> s.threads[t].phase.Announced? || HasEpoch(s.threads[t].phase))
  }

  lemma ShownTells(s: State, t: nat)
    requires Shape(s) && t < MAX_THREADS && Shows(s, t)
    ensures Tells(s, t)
  {
  }

  lemma InitShows(t: nat)
    requires t < MAX_THREADS
    ensures Shows(Init(), t)
  {
  }

  /** After any run a slot can be claimed exactly if no thread is registered there,
      a thread outside its section can always unregister, and no thread outside its
      section stands against an advance. */
  lemma SlotTells(run: seq<Step>, t: nat)
    requires IsRun(Init(), run) && t < MAX_THREADS
    ensures Tells(After(Init(), run, |run|), t)
  {
    InitShows(t);
    RunShows(Init(), run, t);
    ShownTells(After(Init(), run, |run|), t);
  }

  // ------------------------------------------------------------------
  // What a section protects
  // ------------------------------------------------------------------

  lemma {:induction false} HeldStays(s: State, run: seq<Step>, t: nat, n: Node)
    requires Shape(s) && IsRun(s, run) && t < MAX_THREADS && n in s.threads[t].refs && Unpin(t) !in run
    ensures n in After(s, run, |run|).threads[t].refs
    decreases |run|
  {
    if run != [] {
      HeldStays(Apply(s, run[0]), run[1..], t, n);
    }
  }

  /** Whatever all threads do: a node a thread got hold of is not freed before the
      thread ends its section. */
  lemma AcquiredIsNotFreed(s: State, run: seq<Step>, t: nat, n: Node)
    requires Inv(s) && Enabled(s, Acquire(t, n)) && IsRun(Apply(s, Acquire(t, n)), run) && Unpin(t) !in run
    ensures After(Apply(s, Acquire(t, n)), run, |run|).frees[n] == 0
  {
    var s' := Apply(s, Acquire(t, n));
    StepKeepsInv(s, Acquire(t, n));
    HeldStays(s', run, t, n);
    RunKeepsInv(s', run, |run|);
    FreedNow(After(s', run, |run|), n, t);
  }

  lemma {:induction false} FoundStays(s: State, run: seq<Step>, t: nat, n: Node)
    requires Shape(s) && IsRun(s, run) && t < MAX_THREADS && n in s.stage
    ensures n in After(s, run, |run|).stage
    ensures n in After(s, run, |run|).threads[t].mayFind <==> n in s.threads[t].mayFind && Unpin(t) !in run
    decreases |run|
  {
    if run != [] {
      FoundStays(Apply(s, run[0]), run[1..], t, n);
    }
  }

  /** After a node was unlinked, a pinned thread can get hold of it exactly if it was
      in its section then and has not left it. */
  lemma UnlinkedIsMetIff(s: State, u: nat, n: Node, run: seq<Step>, t: nat)
    requires Inv(s) && Enabled(s, Unlink(u, n)) && IsRun(Apply(s, Unlink(u, n)), run) && t < MAX_THREADS
    ensures var end := After(Apply(s, Unlink(u, n)), run, |run|);
            end.threads[t].phase.Pinned? ==>
              (Enabled(end, Acquire(t, n)) <==> InSection(s.threads[t].phase) && Unpin(t) !in run)
  {
    NoticedIff(s, u, n, t);
    FoundStays(Apply(s, Unlink(u, n)), run, t, n);
  }

  lemma NoticedIff(s: State, u: nat, n: Node, t: nat)
    requires Inv(s) && Enabled(s, Unlink(u, n)) && t < MAX_THREADS
    ensures n in Apply(s, Unlink(u, n)).threads[t].mayFind <==> InSection(s.threads[t].phase)
  {
    assert ThreadOk(s, t);
  }
}
