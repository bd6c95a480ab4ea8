/**
  Whether a lookup can come to a node that was retired before it started.

  Reclamation frees a retired node once every thread that was inside the list at
  the time has left it.  A thread that enters later must therefore never get
  hold of the node -- and it goes on for a while, from nodes that are removed
  under its feet, along pointers that lead away from every chain.  It holds none
  but nodes that were on a chain after it started, and none of those leads
  anywhere else, as long as no mark is erased and no remover overtaken.
 */
module Revisits {
  import opened LevelChain
  import opened LockFree
  import opened Erasure
  import opened Retirement
  import opened Lookups

  // ------------------------------------------------------------------
  // The other threads' steps
  // ------------------------------------------------------------------

  ghost predicate OvertakesOne(s: State, step: Step)
    requires |s.levels| == MAX_HEIGHT
  {
    exists i :: 0 <= i < MAX_HEIGHT && Overtakes(s, step, i)
  }

  /** Among the moves no step erases a mark or overtakes a remover. */
  ghost predicate Untroubled(s: State, nd: Nodes, moves: seq<Move>)
    requires |s.levels| == MAX_HEIGHT && CanMove(s, nd, moves)
    decreases |moves|
  {
    moves == [] ||
    (match moves[0]
     case Env(step) => !Erases(s, step) && !OvertakesOne(s, step) && Untroubled(Apply(s, nd, step), nd, moves[1..])
     case Reading => Untroubled(s, nd, moves[1..]))
  }

  /** All marks stand, and all findings of removers are true. */
  ghost predicate Quiet(s: State, nd: Nodes) {
    Kept(s, nd) && forall i :: 0 <= i < MAX_HEIGHT ==> Safe(s, i)
  }

  lemma StepKeepsQuiet(s: State, nd: Nodes, step: Step)
    requires Quiet(s, nd) && Enabled(s, nd, step) && !Erases(s, step) && !OvertakesOne(s, step)
    ensures Quiet(Apply(s, nd, step), nd)
  {
    StepKeepsKept(s, nd, step);
    forall i | 0 <= i < MAX_HEIGHT
      ensures Safe(Apply(s, nd, step), i)
    {
      ChainIsNotSpoiled(s, nd, step, i);
      assert Safe(s, i) && !Overtakes(s, step, i);
      StepIsSafeIff(s, nd, step, i);
    }
  }

  lemma {:induction false} MovesKeepQuiet(s: State, nd: Nodes, moves: seq<Move>, k: nat)
    requires Quiet(s, nd) && CanMove(s, nd, moves) && Untroubled(s, nd, moves) && k <= |moves|
    ensures Quiet(StateAt(s, nd, moves, k), nd)
    decreases k
  {
    if k > 0 {
      match moves[0]
      case Env(step) =>
        StepKeepsQuiet(s, nd, step);
        MovesKeepQuiet(Apply(s, nd, step), nd, moves[1..], k - 1);
      case Reading =>
        MovesKeepQuiet(s, nd, moves[1..], k - 1);
    }
  }

  lemma StepKeepsRetired(s: State, nd: Nodes, step: Step, n: Node)
    requires Inv(s, nd) && Enabled(s, nd, step) && IsRetired(s, n)
    ensures IsRetired(Apply(s, nd, step), n)
  {
    assert RemovalOk(s, nd, n);
  }

  lemma {:induction false} MovesKeepRetired(s: State, nd: Nodes, moves: seq<Move>, k: nat, n: Node)
    requires Inv(s, nd) && CanMove(s, nd, moves) && k <= |moves| && IsRetired(s, n)
    ensures IsRetired(StateAt(s, nd, moves, k), n)
    decreases k
  {
    if k > 0 {
      match moves[0]
      case Env(step) =>
        StepKeepsInv(s, nd, step);
        StepKeepsRetired(s, nd, step, n);
        MovesKeepRetired(Apply(s, nd, step), nd, moves[1..], k - 1, n);
      case Reading =>
        MovesKeepRetired(s, nd, moves[1..], k - 1, n);
    }
  }

  // ------------------------------------------------------------------
  // The nodes that were on a chain since the lookup started
  // ------------------------------------------------------------------

  ghost function Seen(s: State, nd: Nodes, moves: seq<Move>, k: nat, i: nat): set<Node>
    requires |s.levels| == MAX_HEIGHT && CanMove(s, nd, moves) && k <= |moves| && i < MAX_HEIGHT
    decreases k
  {
    StateAt(s, nd, moves, k).levels[i].linked + if k == 0 then {} else Seen(s, nd, moves, k - 1, i)
  }

  /** From `c`, a write still leads where it led, unless `c` is on the chain. */
  lemma OnChainOrFrozen(l: Level, key: Node -> int, w: Write, c: Node)
    requires Valid(l, key) && CanWrite(l, w) && TakesOutMarked(l, w) && c in l.rank && c in l.next && c != TAIL
    requires c !in DoWrite(l, w).linked
    ensures c in DoWrite(l, w).next && DoWrite(l, w).next[c].ptr == l.next[c].ptr
  {
    assert NodeOk(l, c);
  }

  /** None of them leads anywhere else. */
  lemma {:induction false} SeenLeadsToSeen(s: State, nd: Nodes, moves: seq<Move>, k: nat, i: nat, c: Node)
    requires Quiet(s, nd) && CanMove(s, nd, moves) && Untroubled(s, nd, moves) && k <= |moves| && i < MAX_HEIGHT
    requires c in Seen(s, nd, moves, k, i) && c != TAIL
    ensures var l := StateAt(s, nd, moves, k).levels[i];
            c in l.rank && c in l.next && l.next[c].ptr in Seen(s, nd, moves, k, i)
    decreases k
  {
    var t := StateAt(s, nd, moves, k);
    MovesKeepQuiet(s, nd, moves, k);
    if c in t.levels[i].linked {
      assert Valid(t.levels[i], nd.key) && NodeOk(t.levels[i], c) && LeadsOn(t.levels[i], c);
    } else {
      SeenLeadsToSeen(s, nd, moves, k - 1, i, c);
      MovesKeepQuiet(s, nd, moves, k - 1);
      MoveStep(s, nd, 0, Absent, moves, k - 1);
      match moves[k - 1]
      case Reading =>
      case Env(step) =>
        var q := StateAt(s, nd, moves, k - 1);
        ChainWrite(q, nd, step, i);
        StepKeepsLevel(q, nd, step, i);
        assert NodeEvolves(q.levels[i], t.levels[i], c);
        OnChainOrFrozen(q.levels[i], nd.key, WriteAt(q, nd, step, i), c);
    }
  }

  lemma ChainWrite(s: State, nd: Nodes, step: Step, i: nat)
    requires Kept(s, nd) && Enabled(s, nd, step) && i < MAX_HEIGHT
    ensures var l, w := s.levels[i], WriteAt(s, nd, step, i);
            Valid(l, nd.key) && CanWrite(l, w) && TakesOutMarked(l, w) && Apply(s, nd, step).levels[i] == DoWrite(l, w)
  {
    WriteFits(s, nd, step);
    if step.Unlink? {
      assert SwingKept(s, step.n) && RemovalOk(s, nd, step.n);
    }
  }

  /** A node retired before is not among them. */
  lemma {:induction false} RetiredIsNotSeen(s: State, nd: Nodes, moves: seq<Move>, k: nat, i: nat, n: Node)
    requires Quiet(s, nd) && CanMove(s, nd, moves) && Untroubled(s, nd, moves) && k <= |moves| && i < MAX_HEIGHT && IsRetired(s, n)
    ensures n !in Seen(s, nd, moves, k, i)
    decreases k
  {
    var t := StateAt(s, nd, moves, k);
    MovesKeepQuiet(s, nd, moves, k);
    MovesKeepRetired(s, nd, moves, k, n);
    assert Safe(t, i) && SafeAt(t, n, i) && Valid(t.levels[i], nd.key);
    LinkedIsReached(t.levels[i], nd.key, n);
    if k > 0 {
      RetiredIsNotSeen(s, nd, moves, k - 1, i, n);
    }
  }

  // ------------------------------------------------------------------
  // What the lookup holds
  // ------------------------------------------------------------------

  predicate Holds(r: Lookup, n: Node) {
    || (IsAt(r) && r.pred == n)
    || ((r.Inspecting? || r.Checking?) && r.curr == n)
    || (r.Found? && r.node == n)
  }

  /** Its nodes have been seen on the chain of its level; before it has read the
      pointer, if it is going to read it at all. */
  ghost predicate HoldsSeen(s: State, nd: Nodes, moves: seq<Move>, k: nat, r: Lookup)
    requires |s.levels| == MAX_HEIGHT && CanMove(s, nd, moves) && k <= |moves|
  {
    IsAt(r) ==>
      && r.level < MAX_HEIGHT
      && (r.pred in Seen(s, nd, moves, k, r.level) || (r.Entering? && Slot(StateAt(s, nd, moves, k).levels[r.level], r.pred).marked))
      && (!r.Entering? ==> r.curr in Seen(s, nd, moves, k, r.level))
  }

  /** One level down it has been seen, or is marked. */
  lemma SeenBelow(s: State, nd: Nodes, moves: seq<Move>, k: nat, i: nat, c: Node)
    requires Quiet(s, nd) && CanMove(s, nd, moves) && Untroubled(s, nd, moves) && k <= |moves| && 0 < i < MAX_HEIGHT
    requires c in Seen(s, nd, moves, k, i) && c != TAIL
    ensures HoldsSeen(s, nd, moves, k, Entering(i - 1, c))
  {
    var t := StateAt(s, nd, moves, k);
    var l := t.levels[i - 1];
    SeenLeadsToSeen(s, nd, moves, k, i, c);
    MovesKeepQuiet(s, nd, moves, k);
    assert LadderOk(t, c, i) && Valid(l, nd.key) && LeadsOn(l, c) && NodeOk(l, c);
  }

  /** A read leads from nodes that have been seen to such nodes. */
  lemma ReadHoldsSeen(s: State, nd: Nodes, moves: seq<Move>, k: nat, key: int, r: Lookup, n: Node)
    requires Quiet(s, nd) && CanMove(s, nd, moves) && Untroubled(s, nd, moves) && k <= |moves| && IsRetired(s, n)
    requires HoldsSeen(s, nd, moves, k, r) && LookOk(StateAt(s, nd, moves, k), nd, key, r) && InRange(r) && !Holds(r, n)
    requires Inv(StateAt(s, nd, moves, k), nd)
    ensures var r' := Read(StateAt(s, nd, moves, k), nd, key, r); HoldsSeen(s, nd, moves, k, r') && !Holds(r', n)
  {
    var t := StateAt(s, nd, moves, k);
    if IsAt(r) {
      RetiredIsNotSeen(s, nd, moves, k, r.level, n);
      match r
      case Entering(i, pred) =>
        if Slot(t.levels[i], pred).marked {
          HeadIsSeen(s, nd, moves, k, t.headHeight - 1);
          RetiredIsNotSeen(s, nd, moves, k, t.headHeight - 1, n);
        } else {
          SeenLeadsToSeen(s, nd, moves, k, i, pred);
        }
      case Inspecting(i, pred, curr) =>
        if curr != TAIL {
          SeenLeadsToSeen(s, nd, moves, k, i, curr);
        }
        if i > 0 {
          SeenBelow(s, nd, moves, k, i, pred);
        }
      case Checking(i, pred, _) =>
        if i > 0 {
          SeenBelow(s, nd, moves, k, i, pred);
        }
    }
  }

  lemma HeadIsSeen(s: State, nd: Nodes, moves: seq<Move>, k: nat, i: nat)
    requires Quiet(s, nd) && CanMove(s, nd, moves) && Untroubled(s, nd, moves) && k <= |moves| && i < MAX_HEIGHT
    ensures HEAD in Seen(s, nd, moves, k, i)
  {
    MovesKeepQuiet(s, nd, moves, k);
    assert Valid(StateAt(s, nd, moves, k).levels[i], nd.key);
  }

  /** Steps of others take nothing out of what has been seen, and no mark from a
      node it is about to enter a level at. */
  lemma StepHoldsSeen(s: State, nd: Nodes, moves: seq<Move>, k: nat, key: int, r: Lookup)
    requires Quiet(s, nd) && CanMove(s, nd, moves) && k < |moves| && moves[k].Env?
    requires HoldsSeen(s, nd, moves, k, r) && LookOk(StateAt(s, nd, moves, k), nd, key, r)
    ensures HoldsSeen(s, nd, moves, k + 1, r)
  {
    MoveStep(s, nd, 0, Absent, moves, k);
    if r.Entering? {
      var t := StateAt(s, nd, moves, k);
      StepKeepsLevel(t, nd, moves[k].step, r.level);
      assert NodeEvolves(t.levels[r.level], StateAt(s, nd, moves, k + 1).levels[r.level], r.pred);
    }
  }

  lemma {:induction false} LookupHoldsSeen(s: State, nd: Nodes, key: int, moves: seq<Move>, k: nat, n: Node)
    requires Quiet(s, nd) && CanMove(s, nd, moves) && Untroubled(s, nd, moves) && k <= |moves| && IsRetired(s, n)
    requires s.headHeight <= MAX_HEIGHT
    ensures var r := LookAt(s, nd, key, Top(s), moves, k); HoldsSeen(s, nd, moves, k, r) && !Holds(r, n)
    decreases k
  {
    TopIsOk(s, nd, key);
    if k == 0 {
      HeadIsSeen(s, nd, moves, 0, Top(s).level);
      RetiredIsNotSeen(s, nd, moves, 0, Top(s).level, n);
    } else {
      LookupHoldsSeen(s, nd, key, moves, k - 1, n);
      MoveStep(s, nd, key, Top(s), moves, k - 1);
      var r := LookAt(s, nd, key, Top(s), moves, k - 1);
      match moves[k - 1]
      case Env(_) =>
        StepHoldsSeen(s, nd, moves, k - 1, key, r);
      case Reading =>
        ReadHoldsSeen(s, nd, moves, k - 1, key, r, n);
        SameSeen(s, nd, moves, k - 1, Read(StateAt(s, nd, moves, k - 1), nd, key, r));
    }
  }

  lemma SameSeen(s: State, nd: Nodes, moves: seq<Move>, k: nat, r: Lookup)
    requires |s.levels| == MAX_HEIGHT && CanMove(s, nd, moves) && k < |moves| && HoldsSeen(s, nd, moves, k, r)
    requires StateAt(s, nd, moves, k + 1) == StateAt(s, nd, moves, k)
    ensures HoldsSeen(s, nd, moves, k + 1, r)
  {
  }

  /** Retire a node in any run, start a lookup after that, and interleave its reads
      with any steps of any other threads: it never holds the node, as long as no
      mark is erased and no remover overtaken. */
  lemma NeverHeldAgain(nd: Nodes, run: seq<Step>, key: int, moves: seq<Move>, k: nat, n: Node)
    requires IsRun(Init(), nd, run) && CanMove(After(Init(), nd, run, |run|), nd, moves) && k <= |moves|
    requires IsRetired(After(Init(), nd, run, |run|), n) && After(Init(), nd, run, |run|).headHeight <= MAX_HEIGHT
    requires NeverErases(nd, run, |run|) && forall i :: 0 <= i < MAX_HEIGHT ==> NeverSpoiled(nd, run, |run|, i)
    requires Untroubled(After(Init(), nd, run, |run|), nd, moves)
    ensures var s := After(Init(), nd, run, |run|); !Holds(LookAt(s, nd, key, Top(s), moves, k), n)
  {
    var s := After(Init(), nd, run, |run|);
    RunKeepsKept(nd, run, |run|);
    forall i | 0 <= i < MAX_HEIGHT
      ensures Safe(s, i)
    {
      RunIsSafeIff(nd, run, |run|, i);
      assert AllWell(nd, run, |run|, i) && SafeUntil(nd, run, |run|, i);
    }
    LookupHoldsSeen(s, nd, key, moves, k, n);
  }

  // ------------------------------------------------------------------
  // Who can rely on it
  // ------------------------------------------------------------------

  /** Among the moves nodes are only marked once their insert has returned. */
  ghost predicate MarksOnlyInserted(s: State, nd: Nodes, moves: seq<Move>)
    requires |s.levels| == MAX_HEIGHT && CanMove(s, nd, moves)
    decreases |moves|
  {
    moves == [] ||
    (match moves[0]
     case Env(step) => (step.Mark? ==> InsertReturned(s, nd, step.n)) && MarksOnlyInserted(Apply(s, nd, step), nd, moves[1..])
     case Reading => MarksOnlyInserted(s, nd, moves[1..]))
  }

  lemma {:induction false} InsertedFirstIsUntroubled(s: State, nd: Nodes, moves: seq<Move>)
    requires Inv(s, nd) && CanMove(s, nd, moves) && RemovalsFollowInserts(s, nd) && MarksOnlyInserted(s, nd, moves)
    ensures Untroubled(s, nd, moves)
    decreases |moves|
  {
    if moves != [] {
      match moves[0]
      case Env(step) =>
        StepKeepsInv(s, nd, step);
        StepKeepsRemovalsFollowInserts(s, nd, step);
        InsertedFirstIsUntroubled(Apply(s, nd, step), nd, moves[1..]);
      case Reading =>
        InsertedFirstIsUntroubled(s, nd, moves[1..]);
    }
  }

  /** Callers who never remove a node before its insert has returned: whoever
      starts a lookup after a node was retired never holds it. */
  lemma InsertedFirstIsNeverHeldAgain(nd: Nodes, run: seq<Step>, key: int, moves: seq<Move>, k: nat, n: Node)
    requires IsRun(Init(), nd, run) && CanMove(After(Init(), nd, run, |run|), nd, moves) && k <= |moves|
    requires IsRetired(After(Init(), nd, run, |run|), n) && After(Init(), nd, run, |run|).headHeight <= MAX_HEIGHT
    requires RemovesOnlyInserted(nd, run, |run|) && MarksOnlyInserted(After(Init(), nd, run, |run|), nd, moves)
    ensures var s := After(Init(), nd, run, |run|); !Holds(LookAt(s, nd, key, Top(s), moves, k), n)
  {
    var s := After(Init(), nd, run, |run|);
    InitInv(nd);
    RunKeepsInv(Init(), nd, run, |run|);
    forall i | 0 <= i < MAX_HEIGHT
      ensures NeverErases(nd, run, |run|) && NeverSpoiled(nd, run, |run|, i) && RemovalsFollowInserts(s, nd)
    {
      InsertedFirstIsNeverSpoiled(nd, run, |run|, i);
    }
    assert NeverSpoiled(nd, run, |run|, 0);
    InsertedFirstIsUntroubled(s, nd, moves);
    NeverHeldAgain(nd, run, key, moves, k, n);
  }
}
