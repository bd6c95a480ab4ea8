/**
  What a lookup that runs beside the writers may report.

  The lookup goes down from the top level, read by read, and any steps of other
  threads come in between.  A node it reports was in the list at some moment of
  the walk unless it had become a stray.  "Absent" is right at the moment of the
  last read unless a node with the key slipped in behind the walk, and right at
  some moment unless that node was a second one -- so always, as long as no
  duplicate has ever been inserted.
 */
module Lookups {
  import opened LevelChain
  import opened Removing
  import opened LockFree
  import opened Erasure
  import opened Membership
  import opened Strays

  /** Where a lookup stands: about to load its predecessor's pointer at a level,
      about to inspect the node it leads to, or -- having seen the key there --
      about to read the flag that says whether duplicates were ever linked. */
  datatype Lookup =
    | Entering(level: nat, pred: Node)
    | Inspecting(level: nat, pred: Node, curr: Node)
    | Checking(level: nat, pred: Node, curr: Node)
    | Found(level: nat, node: Node)
    | Absent

  predicate IsAt(r: Lookup) {
    r.Entering? || r.Inspecting? || r.Checking?
  }

  predicate InRange(r: Lookup) {
    IsAt(r) ==> r.level < MAX_HEIGHT
  }

  /** The level is done: one level down, or the end. */
  function Down(level: nat, pred: Node): (r: Lookup)
    requires level < MAX_HEIGHT
    ensures InRange(r)
  {
    if level == 0 then Absent else Entering(level - 1, pred)
  }

  /** One read. */
  function Read(s: State, nd: Nodes, key: int, r: Lookup): (r': Lookup)
    requires |s.levels| == MAX_HEIGHT && 1 <= s.headHeight < MAX_HEIGHT && InRange(r)
    ensures InRange(r')
  {
    match r
    case Entering(i, pred) =>
      // a marked predecessor: once more from the top
      if Slot(s.levels[i], pred).marked then Entering(s.headHeight - 1, HEAD) else Inspecting(i, pred, Slot(s.levels[i], pred).ptr)
    case Inspecting(i, pred, curr) =>
      if curr == TAIL then Down(i, pred)
      else if Slot(s.levels[i], curr).marked then Inspecting(i, pred, Slot(s.levels[i], curr).ptr)
      else if nd.key(curr) == key then Checking(i, pred, curr)
      else if nd.key(curr) < key then Inspecting(i, curr, Slot(s.levels[i], curr).ptr)
      else Down(i, pred)
    case Checking(i, pred, curr) =>
      if s.hasDups && i > 0 then Entering(i - 1, pred) else Found(i, curr)
    case _ => r
  }

  /** What the nodes a lookup holds are known to be. */
  ghost predicate LookOk(s: State, nd: Nodes, key: int, r: Lookup)
    requires |s.levels| == MAX_HEIGHT
  {
    IsAt(r) ==>
      && r.level < MAX_HEIGHT && r.pred in s.levels[r.level].rank && r.pred != TAIL
      && (r.pred == HEAD || nd.key(r.pred) < key)
      && (!r.Entering? ==> r.curr in s.levels[r.level].rank && r.curr != HEAD)
      && (r.Checking? ==> r.curr != TAIL && nd.key(r.curr) == key)
  }

  /** At level 0 the walk has not gone past `a`, a member with the key. */
  ghost predicate NotPast(s: State, r: Lookup, a: Node)
    requires |s.levels| == MAX_HEIGHT
  {
    && !r.Absent?
    && (r.Inspecting? && r.level == 0 ==>
          a in s.levels[0].rank && r.curr in s.levels[0].rank && s.levels[0].rank[r.curr] <= s.levels[0].rank[a])
  }

  ghost predicate NonePast(s: State, nd: Nodes, key: int, r: Lookup)
    requires |s.levels| == MAX_HEIGHT
  {
    forall a :: Member(s, a) && nd.key(a) == key ==> NotPast(s, r, a)
  }

  ghost predicate Present(s: State, nd: Nodes, key: int)
    requires |s.levels| == MAX_HEIGHT
  {
    exists n :: Member(s, n) && nd.key(n) == key
  }

  lemma SlotIsRanked(s: State, nd: Nodes, level: nat, n: Node)
    requires Inv(s, nd) && level < MAX_HEIGHT && n in s.levels[level].rank && n != TAIL
    ensures n in s.levels[level].next && Slot(s.levels[level], n).ptr in s.levels[level].rank && Slot(s.levels[level], n).ptr != HEAD
    ensures level > 0 ==> n in s.levels[level - 1].rank
  {
    assert LevelOk(s, nd, level) && LeadsOn(s.levels[level], n) && LeadsOn(s.levels[level], Slot(s.levels[level], n).ptr);
    assert LadderOk(s, n, level);
  }

  lemma ReadKeepsLookOk(s: State, nd: Nodes, key: int, r: Lookup)
    requires Inv(s, nd) && LookOk(s, nd, key, r)
    ensures InRange(r) && LookOk(s, nd, key, Read(s, nd, key, r))
  {
    if IsAt(r) {
      SlotIsRanked(s, nd, r.level, r.pred);
      if !r.Entering? && r.curr != TAIL {
        SlotIsRanked(s, nd, r.level, r.curr);
      }
      if r.Entering? {
        assert LevelOk(s, nd, s.headHeight - 1);
      }
    }
  }

  /** The walk enters level 0 from an unmarked node with a smaller key, so
      before all members with the key. */
  lemma EntersBefore(s: State, nd: Nodes, key: int, pred: Node, a: Node)
    requires Inv(s, nd) && Member(s, a) && nd.key(a) == key && !Slot(s.levels[0], pred).marked
    requires LookOk(s, nd, key, Entering(0, pred))
    ensures NotPast(s, Inspecting(0, pred, Slot(s.levels[0], pred).ptr), a)
  {
    var l := s.levels[0];
    assert LevelOk(s, nd, 0) && LeadsOn(l, pred) && LeadsOn(l, a) && NodeOk(l, pred) && NodeOk(l, a);
    assert PairOk(l, nd.key, pred, a) && PairOk(l, nd.key, a, pred);
  }

  /** A read goes past no member with the key -- it does not conclude that there
      is none while there is one. */
  lemma ReadStaysBefore(s: State, nd: Nodes, key: int, r: Lookup, a: Node)
    requires Inv(s, nd) && LookOk(s, nd, key, r) && NotPast(s, r, a) && Member(s, a) && nd.key(a) == key
    ensures InRange(r) && NotPast(s, Read(s, nd, key, r), a)
  {
    if r.Entering? && r.level == 0 && !Slot(s.levels[0], r.pred).marked {
      EntersBefore(s, nd, key, r.pred, a);
    }
    if r.Inspecting? && r.level == 0 {
      var l := s.levels[0];
      assert LevelOk(s, nd, 0) && LeadsOn(l, r.curr) && LeadsOn(l, a) && NodeOk(l, a) && PairOk(l, nd.key, r.curr, a);
      assert PairOk(l, nd.key, TAIL, a);
    }
  }

  // ------------------------------------------------------------------
  // Reads and writes interleaved
  // ------------------------------------------------------------------

  datatype Move = Env(step: Step) | Reading

  predicate CanMove(s: State, nd: Nodes, moves: seq<Move>)
    requires |s.levels| == MAX_HEIGHT
    decreases |moves|
  {
    moves == [] ||
    (match moves[0]
     case Env(step) => Enabled(s, nd, step) && CanMove(Apply(s, nd, step), nd, moves[1..])
     case Reading => 1 <= s.headHeight < MAX_HEIGHT && CanMove(s, nd, moves[1..]))
  }

  /** The lookup's outcome when its reads are interleaved with others' steps. */
  function Outcome(s: State, nd: Nodes, key: int, r: Lookup, moves: seq<Move>): Lookup
    requires |s.levels| == MAX_HEIGHT && CanMove(s, nd, moves) && InRange(r)
    decreases |moves|
  {
    if moves == [] then r else
    match moves[0]
    case Env(step) => Outcome(Apply(s, nd, step), nd, key, r, moves[1..])
    case Reading => Outcome(s, nd, key, Read(s, nd, key, r), moves[1..])
  }

  /** The shared state after the first `k` moves. */
  function StateAt(s: State, nd: Nodes, moves: seq<Move>, k: nat): (s': State)
    requires |s.levels| == MAX_HEIGHT && CanMove(s, nd, moves) && k <= |moves|
    ensures |s'.levels| == MAX_HEIGHT
    decreases k
  {
    if k == 0 then s else
    match moves[0]
    case Env(step) => StateAt(Apply(s, nd, step), nd, moves[1..], k - 1)
    case Reading => StateAt(s, nd, moves[1..], k - 1)
  }

  lemma StepKeepsLookOk(s: State, nd: Nodes, step: Step, key: int, r: Lookup)
    requires Inv(s, nd) && Enabled(s, nd, step) && LookOk(s, nd, key, r)
    ensures LookOk(Apply(s, nd, step), nd, key, r)
  {
    if IsAt(r) {
      StepKeepsLevel(s, nd, step, r.level);
      assert NodeEvolves(s.levels[r.level], Apply(s, nd, step).levels[r.level], r.pred);
      if !r.Entering? {
        assert NodeEvolves(s.levels[r.level], Apply(s, nd, step).levels[r.level], r.curr);
      }
    }
  }

  /** Where the lookup stands after the first `k` moves. */
  function LookAt(s: State, nd: Nodes, key: int, r: Lookup, moves: seq<Move>, k: nat): (r': Lookup)
    requires |s.levels| == MAX_HEIGHT && CanMove(s, nd, moves) && InRange(r) && k <= |moves|
    ensures InRange(r')
    decreases k
  {
    if k == 0 then r else
    match moves[0]
    case Env(step) => LookAt(Apply(s, nd, step), nd, key, r, moves[1..], k - 1)
    case Reading => LookAt(s, nd, key, Read(s, nd, key, r), moves[1..], k - 1)
  }

  lemma {:induction false} OutcomeIsLast(s: State, nd: Nodes, key: int, r: Lookup, moves: seq<Move>)
    requires |s.levels| == MAX_HEIGHT && CanMove(s, nd, moves) && InRange(r)
    ensures Outcome(s, nd, key, r, moves) == LookAt(s, nd, key, r, moves, |moves|)
    decreases |moves|
  {
    if moves != [] {
      match moves[0]
      case Env(step) => OutcomeIsLast(Apply(s, nd, step), nd, key, r, moves[1..]);
      case Reading => OutcomeIsLast(s, nd, key, Read(s, nd, key, r), moves[1..]);
    }
  }

  /** One move more. */
  lemma {:induction false} MoveStep(s: State, nd: Nodes, key: int, r: Lookup, moves: seq<Move>, k: nat)
    requires Inv(s, nd) && CanMove(s, nd, moves) && InRange(r) && LookOk(s, nd, key, r) && k < |moves|
    ensures var t, q := StateAt(s, nd, moves, k), LookAt(s, nd, key, r, moves, k);
            && Inv(t, nd) && LookOk(t, nd, key, q)
            && (match moves[k]
                case Env(step) =>
                  && Enabled(t, nd, step) && StateAt(s, nd, moves, k + 1) == Apply(t, nd, step)
                  && LookAt(s, nd, key, r, moves, k + 1) == q
                case Reading =>
                  && StateAt(s, nd, moves, k + 1) == t
                  && LookAt(s, nd, key, r, moves, k + 1) == Read(t, nd, key, q))
    decreases k
  {
    if k > 0 {
      match moves[0]
      case Env(step) =>
        StepKeepsInv(s, nd, step);
        StepKeepsLookOk(s, nd, step, key, r);
        MoveStep(Apply(s, nd, step), nd, key, r, moves[1..], k - 1);
      case Reading =>
        ReadKeepsLookOk(s, nd, key, r);
        MoveStep(s, nd, key, Read(s, nd, key, r), moves[1..], k - 1);
    }
  }

  // ------------------------------------------------------------------
  // "Absent"
  // ------------------------------------------------------------------

  /** A step links a node with the key behind the walk, which is on level 0. */
  predicate SlipsIn(s: State, nd: Nodes, step: Step, key: int, r: Lookup)
    requires |s.levels| == MAX_HEIGHT
  {
    && step.LinkBase? && nd.key(step.n) == key && r.Inspecting? && r.level == 0
    && step.pred in s.levels[0].rank && r.curr in s.levels[0].rank
    && s.levels[0].rank[step.pred] < s.levels[0].rank[r.curr]
  }

  /** Whether the walk has gone past a member with the key, after a step. */
  lemma NotPastAfterIff(s: State, nd: Nodes, step: Step, key: int, r: Lookup, a: Node)
    requires Inv(s, nd) && Enabled(s, nd, step) && LookOk(s, nd, key, r) && !r.Absent?
    requires Member(Apply(s, nd, step), a) && nd.key(a) == key
    ensures NotPast(Apply(s, nd, step), r, a) <==>
            if step.LinkBase? && step.n == a then !SlipsIn(s, nd, step, key, r) else NotPast(s, r, a)
  {
    var s' := Apply(s, nd, step);
    StepKeepsLevel(s, nd, step, 0);
    MembershipChanges(s, nd, step, a);
    if r.Inspecting? && r.level == 0 {
      assert NodeEvolves(s.levels[0], s'.levels[0], r.curr);
      if step.LinkBase? && step.n == a {
        LinkedBehindIff(s, nd, step, r.curr);
      } else {
        assert NodeEvolves(s.levels[0], s'.levels[0], a);
        assert OrderEvolves(s.levels[0], s'.levels[0], r.curr, a) && OrderEvolves(s.levels[0], s'.levels[0], a, r.curr);
      }
    }
  }

  lemma LinkedBehindIff(s: State, nd: Nodes, step: Step, curr: Node)
    requires Inv(s, nd) && Enabled(s, nd, step) && step.LinkBase? && curr in s.levels[0].rank
    ensures var l := Apply(s, nd, step).levels[0];
            && step.n in l.rank && curr in l.rank
            && (l.rank[curr] <= l.rank[step.n] <==> s.levels[0].rank[curr] <= s.levels[0].rank[step.pred])
  {
  }

  /** From a walk that has gone past no member with the key, the one step that
      puts one behind it. */
  lemma NonePastAfterIff(s: State, nd: Nodes, step: Step, key: int, r: Lookup)
    requires Inv(s, nd) && Enabled(s, nd, step) && LookOk(s, nd, key, r) && NonePast(s, nd, key, r) && !r.Absent?
    ensures NonePast(Apply(s, nd, step), nd, key, r) <==> !SlipsIn(s, nd, step, key, r)
  {
    var s' := Apply(s, nd, step);
    forall a | Member(s', a) && nd.key(a) == key
      ensures NotPast(s', r, a) <==> !(step.LinkBase? && step.n == a && SlipsIn(s, nd, step, key, r))
    {
      NotPastAfterIff(s, nd, step, key, r, a);
      MembershipChanges(s, nd, step, a);
      assert Member(s, a) ==> NotPast(s, r, a);
    }
    if SlipsIn(s, nd, step, key, r) {
      MembershipChanges(s, nd, step, step.n);
      assert !NotPast(s', r, step.n);
    }
  }

  /** The `i`-th move slips in a node with the key. */
  ghost predicate SlipsInAt(s: State, nd: Nodes, key: int, r: Lookup, moves: seq<Move>, i: nat)
    requires |s.levels| == MAX_HEIGHT && CanMove(s, nd, moves) && InRange(r) && i < |moves|
  {
    moves[i].Env? && SlipsIn(StateAt(s, nd, moves, i), nd, moves[i].step, key, LookAt(s, nd, key, r, moves, i))
  }

  lemma PastBefore(s: State, nd: Nodes, step: Step, key: int, r: Lookup, a: Node)
    requires Inv(s, nd) && Enabled(s, nd, step) && LookOk(s, nd, key, r) && !r.Absent?
    requires Member(Apply(s, nd, step), a) && nd.key(a) == key && !NotPast(Apply(s, nd, step), r, a)
    ensures if step.LinkBase? && step.n == a then SlipsIn(s, nd, step, key, r) else Member(s, a) && !NotPast(s, r, a)
  {
    NotPastAfterIff(s, nd, step, key, r, a);
    MembershipChanges(s, nd, step, a);
  }

  /** A member with the key that the walk has gone past has slipped in. */
  lemma {:induction false} PastSlippedIn(s: State, nd: Nodes, key: int, r: Lookup, moves: seq<Move>, k: nat, a: Node) returns (i: nat)
    requires Inv(s, nd) && CanMove(s, nd, moves) && InRange(r) && LookOk(s, nd, key, r) && NonePast(s, nd, key, r) && k <= |moves|
    requires Member(StateAt(s, nd, moves, k), a) && nd.key(a) == key
    requires !LookAt(s, nd, key, r, moves, k).Absent?
    requires !NotPast(StateAt(s, nd, moves, k), LookAt(s, nd, key, r, moves, k), a)
    ensures i < k && SlipsInAt(s, nd, key, r, moves, i) && moves[i].step.n == a
    decreases k
  {
    i := 0;
    if k > 0 {
      MoveStep(s, nd, key, r, moves, k - 1);
      var t, q := StateAt(s, nd, moves, k - 1), LookAt(s, nd, key, r, moves, k - 1);
      match moves[k - 1]
      case Env(step) =>
        PastBefore(t, nd, step, key, q, a);
        if step.LinkBase? && step.n == a {
          i := k - 1;
        } else {
          i := PastSlippedIn(s, nd, key, r, moves, k - 1, a);
        }
      case Reading =>
        if NotPast(t, q, a) {
          ReadStaysBefore(t, nd, key, q, a);
        }
        i := PastSlippedIn(s, nd, key, r, moves, k - 1, a);
    }
  }

  /** The move with which the answer becomes "absent". */
  lemma {:induction false} LastRead(s: State, nd: Nodes, key: int, r: Lookup, moves: seq<Move>, j: nat) returns (k: nat)
    requires Inv(s, nd) && CanMove(s, nd, moves) && InRange(r) && LookOk(s, nd, key, r) && !r.Absent?
    requires j <= |moves| && LookAt(s, nd, key, r, moves, j).Absent?
    ensures k < j && moves[k].Reading?
    ensures !LookAt(s, nd, key, r, moves, k).Absent? && LookAt(s, nd, key, r, moves, k + 1).Absent?
    decreases j
  {
    if LookAt(s, nd, key, r, moves, j - 1).Absent? {
      k := LastRead(s, nd, key, r, moves, j - 1);
    } else {
      k := j - 1;
      MoveStep(s, nd, key, r, moves, k);
    }
  }

  /** "Absent" is wrong at the moment of the last read if and only if a node that
      slipped in is in the list then. */
  lemma AbsentIsWrongIff(s: State, nd: Nodes, key: int, r: Lookup, moves: seq<Move>) returns (k: nat)
    requires Inv(s, nd) && CanMove(s, nd, moves) && InRange(r) && LookOk(s, nd, key, r) && NonePast(s, nd, key, r) && !r.Absent?
    requires Outcome(s, nd, key, r, moves).Absent?
    ensures k < |moves| && moves[k].Reading?
    ensures !LookAt(s, nd, key, r, moves, k).Absent? && LookAt(s, nd, key, r, moves, k + 1).Absent?
    ensures Present(StateAt(s, nd, moves, k), nd, key) <==>
            exists i :: 0 <= i < k && SlipsInAt(s, nd, key, r, moves, i) && Member(StateAt(s, nd, moves, k), moves[i].step.n)
  {
    OutcomeIsLast(s, nd, key, r, moves);
    k := LastRead(s, nd, key, r, moves, |moves|);
    var t, q := StateAt(s, nd, moves, k), LookAt(s, nd, key, r, moves, k);
    MoveStep(s, nd, key, r, moves, k);
    if Present(t, nd, key) {
      var a :| Member(t, a) && nd.key(a) == key;
      if NotPast(t, q, a) {
        ReadStaysBefore(t, nd, key, q, a);
      }
      var i := PastSlippedIn(s, nd, key, r, moves, k, a);
      assert 0 <= i < k && SlipsInAt(s, nd, key, r, moves, i) && Member(t, moves[i].step.n);
    }
  }

  /** A second node with the key slips in. */
  ghost predicate DoublesAt(s: State, nd: Nodes, key: int, r: Lookup, moves: seq<Move>, i: nat)
    requires |s.levels| == MAX_HEIGHT && CanMove(s, nd, moves) && InRange(r) && i < |moves|
  {
    SlipsInAt(s, nd, key, r, moves, i) && Present(StateAt(s, nd, moves, i), nd, key)
  }

  ghost predicate NeverDoubles(s: State, nd: Nodes, key: int, r: Lookup, moves: seq<Move>)
    requires |s.levels| == MAX_HEIGHT && CanMove(s, nd, moves) && InRange(r)
  {
    forall i :: 0 <= i < |moves| ==> !DoublesAt(s, nd, key, r, moves, i)
  }

  /** A lookup that answers "absent" is right at some moment of its walk, unless a
      second node with the key slips in behind it.  Puts and removals of the key
      in between do no harm. */
  lemma AbsentWasAbsent(s: State, nd: Nodes, key: int, r: Lookup, moves: seq<Move>) returns (k: nat)
    requires Inv(s, nd) && CanMove(s, nd, moves) && InRange(r) && LookOk(s, nd, key, r) && NonePast(s, nd, key, r) && !r.Absent?
    requires NeverDoubles(s, nd, key, r, moves) && Outcome(s, nd, key, r, moves).Absent?
    ensures k <= |moves| && !Present(StateAt(s, nd, moves, k), nd, key)
  {
    k := AbsentIsWrongIff(s, nd, key, r, moves);
    if Present(StateAt(s, nd, moves, k), nd, key) {
      var i :| 0 <= i < k && SlipsInAt(s, nd, key, r, moves, i) && Member(StateAt(s, nd, moves, k), moves[i].step.n);
      assert !DoublesAt(s, nd, key, r, moves, i);
      k := i;
    }
  }

  /** Linking a key that is there takes the duplicates flag. */
  lemma DoublingIsFlagged(s: State, nd: Nodes, step: Step)
    requires Inv(s, nd) && Enabled(s, nd, step) && step.LinkBase? && Present(s, nd, nd.key(step.n))
    ensures s.hasDups
  {
    var l := s.levels[0];
    var a :| Member(s, a) && nd.key(a) == nd.key(step.n);
    assert LevelOk(s, nd, 0) && NodeOk(l, a) && LeadsOn(l, a) && InsertOk(s, nd, step.n, 0);
    if !s.hasDups {
      NewKeyDiffers(l, nd.key, step.pred, step.succ, step.n);
    }
  }

  lemma {:induction false} FlagStays(s: State, nd: Nodes, key: int, r: Lookup, moves: seq<Move>, i: nat, j: nat)
    requires Inv(s, nd) && CanMove(s, nd, moves) && InRange(r) && LookOk(s, nd, key, r) && i <= j <= |moves|
    requires StateAt(s, nd, moves, i).hasDups
    ensures StateAt(s, nd, moves, j).hasDups
    decreases j
  {
    if i < j {
      FlagStays(s, nd, key, r, moves, i, j - 1);
      MoveStep(s, nd, key, r, moves, j - 1);
    }
  }

  /** As long as no duplicate has been inserted, no second node slips in. */
  lemma UnflaggedNeverDoubles(s: State, nd: Nodes, key: int, r: Lookup, moves: seq<Move>)
    requires Inv(s, nd) && CanMove(s, nd, moves) && InRange(r) && LookOk(s, nd, key, r)
    requires !StateAt(s, nd, moves, |moves|).hasDups
    ensures NeverDoubles(s, nd, key, r, moves)
  {
    forall i | 0 <= i < |moves|
      ensures !DoublesAt(s, nd, key, r, moves, i)
    {
      if DoublesAt(s, nd, key, r, moves, i) {
        MoveStep(s, nd, key, r, moves, i);
        DoublingIsFlagged(StateAt(s, nd, moves, i), nd, moves[i].step);
        FlagStays(s, nd, key, r, moves, i, |moves|);
      }
    }
  }

  // ------------------------------------------------------------------
  // "Found"
  // ------------------------------------------------------------------

  /** What a lookup that reports a node has seen of it. */
  predicate WasSeen(s: State, nd: Nodes, key: int, level: nat, n: Node)
    requires |s.levels| == MAX_HEIGHT
  {
    && nd.key(n) == key && n != HEAD && n != TAIL && level < MAX_HEIGHT
    && n in s.levels[level].rank && !Slot(s.levels[level], n).marked
  }

  /** A lookup that answers with a node has seen it unmarked at the level it
      says. */
  lemma {:induction false} FoundWasSeen(s: State, nd: Nodes, key: int, r: Lookup, moves: seq<Move>) returns (k: nat)
    requires Inv(s, nd) && CanMove(s, nd, moves) && LookOk(s, nd, key, r) && InRange(r) && !r.Found?
    requires Outcome(s, nd, key, r, moves).Found?
    ensures k <= |moves|
    ensures (r.Checking? && Outcome(s, nd, key, r, moves) == Found(r.level, r.curr)) ||
            WasSeen(StateAt(s, nd, moves, k), nd, key, Outcome(s, nd, key, r, moves).level, Outcome(s, nd, key, r, moves).node)
    decreases |moves|
  {
    match moves[0]
    case Reading =>
      var r' := Read(s, nd, key, r);
      ReadKeepsLookOk(s, nd, key, r);
      if r'.Found? {
        OutcomeIsFinal(s, nd, key, r', moves[1..]);
        k := 0;
      } else {
        k := FoundWasSeen(s, nd, key, r', moves[1..]);
        k := k + 1;
        if r'.Checking? && Outcome(s, nd, key, r', moves[1..]) == Found(r'.level, r'.curr) {
          SeenNow(s, nd, key, r);
          k := 0;
        }
      }
    case Env(step) =>
      StepKeepsInv(s, nd, step);
      StepKeepsLookOk(s, nd, step, key, r);
      k := FoundWasSeen(Apply(s, nd, step), nd, key, r, moves[1..]);
      k := k + 1;
  }

  /** The read that shows the key. */
  lemma SeenNow(s: State, nd: Nodes, key: int, r: Lookup)
    requires Inv(s, nd) && LookOk(s, nd, key, r) && InRange(r) && !r.Checking? && Read(s, nd, key, r).Checking?
    ensures var c := Read(s, nd, key, r); WasSeen(s, nd, key, c.level, c.curr)
  {
  }

  lemma {:induction false} OutcomeIsFinal(s: State, nd: Nodes, key: int, r: Lookup, moves: seq<Move>)
    requires |s.levels| == MAX_HEIGHT && CanMove(s, nd, moves) && !IsAt(r)
    ensures Outcome(s, nd, key, r, moves) == r
    decreases |moves|
  {
    if moves != [] {
      match moves[0]
      case Reading => OutcomeIsFinal(s, nd, key, r, moves[1..]);
      case Env(step) => OutcomeIsFinal(Apply(s, nd, step), nd, key, r, moves[1..]);
    }
  }

  /** Nor are there any in between, if none of the other threads erases one. */
  predicate Unerased(s: State, nd: Nodes, moves: seq<Move>)
    requires |s.levels| == MAX_HEIGHT && CanMove(s, nd, moves)
    decreases |moves|
  {
    moves == [] ||
    (match moves[0]
     case Env(step) => !Erases(s, step) && Unerased(Apply(s, nd, step), nd, moves[1..])
     case Reading => Unerased(s, nd, moves[1..]))
  }

  lemma {:induction false} MovesKeepKept(s: State, nd: Nodes, moves: seq<Move>, k: nat)
    requires Kept(s, nd) && CanMove(s, nd, moves) && Unerased(s, nd, moves) && k <= |moves|
    ensures Kept(StateAt(s, nd, moves, k), nd)
    decreases k
  {
    if k > 0 {
      match moves[0]
      case Env(step) =>
        StepKeepsKept(s, nd, step);
        MovesKeepKept(Apply(s, nd, step), nd, moves[1..], k - 1);
      case Reading =>
        MovesKeepKept(s, nd, moves[1..], k - 1);
    }
  }

  /** The other threads' steps among the moves. */
  function StepsOf(moves: seq<Move>): seq<Step> {
    if moves == [] then [] else
      var m := moves[|moves| - 1];
      StepsOf(moves[..|moves| - 1]) + if m.Env? then [m.step] else []
  }

  /** They continue the run. */
  lemma {:induction false} MovesAreRun(nd: Nodes, run: seq<Step>, moves: seq<Move>, k: nat)
    requires IsRun(Init(), nd, run) && CanMove(After(Init(), nd, run, |run|), nd, moves) && k <= |moves|
    ensures var all := run + StepsOf(moves[..k]);
            && IsRun(Init(), nd, all)
            && After(Init(), nd, all, |all|) == StateAt(After(Init(), nd, run, |run|), nd, moves, k)
    decreases k
  {
    if k == 0 {
      assert run + StepsOf(moves[..0]) == run;
    } else {
      MovesAreRun(nd, run, moves, k - 1);
      MoveMore(nd, run, moves, k - 1);
    }
  }

  lemma MoveMore(nd: Nodes, run: seq<Step>, moves: seq<Move>, k: nat)
    requires IsRun(Init(), nd, run) && CanMove(After(Init(), nd, run, |run|), nd, moves) && k < |moves|
    requires var all := run + StepsOf(moves[..k]);
             && IsRun(Init(), nd, all)
             && After(Init(), nd, all, |all|) == StateAt(After(Init(), nd, run, |run|), nd, moves, k)
    ensures var all := run + StepsOf(moves[..k + 1]);
            && IsRun(Init(), nd, all)
            && After(Init(), nd, all, |all|) == StateAt(After(Init(), nd, run, |run|), nd, moves, k + 1)
  {
    var s, all := After(Init(), nd, run, |run|), run + StepsOf(moves[..k]);
    InitInv(nd);
    RunKeepsInv(Init(), nd, run, |run|);
    MoveStep(s, nd, 0, Absent, moves, k);
    OneStepMore(run, moves, k);
    if moves[k].Env? {
      RunMore(Init(), nd, all, moves[k].step);
    } else {
      assert all + [] == all;
    }
  }

  lemma OneStepMore(run: seq<Step>, moves: seq<Move>, k: nat)
    requires k < |moves|
    ensures run + StepsOf(moves[..k + 1]) == run + StepsOf(moves[..k]) + if moves[k].Env? then [moves[k].step] else []
  {
    assert moves[..k + 1][..k] == moves[..k];
  }

  // ------------------------------------------------------------------
  // Both answers, from any state any run can reach
  // ------------------------------------------------------------------

  /** The start of a lookup: the head, at the highest level in use. */
  function Top(s: State): (r: Lookup)
    requires s.headHeight <= MAX_HEIGHT
    ensures InRange(r)
  {
    Entering(if s.headHeight == 0 then 0 else s.headHeight - 1, HEAD)
  }

  lemma TopIsOk(s: State, nd: Nodes, key: int)
    requires Inv(s, nd)
    ensures LookOk(s, nd, key, Top(s)) && NonePast(s, nd, key, Top(s))
  {
    assert LevelOk(s, nd, s.headHeight - 1);
  }

  /** Start a lookup at the top of the list in any state any run can reach, and
      interleave its reads with any steps of any other threads.  "Absent" is
      right at some moment of the walk unless a second node with the key slips in
      behind it; a node it reports was in the list at some moment of the walk
      exactly if the run up to there had not made it a stray. */
  lemma LookupIsLinearizable(nd: Nodes, run: seq<Step>, key: int, moves: seq<Move>) returns (k: nat)
    requires IsRun(Init(), nd, run) && CanMove(After(Init(), nd, run, |run|), nd, moves)
    requires var s := After(Init(), nd, run, |run|);
             s.headHeight <= MAX_HEIGHT && !IsAt(Outcome(s, nd, key, Top(s), moves))
    ensures k <= |moves| && IsRun(Init(), nd, run + StepsOf(moves[..k]))
    ensures var s := After(Init(), nd, run, |run|);
            Outcome(s, nd, key, Top(s), moves).Absent? && NeverDoubles(s, nd, key, Top(s), moves) ==>
              !Present(StateAt(s, nd, moves, k), nd, key)
    ensures var s, all := After(Init(), nd, run, |run|), run + StepsOf(moves[..k]);
            var a := Outcome(s, nd, key, Top(s), moves);
            a.Found? ==>
              && WasSeen(StateAt(s, nd, moves, k), nd, key, a.level, a.node)
              && (Member(StateAt(s, nd, moves, k), a.node) <==> a.level == 0 || !MadeStray(nd, all, |all|, a.node, a.level))
  {
    var s := After(Init(), nd, run, |run|);
    InitInv(nd);
    RunKeepsInv(Init(), nd, run, |run|);
    TopIsOk(s, nd, key);
    k := 0;
    if Outcome(s, nd, key, Top(s), moves).Found? {
      k := FoundWasSeen(s, nd, key, Top(s), moves);
      SeenIsMemberIff(nd, run, key, moves, k, Outcome(s, nd, key, Top(s), moves).level, Outcome(s, nd, key, Top(s), moves).node);
    } else if NeverDoubles(s, nd, key, Top(s), moves) {
      k := AbsentWasAbsent(s, nd, key, Top(s), moves);
    }
    MovesAreRun(nd, run, moves, k);
  }

  lemma SeenIsMemberIff(nd: Nodes, run: seq<Step>, key: int, moves: seq<Move>, k: nat, level: nat, n: Node)
    requires IsRun(Init(), nd, run) && CanMove(After(Init(), nd, run, |run|), nd, moves) && k <= |moves|
    requires WasSeen(StateAt(After(Init(), nd, run, |run|), nd, moves, k), nd, key, level, n)
    ensures IsRun(Init(), nd, run + StepsOf(moves[..k]))
    ensures var all := run + StepsOf(moves[..k]);
            Member(StateAt(After(Init(), nd, run, |run|), nd, moves, k), n) <==> level == 0 || !MadeStray(nd, all, |all|, n, level)
  {
    var all := run + StepsOf(moves[..k]);
    MovesAreRun(nd, run, moves, k);
    InitInv(nd);
    RunKeepsInv(Init(), nd, all, |all|);
    UnmarkedIsMemberIff(After(Init(), nd, all, |all|), nd, n, level);
    if level > 0 {
      RunMadeStrayIff(nd, all, |all|, n, level);
    }
  }

  /** In a list that never holds a duplicate, and as long as no mark is erased,
      every answer of every lookup is right at some moment of its walk, whatever
      is put and removed beside it. */
  lemma LookupIsRight(nd: Nodes, run: seq<Step>, key: int, moves: seq<Move>) returns (k: nat)
    requires IsRun(Init(), nd, run) && CanMove(After(Init(), nd, run, |run|), nd, moves)
    requires var s := After(Init(), nd, run, |run|);
             s.headHeight <= MAX_HEIGHT && !IsAt(Outcome(s, nd, key, Top(s), moves))
    ensures k <= |moves|
    ensures var s := After(Init(), nd, run, |run|);
            Outcome(s, nd, key, Top(s), moves).Absent? && !StateAt(s, nd, moves, |moves|).hasDups ==>
              !Present(StateAt(s, nd, moves, k), nd, key)
    ensures var s := After(Init(), nd, run, |run|);
            var a := Outcome(s, nd, key, Top(s), moves);
            a.Found? && NeverErases(nd, run, |run|) && Unerased(s, nd, moves) ==>
              nd.key(a.node) == key && Member(StateAt(s, nd, moves, k), a.node)
  {
    var s := After(Init(), nd, run, |run|);
    InitInv(nd);
    RunKeepsInv(Init(), nd, run, |run|);
    TopIsOk(s, nd, key);
    if !StateAt(s, nd, moves, |moves|).hasDups {
      UnflaggedNeverDoubles(s, nd, key, Top(s), moves);
    }
    k := LookupIsLinearizable(nd, run, key, moves);
    if Outcome(s, nd, key, Top(s), moves).Found? && NeverErases(nd, run, |run|) && Unerased(s, nd, moves) {
      var Found(level, n) := Outcome(s, nd, key, Top(s), moves);
      RunKeepsKept(nd, run, |run|);
      MovesKeepKept(s, nd, moves, k);
      KeptHasNoStrays(StateAt(s, nd, moves, k), nd, n, level);
      UnmarkedIsMemberIff(StateAt(s, nd, moves, k), nd, n, level);
    }
  }
}
