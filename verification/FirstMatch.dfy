/**
  Which node a lookup answers with, where several have the key.

  Alone, it is the first of them.  Beside writers, the early exit on an upper
  level is taken only while no duplicate has ever been inserted; and a node found
  at level 0 was the first with its key when the walk saw it, unless another one
  had slipped in behind the walk.
 */
module FirstMatch {
  import opened LevelChain
  import opened LockFree
  import opened Erasure
  import opened Membership
  import opened Strays
  import opened Lookups

  ghost predicate HasKey(s: State, nd: Nodes, key: int, n: Node)
    requires |s.levels| == MAX_HEIGHT
  {
    Member(s, n) && nd.key(n) == key
  }

  ghost predicate IsBefore(s: State, a: Node, b: Node)
    requires |s.levels| == MAX_HEIGHT
  {
    a in s.levels[0].rank && b in s.levels[0].rank && s.levels[0].rank[a] < s.levels[0].rank[b]
  }

  /** No member with the key stands before `n`. */
  ghost predicate NoneBefore(s: State, nd: Nodes, key: int, n: Node)
    requires |s.levels| == MAX_HEIGHT
  {
    forall a :: HasKey(s, nd, key, a) ==> !IsBefore(s, a, n)
  }

  ghost predicate IsFirst(s: State, nd: Nodes, key: int, n: Node)
    requires |s.levels| == MAX_HEIGHT
  {
    HasKey(s, nd, key, n) && NoneBefore(s, nd, key, n)
  }

  // ------------------------------------------------------------------
  // A lookup that nobody disturbs
  // ------------------------------------------------------------------

  function Readings(n: nat): seq<Move> {
    if n == 0 then [] else [Reading] + Readings(n - 1)
  }

  /** Where an undisturbed lookup stands: its predecessor carries no mark on its
      level, and the node it compares, if it is done with that, is the one that
      the answer is about. */
  ghost predicate Undisturbed(s: State, nd: Nodes, key: int, r: Lookup)
    requires |s.levels| == MAX_HEIGHT
  {
    && LookOk(s, nd, key, r) && NonePast(s, nd, key, r)
    && (IsAt(r) ==> !Slot(s.levels[r.level], r.pred).marked)
    && (r.Checking? ==> !Slot(s.levels[r.level], r.curr).marked && (r.level == 0 ==> NoneBefore(s, nd, key, r.curr)))
    && (r.Found? ==> IsFirst(s, nd, key, r.node))
    && (r.Absent? ==> !Present(s, nd, key))
  }

  /** Marks go from the top down, so a node unmarked at a level is unmarked below. */
  lemma UnmarkedBelow(s: State, nd: Nodes, n: Node, i: nat)
    requires Kept(s, nd) && 0 < i < MAX_HEIGHT && n in s.levels[i].rank && n != TAIL && !Slot(s.levels[i], n).marked
    ensures !Slot(s.levels[i - 1], n).marked
  {
    InBase(s, nd, n, i);
    assert InsertOk(s, nd, n, i) && PassedOk(s, nd, n, i - 1) && StandsAt(s, nd, n, i);
    assert LevelOk(s, nd, i) && LeadsOn(s.levels[i], n) && LevelOk(s, nd, i - 1);
  }

  /** What was seen unmarked is in the list. */
  lemma SeenIsMember(s: State, nd: Nodes, n: Node, i: nat)
    requires Kept(s, nd) && i < MAX_HEIGHT && n in s.levels[i].rank && n != HEAD && n != TAIL && !Slot(s.levels[i], n).marked
    ensures Member(s, n)
  {
    UnmarkedIsMemberIff(s, nd, n, i);
    KeptHasNoStrays(s, nd, n, i);
  }

  /** While the flag is clear no two members have the same key. */
  lemma OnlyOne(s: State, nd: Nodes, a: Node, b: Node)
    requires Inv(s, nd) && FlagOk(s, nd) && !s.hasDups && Member(s, a) && Member(s, b) && nd.key(a) == nd.key(b)
    ensures a == b
  {
    assert LevelOk(s, nd, 0) && NodeOk(s.levels[0], a) && NodeOk(s.levels[0], b) && LeadsOn(s.levels[0], a) && LeadsOn(s.levels[0], b);
  }

  /** The read that compares. */
  lemma InspectIsUndisturbed(s: State, nd: Nodes, key: int, r: Lookup)
    requires Kept(s, nd) && FlagOk(s, nd) && Undisturbed(s, nd, key, r) && InRange(r) && r.Inspecting?
    ensures Undisturbed(s, nd, key, Read(s, nd, key, r))
  {
    var r' := Read(s, nd, key, r);
    ReadKeepsLookOk(s, nd, key, r);
    StaysBefore(s, nd, key, r);
    if r'.Entering? {
      UnmarkedBelow(s, nd, r.pred, r.level);
    }
  }

  lemma StaysBefore(s: State, nd: Nodes, key: int, r: Lookup)
    requires Inv(s, nd) && LookOk(s, nd, key, r) && NonePast(s, nd, key, r) && InRange(r)
    ensures NonePast(s, nd, key, Read(s, nd, key, r))
  {
    forall a | Member(s, a) && nd.key(a) == key
      ensures NotPast(s, Read(s, nd, key, r), a)
    {
      ReadStaysBefore(s, nd, key, r, a);
    }
  }

  /** The read of the predecessor's pointer: no restart is needed. */
  lemma EnterIsUndisturbed(s: State, nd: Nodes, key: int, r: Lookup)
    requires Kept(s, nd) && Undisturbed(s, nd, key, r) && InRange(r) && r.Entering?
    ensures Read(s, nd, key, r).Inspecting? && Read(s, nd, key, r).level == r.level && Undisturbed(s, nd, key, Read(s, nd, key, r))
  {
    ReadKeepsLookOk(s, nd, key, r);
    StaysBefore(s, nd, key, r);
  }

  /** The read of the flag. */
  lemma CheckIsUndisturbed(s: State, nd: Nodes, key: int, r: Lookup)
    requires Kept(s, nd) && FlagOk(s, nd) && Undisturbed(s, nd, key, r) && InRange(r) && r.Checking? && r.curr != HEAD
    ensures Undisturbed(s, nd, key, Read(s, nd, key, r))
  {
    ReadKeepsLookOk(s, nd, key, r);
    StaysBefore(s, nd, key, r);
    SeenIsMember(s, nd, r.curr, r.level);
    if s.hasDups && r.level > 0 {
      UnmarkedBelow(s, nd, r.pred, r.level);
    } else if r.level > 0 {
      forall a | HasKey(s, nd, key, a)
        ensures !IsBefore(s, a, r.curr)
      {
        OnlyOne(s, nd, a, r.curr);
      }
    }
  }

  /** How far the lookup has still to go on its level. */
  ghost function Ahead(s: State, r: Lookup): nat
    requires |s.levels| == MAX_HEIGHT
  {
    if !IsAt(r) || r.level >= MAX_HEIGHT || TAIL !in s.levels[r.level].rank then 0
    else if r.Entering? then 2 * s.levels[r.level].rank[TAIL] + 3
    else if r.Checking? || r.curr !in s.levels[r.level].rank then 0
    else if s.levels[r.level].rank[r.curr] <= s.levels[r.level].rank[TAIL] then
      2 * (s.levels[r.level].rank[TAIL] - s.levels[r.level].rank[r.curr]) + 1
    else 0
  }

  /** Every read brings it closer, or one level down. */
  lemma ReadComesCloser(s: State, nd: Nodes, key: int, r: Lookup)
    requires Kept(s, nd) && Undisturbed(s, nd, key, r) && InRange(r) && IsAt(r)
    ensures var r' := Read(s, nd, key, r);
            IsAt(r') ==> r'.level < r.level || (r'.level == r.level && Ahead(s, r') < Ahead(s, r))
  {
    var l := s.levels[r.level];
    assert LevelOk(s, nd, r.level) && LeadsOn(l, r.pred) && LeadsOn(l, Slot(l, r.pred).ptr);
    if !r.Entering? {
      assert LeadsOn(l, r.curr) && LeadsOn(l, Slot(l, r.curr).ptr);
    }
  }

  /** The reads still to come. */
  lemma {:induction false} LookOn(s: State, nd: Nodes, key: int, r: Lookup) returns (n: nat)
    requires Kept(s, nd) && FlagOk(s, nd) && Undisturbed(s, nd, key, r) && InRange(r)
    ensures CanMove(s, nd, Readings(n))
    ensures var a := Outcome(s, nd, key, r, Readings(n)); !IsAt(a) && Undisturbed(s, nd, key, a)
    decreases if IsAt(r) then r.level + 1 else 0, Ahead(s, r)
  {
    n := 0;
    if IsAt(r) {
      ReadIsUndisturbed(s, nd, key, r);
      ReadComesCloser(s, nd, key, r);
      n := LookOn(s, nd, key, Read(s, nd, key, r));
      assert Readings(n + 1)[1..] == Readings(n);
      n := n + 1;
    }
  }

  lemma ReadIsUndisturbed(s: State, nd: Nodes, key: int, r: Lookup)
    requires Kept(s, nd) && FlagOk(s, nd) && Undisturbed(s, nd, key, r) && InRange(r) && IsAt(r)
    ensures Undisturbed(s, nd, key, Read(s, nd, key, r))
  {
    if r.Entering? {
      EnterIsUndisturbed(s, nd, key, r);
    } else if r.Inspecting? {
      InspectIsUndisturbed(s, nd, key, r);
    } else {
      CheckIsUndisturbed(s, nd, key, r);
    }
  }

  lemma TopIsUndisturbed(s: State, nd: Nodes, key: int)
    requires Inv(s, nd)
    ensures Undisturbed(s, nd, key, Top(s))
  {
    TopIsOk(s, nd, key);
    assert LevelOk(s, nd, s.headHeight - 1);
  }

  /** In any state of a run that has erased no mark, a lookup that nobody disturbs
      ends.  It answers with the first of the members with the key, whether there
      are duplicates or not, or with "absent" if there is none. */
  lemma LookupFindsFirst(nd: Nodes, run: seq<Step>, key: int) returns (n: nat)
    requires IsRun(Init(), nd, run) && NeverErases(nd, run, |run|) && After(Init(), nd, run, |run|).headHeight <= MAX_HEIGHT
    ensures var s := After(Init(), nd, run, |run|);
            && CanMove(s, nd, Readings(n))
            && var a := Outcome(s, nd, key, Top(s), Readings(n));
               !IsAt(a) && (a.Found? ==> IsFirst(s, nd, key, a.node)) && (a.Absent? ==> !Present(s, nd, key))
  {
    var s := After(Init(), nd, run, |run|);
    RunKeepsKept(nd, run, |run|);
    RunKeepsFlagOk(nd, run, |run|);
    TopIsUndisturbed(s, nd, key);
    n := LookOn(s, nd, key, Top(s));
  }

  // ------------------------------------------------------------------
  // A lookup beside writers
  // ------------------------------------------------------------------

  /** The read of the flag with which it decided to answer. */
  lemma {:induction false} LastCheck(s: State, nd: Nodes, key: int, r: Lookup, moves: seq<Move>, j: nat) returns (k: nat)
    requires Inv(s, nd) && CanMove(s, nd, moves) && InRange(r) && LookOk(s, nd, key, r) && !r.Found?
    requires j <= |moves| && LookAt(s, nd, key, r, moves, j).Found?
    ensures k < j && moves[k].Reading? && LookAt(s, nd, key, r, moves, k).Checking?
    ensures var q, a := LookAt(s, nd, key, r, moves, k), LookAt(s, nd, key, r, moves, j);
            q.level == a.level && q.curr == a.node && (a.level > 0 ==> !StateAt(s, nd, moves, k).hasDups)
    decreases j
  {
    MoveStep(s, nd, key, r, moves, j - 1);
    if LookAt(s, nd, key, r, moves, j - 1).Found? {
      k := LastCheck(s, nd, key, r, moves, j - 1);
    } else {
      k := j - 1;
    }
  }

  /** The read that compared the node it is checking. */
  lemma {:induction false} LastCompare(s: State, nd: Nodes, key: int, r: Lookup, moves: seq<Move>, j: nat) returns (k: nat)
    requires Inv(s, nd) && CanMove(s, nd, moves) && InRange(r) && LookOk(s, nd, key, r) && !r.Checking?
    requires j <= |moves| && LookAt(s, nd, key, r, moves, j).Checking?
    ensures k < j && moves[k].Reading?
    ensures var q, c := LookAt(s, nd, key, r, moves, k), LookAt(s, nd, key, r, moves, j);
            && q.Inspecting? && q.level == c.level < MAX_HEIGHT && q.curr == c.curr != TAIL && nd.key(c.curr) == key
            && !Slot(StateAt(s, nd, moves, k).levels[q.level], q.curr).marked
    decreases j
  {
    MoveStep(s, nd, key, r, moves, j - 1);
    if LookAt(s, nd, key, r, moves, j - 1).Checking? {
      k := LastCompare(s, nd, key, r, moves, j - 1);
    } else {
      k := j - 1;
    }
  }

  /** Found on an upper level: when the flag was read it was clear, so that no other
      member had the key then. */
  lemma EarlyExitIsUnflagged(nd: Nodes, run: seq<Step>, key: int, moves: seq<Move>) returns (k: nat)
    requires IsRun(Init(), nd, run) && CanMove(After(Init(), nd, run, |run|), nd, moves)
    requires var s := After(Init(), nd, run, |run|);
             && s.headHeight <= MAX_HEIGHT
             && var a := Outcome(s, nd, key, Top(s), moves); a.Found? && a.level > 0
    ensures k < |moves| && moves[k].Reading?
    ensures var s := After(Init(), nd, run, |run|);
            && var t, n := StateAt(s, nd, moves, k), Outcome(s, nd, key, Top(s), moves).node;
               !t.hasDups && (Member(t, n) ==> forall a :: HasKey(t, nd, key, a) ==> a == n)
  {
    var s := After(Init(), nd, run, |run|);
    InitInv(nd);
    RunKeepsInv(Init(), nd, run, |run|);
    TopIsOk(s, nd, key);
    OutcomeIsLast(s, nd, key, Top(s), moves);
    k := LastCheck(s, nd, key, Top(s), moves, |moves|);
    MoveStep(s, nd, key, Top(s), moves, k);
    FlagIsOk(nd, run, moves, k);
    var t, n := StateAt(s, nd, moves, k), Outcome(s, nd, key, Top(s), moves).node;
    forall a | Member(t, n) && HasKey(t, nd, key, a)
      ensures a == n
    {
      OnlyOne(t, nd, a, n);
    }
  }

  lemma FlagIsOk(nd: Nodes, run: seq<Step>, moves: seq<Move>, k: nat)
    requires IsRun(Init(), nd, run) && CanMove(After(Init(), nd, run, |run|), nd, moves) && k <= |moves|
    ensures FlagOk(StateAt(After(Init(), nd, run, |run|), nd, moves, k), nd)
  {
    var all := run + StepsOf(moves[..k]);
    MovesAreRun(nd, run, moves, k);
    RunKeepsFlagOk(nd, all, |all|);
  }

  /** Found at level 0: when it was compared it was a member, and no member with the
      key stood before it, unless one that had slipped in behind the walk was there
      then. */
  lemma FoundIsFirstIff(s: State, nd: Nodes, key: int, r: Lookup, moves: seq<Move>) returns (k: nat)
    requires Inv(s, nd) && CanMove(s, nd, moves) && InRange(r) && LookOk(s, nd, key, r) && NonePast(s, nd, key, r)
    requires !r.Found? && !r.Checking?
    requires var a := Outcome(s, nd, key, r, moves); a.Found? && a.level == 0
    ensures k < |moves| && moves[k].Reading?
    ensures var t, n := StateAt(s, nd, moves, k), Outcome(s, nd, key, r, moves).node;
            && HasKey(t, nd, key, n)
            && (IsFirst(t, nd, key, n) <==>
                !exists i :: 0 <= i < k && SlipsInAt(s, nd, key, r, moves, i) && Member(t, moves[i].step.n) && IsBefore(t, moves[i].step.n, n))
  {
    OutcomeIsLast(s, nd, key, r, moves);
    var j := LastCheck(s, nd, key, r, moves, |moves|);
    k := LastCompare(s, nd, key, r, moves, j);
    MoveStep(s, nd, key, r, moves, k);
    var t, q := StateAt(s, nd, moves, k), LookAt(s, nd, key, r, moves, k);
    UnmarkedIsMemberIff(t, nd, q.curr, 0);
    if a :| HasKey(t, nd, key, a) && IsBefore(t, a, q.curr) {
      var i := PastSlippedIn(s, nd, key, r, moves, k, a);
      assert 0 <= i < k && SlipsInAt(s, nd, key, r, moves, i) && Member(t, moves[i].step.n) && IsBefore(t, moves[i].step.n, q.curr);
    } else {
      forall i | 0 <= i < k && SlipsInAt(s, nd, key, r, moves, i) && Member(t, moves[i].step.n)
        ensures !IsBefore(t, moves[i].step.n, q.curr)
      {
        assert HasKey(t, nd, key, moves[i].step.n);
      }
    }
  }

  /** So a lookup from the top answers with the first of the members with the key,
      at some moment of its walk, if nothing slips in; and in a list without
      duplicates it always does. */
  lemma FoundIsFirst(nd: Nodes, run: seq<Step>, key: int, moves: seq<Move>) returns (k: nat)
    requires IsRun(Init(), nd, run) && CanMove(After(Init(), nd, run, |run|), nd, moves)
    requires var s := After(Init(), nd, run, |run|);
             && s.headHeight <= MAX_HEIGHT
             && var a := Outcome(s, nd, key, Top(s), moves); a.Found? && a.level == 0
    ensures k < |moves|
    ensures var s := After(Init(), nd, run, |run|);
            && var t, n := StateAt(s, nd, moves, k), Outcome(s, nd, key, Top(s), moves).node;
               && HasKey(t, nd, key, n)
               && (!t.hasDups || (forall i :: 0 <= i < k ==> !SlipsInAt(s, nd, key, Top(s), moves, i)) ==> IsFirst(t, nd, key, n))
  {
    var s := After(Init(), nd, run, |run|);
    InitInv(nd);
    RunKeepsInv(Init(), nd, run, |run|);
    TopIsOk(s, nd, key);
    k := FoundIsFirstIff(s, nd, key, Top(s), moves);
    MoveStep(s, nd, key, Top(s), moves, k);
    FlagIsOk(nd, run, moves, k);
    var t, n := StateAt(s, nd, moves, k), Outcome(s, nd, key, Top(s), moves).node;
    if !t.hasDups {
      forall a | HasKey(t, nd, key, a)
        ensures !IsBefore(t, a, n)
      {
        OnlyOne(t, nd, a, n);
      }
    }
  }
}
