/**
  How an unlink by identity gets on when nobody disturbs it.

  The sweep passes nodes with an equal key, since the node may stand behind them,
  and takes out marked nodes on its way; each access brings it closer to the end
  of its level, or one level down.
 */
module Sweeping {
  import opened LevelChain
  import opened Removing

  /** The levels, and where the remover stands. */
  datatype Sweep = Sweep(levels: seq<Level>, u: Removal)

  /** Behind a larger key than that of `n` the keys rise. */
  ghost predicate RisesBehind(l: Level, key: Node -> int, n: Node, c: Node) {
    Compare(key, c, n) > 0 ==> RisesAt(l, key, c)
  }

  ghost predicate Rises(l: Level, key: Node -> int, n: Node) {
    forall c :: RisesBehind(l, key, n, c)
  }

  ghost predicate IsOk(x: Sweep, key: Node -> int, n: Node, height: nat) {
    && |x.levels| == MAX_HEIGHT && n != HEAD && n != TAIL && height < MAX_HEIGHT
    && (forall i :: 0 <= i < MAX_HEIGHT ==> Forward(x.levels[i]) && Rises(x.levels[i], key, n))
    && UnlinkOk(x.levels, n, height, x.u)
  }

  /** One access. */
  function Access(x: Sweep, key: Node -> int, n: Node): (y: Sweep)
    requires |x.levels| == MAX_HEIGHT && (HasLevel(x.u) ==> x.u.level < MAX_HEIGHT)
    ensures |y.levels| == MAX_HEIGHT
  {
    var (i, w) := SwingOf(x.levels, n, x.u);
    Sweep(if i < MAX_HEIGHT && CanWrite(x.levels[i], w) then x.levels[i := DoWrite(x.levels[i], w)] else x.levels,
          GoOn(x.levels, key, n, x.u))
  }

  lemma AccessFits(x: Sweep, key: Node -> int, n: Node, height: nat)
    requires IsOk(x, key, n, height) && HasLevel(x.u)
    ensures x.u.level < MAX_HEIGHT
    ensures var l, w := x.levels[x.u.level], NextWrite(x.levels[x.u.level].next, n, x.u);
            (w.Keep? || w.TakeOut?) && CanWrite(l, w) && Access(x, key, n).levels == x.levels[x.u.level := DoWrite(l, w)]
  {
    SwingFits(x.levels, n, height, x.u);
  }

  lemma AccessKeepsRises(x: Sweep, key: Node -> int, n: Node, height: nat)
    requires IsOk(x, key, n, height) && HasLevel(x.u)
    ensures x.u.level < MAX_HEIGHT && Rises(DoWrite(x.levels[x.u.level], NextWrite(x.levels[x.u.level].next, n, x.u)), key, n)
  {
    var l, w := x.levels[x.u.level], NextWrite(x.levels[x.u.level].next, n, x.u);
    AccessFits(x, key, n, height);
    forall c
      ensures RisesBehind(DoWrite(l, w), key, n, c)
    {
      assert RisesBehind(l, key, n, c) && LeadsOn(l, c);
      if w.TakeOut? {
        assert RisesBehind(l, key, n, w.n);
      }
    }
  }

  lemma AccessKeepsOk(x: Sweep, key: Node -> int, n: Node, height: nat)
    requires IsOk(x, key, n, height) && HasLevel(x.u)
    ensures IsOk(Access(x, key, n), key, n, height)
  {
    var y, i := Access(x, key, n), x.u.level;
    AccessFits(x, key, n, height);
    AccessKeepsRises(x, key, n, height);
    var w := NextWrite(x.levels[i].next, n, x.u);
    WriteKeepsForward(x.levels[i], w);
    WriteRanks(x.levels[i], w, n);
    GoOnStands(x.levels, key, n, height, x.u);
    UnlinkStays(x.levels, y.levels, n, height, y.u);
  }

  // ------------------------------------------------------------------
  // Every access brings it closer
  // ------------------------------------------------------------------

  ghost function RankOr(l: Level, n: Node): nat {
    if n in l.rank then l.rank[n] else 0
  }

  /** How far it is from `n` to the tail. */
  ghost function ToTail(l: Level, n: Node): nat {
    if RankOr(l, n) <= RankOr(l, TAIL) then RankOr(l, TAIL) - RankOr(l, n) else 0
  }

  /** How far on its level. */
  ghost function OnLevel(x: Sweep): nat
    requires HasLevel(x.u) ==> x.u.level < |x.levels|
  {
    match x.u
    case Descending(_, i, _) => 2 * RankOr(x.levels[i], TAIL) + 4
    case Walking(_, i, _, curr, _) => 2 * ToTail(x.levels[i], curr) + 2
    case Helping(_, i, _, curr, _, _) => 2 * ToTail(x.levels[i], curr) + 1
    case Verifying(i, cur) => ToTail(x.levels[i], cur)
    case _ => 0
  }

  function Stage(u: Removal): nat {
    if HasBound(u) then 2 else if u.Verifying? then 1 else 0
  }

  function LevelOf(u: Removal): nat {
    if HasLevel(u) then u.level else 0
  }

  ghost function Way(x: Sweep): nat {
    if LevelOf(x.u) < |x.levels| then OnLevel(x) else 0
  }

  ghost predicate IsCloser(x: Sweep, y: Sweep)
    requires (HasLevel(x.u) ==> x.u.level < |x.levels|) && (HasLevel(y.u) ==> y.u.level < |y.levels|)
  {
    || Stage(y.u) < Stage(x.u)
    || (Stage(y.u) == Stage(x.u) && HasLevel(x.u) && HasLevel(y.u) &&
          (y.u.level < x.u.level || (y.u.level == x.u.level && OnLevel(y) < OnLevel(x))))
  }

  lemma AccessComesCloser(x: Sweep, key: Node -> int, n: Node, height: nat)
    requires IsOk(x, key, n, height) && HasLevel(x.u)
    ensures var y := Access(x, key, n); (HasLevel(y.u) ==> y.u.level < |y.levels|) && IsCloser(x, y)
  {
    var l := x.levels[x.u.level];
    AccessKeepsOk(x, key, n, height);
    AccessFits(x, key, n, height);
    assert LeadsOn(l, HEAD);
    match x.u
    case Walking(_, _, _, curr, _) => assert LeadsOn(l, curr) && LeadsOn(l, Read(l.next, curr).ptr);
    case Helping(_, _, _, curr, succ, _) => assert LeadsOn(l, curr) && LeadsOn(l, succ);
    case Verifying(_, cur) => assert LeadsOn(l, cur) && LeadsOn(l, Read(l.next, cur).ptr);
    case _ =>
  }

  // ------------------------------------------------------------------
  // A clean sweep
  // ------------------------------------------------------------------

  /** No level from `i` to `top` leads to the node. */
  ghost predicate OffFrom(levels: seq<Level>, n: Node, i: nat, top: nat) {
    forall j :: i <= j <= top && j < |levels| ==> OffAt(levels[j], n)
  }

  ghost predicate OffAt(l: Level, n: Node) {
    Forward(l) ==> !Reached(l, n)
  }

  /** The walk stands between two nodes of the chain; if the chain leads to the
      node, it is still ahead. */
  ghost predicate Between(l: Level, n: Node, pred: Node, curr: Node) {
    Points(l, pred, curr) && (Forward(l) && curr in l.rank ==> Reached(l, pred) && (Reached(l, n) ==> n in Walked(l, curr)))
  }

  /** What a sweep that began at `top` knows, as long as nobody interferes. */
  ghost predicate IsClean(x: Sweep, n: Node, top: nat) {
    match x.u
    case Starting => false
    case Descending(b, i, retry) => b == top && !retry && OffFrom(x.levels, n, i + 1, top)
    case Walking(b, i, pred, curr, retry) =>
      b == top && !retry && OffFrom(x.levels, n, i + 1, top) && i < |x.levels| && Between(x.levels[i], n, pred, curr)
    case Helping(b, i, pred, curr, _, retry) =>
      && b == top && !retry && OffFrom(x.levels, n, i + 1, top) && i < |x.levels| && Between(x.levels[i], n, pred, curr)
      && curr != n
    case Swinging(b, i, pred, link, retry) =>
      && b == top && !retry && OffFrom(x.levels, n, i + 1, top) && i < |x.levels| && Between(x.levels[i], n, pred, n)
      && link.ptr == Read(x.levels[i].next, n).ptr
    case Verifying(i, cur) =>
      OffFrom(x.levels, n, 0, top) && i <= top && i < |x.levels| && (Forward(x.levels[i]) ==> Reached(x.levels[i], cur))
    case Retired => OffFrom(x.levels, n, 0, top)
  }

  /** From the head a walk of the level begins. */
  lemma DescendIsClean(x: Sweep, key: Node -> int, n: Node, height: nat, top: nat)
    requires IsOk(x, key, n, height) && IsClean(x, n, top) && x.u.Descending?
    ensures IsClean(Access(x, key, n), n, top)
  {
    var l := x.levels[x.u.level];
    assert LeadsOn(l, HEAD) && LeadsOn(l, l.next[HEAD].ptr);
    if l.next[HEAD].ptr == TAIL {
      assert Walked(l, TAIL) == {TAIL} && OffAt(l, n);
    }
  }

  /** The next node: passed, to be helped out, the one looked for, or beyond it. */
  lemma WalkIsClean(x: Sweep, key: Node -> int, n: Node, height: nat, top: nat)
    requires IsOk(x, key, n, height) && IsClean(x, n, top) && x.u.Walking?
    ensures IsClean(Access(x, key, n), n, top)
  {
    var l := x.levels[x.u.level];
    if x.u.curr != n {
      WalkGoesOnClean(l, key, n, x.u.pred, x.u.curr);
    }
  }

  lemma WalkGoesOnClean(l: Level, key: Node -> int, n: Node, pred: Node, curr: Node)
    requires Forward(l) && Rises(l, key, n) && pred in l.rank && pred != TAIL && curr in l.rank && curr != TAIL && n != TAIL && curr != n
    requires Between(l, n, pred, curr)
    ensures curr in l.next && (!l.next[curr].marked ==> Between(l, n, curr, l.next[curr].ptr))
    ensures l.next[curr].ptr == TAIL || Compare(key, curr, n) > 0 ==> OffAt(l, n)
  {
    assert LeadsOn(l, curr) && LeadsOn(l, pred) && LeadsOn(l, l.next[curr].ptr);
    WalkGoesOn(l, HEAD, pred);
    WalkGoesOn(l, HEAD, curr);
    assert Walked(l, TAIL) == {TAIL};
    if Reached(l, n) && Compare(key, curr, n) > 0 {
      WalksOnBehind(l, key, n, curr, n);
    }
  }

  /** A walk behind a larger key does not come back. */
  lemma {:induction false} WalksOnBehind(l: Level, key: Node -> int, n: Node, c: Node, m: Node)
    requires Forward(l) && Rises(l, key, n) && c in l.rank && Compare(key, c, n) > 0 && m in Walked(l, c)
    ensures Compare(key, m, n) > 0
    decreases assert LeadsOn(l, c); l.rank[TAIL] - l.rank[c]
  {
    if m != c {
      assert LeadsOn(l, c) && LeadsOn(l, l.next[c].ptr) && RisesBehind(l, key, n, c);
      WalksOnBehind(l, key, n, l.next[c].ptr, m);
    }
  }

  /** A marked node is taken out; what is ahead stays ahead. */
  lemma HelpIsClean(x: Sweep, key: Node -> int, n: Node, height: nat, top: nat)
    requires IsOk(x, key, n, height) && IsClean(x, n, top) && x.u.Helping?
    ensures IsClean(Access(x, key, n), n, top)
  {
    var l, m := x.levels[x.u.level], Access(x, key, n).levels[x.u.level];
    var pred, curr, succ := x.u.pred, x.u.curr, x.u.succ;
    AccessFits(x, key, n, height);
    AccessKeepsOk(x, key, n, height);
    assert LeadsOn(l, curr) && LeadsOn(l, succ) && LeadsOn(m, succ) && LeadsOn(l, pred);
    ExactSwingWalks(l, pred, curr, HEAD, n);
    ExactSwingWalks(l, pred, curr, HEAD, pred);
    ExactSwingWalks(l, pred, curr, succ, n);
    assert Walked(m, TAIL) == {TAIL};
    if !Reached(m, n) {
      assert OffAt(m, n);
    }
  }

  /** The node itself is taken out. */
  lemma SwingIsClean(x: Sweep, key: Node -> int, n: Node, height: nat, top: nat)
    requires IsOk(x, key, n, height) && IsClean(x, n, top) && x.u.Swinging?
    ensures IsClean(Access(x, key, n), n, top)
  {
    var l, m := x.levels[x.u.level], Access(x, key, n).levels[x.u.level];
    AccessFits(x, key, n, height);
    AccessKeepsOk(x, key, n, height);
    assert LeadsOn(l, n);
    ExactSwingWalks(l, x.u.pred, n, HEAD, n);
    assert OffAt(m, n);
  }

  /** No level shows it. */
  lemma VerifyIsClean(x: Sweep, key: Node -> int, n: Node, height: nat, top: nat)
    requires IsOk(x, key, n, height) && IsClean(x, n, top) && x.u.Verifying?
    ensures IsClean(Access(x, key, n), n, top)
  {
    var l := x.levels[x.u.level];
    assert LeadsOn(l, x.u.cur) && OffAt(l, n);
    WalkGoesOn(l, HEAD, x.u.cur);
    assert LeadsOn(l, l.next[x.u.cur].ptr);
  }

  lemma AccessIsClean(x: Sweep, key: Node -> int, n: Node, height: nat, top: nat)
    requires IsOk(x, key, n, height) && IsClean(x, n, top) && HasLevel(x.u)
    ensures IsClean(Access(x, key, n), n, top)
  {
    match x.u
    case Descending(_, _, _) => DescendIsClean(x, key, n, height, top);
    case Walking(_, _, _, _, _) => WalkIsClean(x, key, n, height, top);
    case Helping(_, _, _, _, _, _) => HelpIsClean(x, key, n, height, top);
    case Swinging(_, _, _, _, _) => SwingIsClean(x, key, n, height, top);
    case _ => VerifyIsClean(x, key, n, height, top);
  }

  /** A sweep begins clean. */
  lemma BeginsClean(levels: seq<Level>, key: Node -> int, n: Node, height: nat, bound: nat)
    requires IsOk(Sweep(levels, Starting), key, n, height) && height <= bound < MAX_HEIGHT
    ensures IsOk(Sweep(levels, Descending(bound, bound, false)), key, n, height)
    ensures IsClean(Sweep(levels, Descending(bound, bound, false)), n, bound)
  {
  }

  // ------------------------------------------------------------------
  // To the end of a round
  // ------------------------------------------------------------------

  /** The sweep and its verification last for `k` accesses. */
  predicate Lasts(x: Sweep, key: Node -> int, n: Node, k: nat)
    requires |x.levels| == MAX_HEIGHT
    decreases k
  {
    k == 0 || (HasLevel(x.u) && x.u.level < MAX_HEIGHT && Lasts(Access(x, key, n), key, n, k - 1))
  }

  function Accesses(x: Sweep, key: Node -> int, n: Node, k: nat): (y: Sweep)
    requires |x.levels| == MAX_HEIGHT && Lasts(x, key, n, k)
    ensures |y.levels| == MAX_HEIGHT
    decreases k
  {
    if k == 0 then x else Accesses(Access(x, key, n), key, n, k - 1)
  }

  /** The node is retired, or another round begins; not so after a clean sweep. */
  ghost predicate RoundOver(y: Sweep, n: Node, top: nat, clean: bool) {
    (y.u.Starting? || y.u.Retired?) && (clean ==> y.u.Retired? && IsClean(y, n, top))
  }

  lemma GetsCloser(x: Sweep, key: Node -> int, n: Node, height: nat, top: nat, clean: bool)
    requires IsOk(x, key, n, height) && HasLevel(x.u) && (clean ==> IsClean(x, n, top))
    ensures var y := Access(x, key, n);
            && x.u.level < MAX_HEIGHT && IsOk(y, key, n, height) && (clean ==> IsClean(y, n, top))
            && (Stage(y.u) < Stage(x.u)
                || (Stage(y.u) == Stage(x.u) && (LevelOf(y.u) < LevelOf(x.u) || (LevelOf(y.u) == LevelOf(x.u) && Way(y) < Way(x)))))
  {
    AccessFits(x, key, n, height);
    AccessKeepsOk(x, key, n, height);
    AccessComesCloser(x, key, n, height);
    if clean {
      AccessIsClean(x, key, n, height, top);
    }
  }

  /** From anywhere in a round to its end. */
  lemma {:induction false} RoundEnds(x: Sweep, key: Node -> int, n: Node, height: nat, top: nat, clean: bool) returns (k: nat)
    requires IsOk(x, key, n, height) && (clean ==> IsClean(x, n, top))
    ensures Lasts(x, key, n, k) && RoundOver(Accesses(x, key, n, k), n, top, clean)
    decreases Stage(x.u), LevelOf(x.u), Way(x)
  {
    k := 0;
    if HasLevel(x.u) {
      GetsCloser(x, key, n, height, top, clean);
      k := RoundEnds(Access(x, key, n), key, n, height, top, clean);
      k := k + 1;
    }
  }
}
