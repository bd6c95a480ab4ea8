/**
  How a remover takes its node out of every level, one access at a time.

  It reads the head's height, and sweeps each level from there down: a walk from
  the head that swings marked nodes out on its way, until it meets the node --
  whose pointer it loads, to swing the predecessor over to it -- or a larger key.
  If a swing failed it sweeps again.  Then it walks every level once more, and
  sweeps again if it meets the node; otherwise the node may be retired.
 */
module Removing {
  import opened LevelChain

  datatype Removal =
    | Starting                                                                         // reads the head's height next
    | Descending(bound: nat, level: nat, retry: bool)                                  // reads the head's pointer next
    | Walking(bound: nat, level: nat, pred: Node, curr: Node, retry: bool)             // reads the pointer of `curr` next
    | Helping(bound: nat, level: nat, pred: Node, curr: Node, succ: Node, retry: bool) // `curr` is marked; swings `pred` next
    | Swinging(bound: nat, level: nat, pred: Node, link: Link, retry: bool)            // met the node; swings `pred` next
    | Verifying(level: nat, cur: Node)
    | Retired

  predicate HasLevel(u: Removal) {
    !u.Starting? && !u.Retired?
  }

  predicate HasBound(u: Removal) {
    HasLevel(u) && !u.Verifying?
  }

  /** One level down, or the end of the sweep. */
  function NextLevel(bound: nat, level: nat, retry: bool): Removal {
    if level > 0 then Descending(bound, level - 1, retry)
    else if retry then Starting
    else Verifying(bound, HEAD)
  }

  function At(bound: nat, level: nat, pred: Node, curr: Node, retry: bool): Removal {
    if curr == TAIL then NextLevel(bound, level, retry) else Walking(bound, level, pred, curr, retry)
  }

  function Read(next: map<Node, Link>, n: Node): Link {
    if n in next then next[n] else Link(TAIL, false)
  }

  predicate Expects(next: map<Node, Link>, pred: Node, n: Node) {
    pred in next && next[pred] == Link(n, false)
  }

  /** Where the next access leads; `next` has the pointers of the level at hand. */
  function NextPhase(next: map<Node, Link>, key: Node -> int, n: Node, u: Removal): Removal {
    match u
    case Descending(b, i, retry) => At(b, i, HEAD, Read(next, HEAD).ptr, retry)
    case Walking(b, i, pred, curr, retry) =>
      var link := Read(next, curr);
      if curr == n then Swinging(b, i, pred, link, retry)
      else if link.marked then Helping(b, i, pred, curr, link.ptr, retry)
      else if Compare(key, curr, n) <= 0 then At(b, i, curr, link.ptr, retry)
      else NextLevel(b, i, retry)
    case Helping(b, i, pred, curr, succ, retry) =>
      if Expects(next, pred, curr) then At(b, i, pred, succ, retry) else NextLevel(b, i, true)
    case Swinging(b, i, pred, _, retry) => NextLevel(b, i, retry || !Expects(next, pred, n))
    case Verifying(i, cur) =>
      var c := Read(next, cur).ptr;
      if c == n then Starting
      else if c != TAIL && Compare(key, c, n) <= 0 then Verifying(i, c)
      else if i == 0 then Retired
      else Verifying(i - 1, HEAD)
    case _ => u
  }

  /** What it writes: the two swings, if they succeed. */
  function NextWrite(next: map<Node, Link>, n: Node, u: Removal): Write {
    match u
    case Helping(_, _, pred, curr, succ, _) => if Expects(next, pred, curr) then TakeOut(pred, curr, succ) else Keep
    case Swinging(_, _, pred, link, _) => if Expects(next, pred, n) then TakeOut(pred, n, link.ptr) else Keep
    case _ => Keep
  }

  function GoOn(levels: seq<Level>, key: Node -> int, n: Node, u: Removal): Removal
    requires |levels| == MAX_HEIGHT && (HasLevel(u) ==> u.level < MAX_HEIGHT)
  {
    if HasLevel(u) then NextPhase(levels[u.level].next, key, n, u) else u
  }

  function SwingOf(levels: seq<Level>, n: Node, u: Removal): (nat, Write)
    requires |levels| == MAX_HEIGHT && (HasLevel(u) ==> u.level < MAX_HEIGHT)
  {
    if HasLevel(u) then (u.level, NextWrite(levels[u.level].next, n, u)) else (0, Keep)
  }

  // ------------------------------------------------------------------
  // What the nodes it holds are known to be
  // ------------------------------------------------------------------

  /** `height` is the node's: no level of it is left out. */
  predicate RangeOk(height: nat, u: Removal) {
    && (HasLevel(u) ==> u.level < MAX_HEIGHT)
    && (HasBound(u) ==> u.level <= u.bound < MAX_HEIGHT && height <= u.bound)
  }

  /** They were linked at the level, and what was loaded leads forward; what was
      loaded marked is frozen. */
  ghost predicate StandsOk(l: Level, n: Node, u: Removal) {
    match u
    case Walking(_, _, pred, curr, _) => pred in l.rank && pred != TAIL && curr in l.rank && curr != TAIL
    case Helping(_, _, pred, curr, succ, _) =>
      && pred in l.rank && pred != TAIL && curr in l.rank && curr != TAIL
      && curr in l.next && l.next[curr] == Link(succ, true)
    case Swinging(_, _, pred, link, _) =>
      && pred in l.rank && pred != TAIL && n in l.rank && n != TAIL
      && link.ptr in l.rank && l.rank[n] < l.rank[link.ptr]
      && (link.marked ==> n in l.next && l.next[n] == link)
    case Verifying(_, cur) => cur in l.rank && cur != TAIL
    case _ => true
  }

  ghost predicate UnlinkOk(levels: seq<Level>, n: Node, height: nat, u: Removal)
    requires |levels| == MAX_HEIGHT
  {
    RangeOk(height, u) && (HasLevel(u) ==> StandsOk(levels[u.level], n, u))
  }

  /** No write of anybody changes that. */
  lemma StandsStays(l: Level, m: Level, n: Node, u: Removal)
    requires StandsOk(l, n, u) && Evolves(l, m)
    ensures StandsOk(m, n, u)
  {
    match u
    case Walking(_, _, pred, curr, _) =>
      assert NodeEvolves(l, m, pred) && NodeEvolves(l, m, curr);
    case Helping(_, _, pred, curr, _, _) =>
      assert NodeEvolves(l, m, pred) && NodeEvolves(l, m, curr);
    case Swinging(_, _, pred, link, _) =>
      assert NodeEvolves(l, m, pred) && NodeEvolves(l, m, n) && NodeEvolves(l, m, link.ptr) && OrderEvolves(l, m, n, link.ptr);
    case Verifying(_, cur) =>
      assert NodeEvolves(l, m, cur);
    case _ =>
  }

  lemma UnlinkStays(levels: seq<Level>, levels': seq<Level>, n: Node, height: nat, u: Removal)
    requires |levels| == |levels'| == MAX_HEIGHT && UnlinkOk(levels, n, height, u)
    requires HasLevel(u) ==> Evolves(levels[u.level], levels'[u.level])
    ensures UnlinkOk(levels', n, height, u)
  {
    if HasLevel(u) {
      StandsStays(levels[u.level], levels'[u.level], n, u);
    }
  }

  lemma GoOnKeepsRange(levels: seq<Level>, key: Node -> int, n: Node, height: nat, u: Removal)
    requires |levels| == MAX_HEIGHT && RangeOk(height, u)
    ensures RangeOk(height, GoOn(levels, key, n, u))
  {
  }

  lemma GoOnStands(levels: seq<Level>, key: Node -> int, n: Node, height: nat, u: Removal)
    requires |levels| == MAX_HEIGHT && UnlinkOk(levels, n, height, u) && n != TAIL
    requires forall i :: 0 <= i < MAX_HEIGHT ==> Forward(levels[i])
    ensures UnlinkOk(levels, n, height, GoOn(levels, key, n, u))
  {
    GoOnKeepsRange(levels, key, n, height, u);
    if HasLevel(u) {
      var l := levels[u.level];
      assert LeadsOn(l, HEAD);
      match u
      case Walking(_, _, _, curr, _) => assert LeadsOn(l, curr);
      case Helping(_, _, _, curr, _, _) => assert LeadsOn(l, curr);
      case Verifying(_, cur) => assert LeadsOn(l, cur);
      case _ =>
    }
  }

  /** The swing is one the order of its level allows. */
  lemma SwingFits(levels: seq<Level>, n: Node, height: nat, u: Removal)
    requires |levels| == MAX_HEIGHT && UnlinkOk(levels, n, height, u)
    requires HasLevel(u) ==> Forward(levels[u.level])
    ensures var (i, w) := SwingOf(levels, n, u); i < MAX_HEIGHT && CanWrite(levels[i], w)
  {
    if u.Helping? {
      assert LeadsOn(levels[u.level], u.curr);
    }
  }

  // ------------------------------------------------------------------
  // A sweep among other threads
  // ------------------------------------------------------------------

  predicate InSweep(u: Removal) {
    HasBound(u) && u.level < MAX_HEIGHT
  }

  /** Where a sweep gets to, or where it ends; `views` has what its accesses find,
      whatever the other threads write in between. */
  function Swept(views: seq<seq<Level>>, key: Node -> int, n: Node, u: Removal): Removal
    requires forall v <- views :: |v| == MAX_HEIGHT
  {
    if views == [] || !InSweep(u) then u else Swept(views[1..], key, n, GoOn(views[0], key, n, u))
  }

  predicate FailsNow(levels: seq<Level>, n: Node, u: Removal)
    requires |levels| == MAX_HEIGHT && InSweep(u)
  {
    var next := levels[u.level].next;
    (u.Helping? && !Expects(next, u.pred, u.curr)) || (u.Swinging? && !Expects(next, u.pred, n))
  }

  /** One of its swings fails. */
  predicate Fails(views: seq<seq<Level>>, key: Node -> int, n: Node, u: Removal)
    requires forall v <- views :: |v| == MAX_HEIGHT
  {
    views != [] && InSweep(u) && (FailsNow(views[0], n, u) || Fails(views[1..], key, n, GoOn(views[0], key, n, u)))
  }

  /** A sweep leads to the verification of all its levels if none of its swings
      failed, and to another sweep otherwise. */
  lemma {:induction false} VerifiedIff(views: seq<seq<Level>>, key: Node -> int, n: Node, u: Removal)
    requires (forall v <- views :: |v| == MAX_HEIGHT) && InSweep(u)
    ensures var end, again := Swept(views, key, n, u), u.retry || Fails(views, key, n, u);
            if HasBound(end) then end.bound == u.bound && end.retry == again
            else end == if again then Starting else Verifying(u.bound, HEAD)
  {
    if views != [] {
      var u' := GoOn(views[0], key, n, u);
      if InSweep(u') {
        VerifiedIff(views[1..], key, n, u');
      }
    }
  }

  /** The node whose pointer it would swing. */
  predicate IsBehind(key: Node -> int, n: Node, u: Removal) {
    u.Walking? || u.Helping? || u.Swinging? ==> Compare(key, u.pred, n) <= 0
  }

  /** It goes past no larger key. */
  lemma {:induction false} NeverPast(views: seq<seq<Level>>, key: Node -> int, n: Node, u: Removal)
    requires (forall v <- views :: |v| == MAX_HEIGHT) && IsBehind(key, n, u)
    ensures IsBehind(key, n, Swept(views, key, n, u))
  {
    if views != [] && InSweep(u) {
      NeverPast(views[1..], key, n, GoOn(views[0], key, n, u));
    }
  }
}
