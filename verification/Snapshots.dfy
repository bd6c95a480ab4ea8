/**
  Snapshots: eras, preserved versions, and what a restore brings back.

  The list is taken by its contents, one node to a key; `live` holds each key's
  node, `pres` the copies preserved for snapshots, newest first.
 */
module Snapshots {

  datatype Entry = Entry(val: int, era: nat)

  datatype Version = Version(key: int, entry: Entry)

  datatype Db = Db(live: map<int, Entry>, pres: seq<Version>, presEra: nat, curEra: nat)

  // ------------------------------------------------------------------
  // The calls
  // ------------------------------------------------------------------

  /** A new node is stamped with the running era while a snapshot is open. */
  ghost function PutOf(d: Db, k: int, v: int): Db {
    if k in d.live then d
    else if d.presEra > 0 then d.(live := d.live[k := Entry(v, d.curEra)], curEra := d.curEra + 1)
    else d.(live := d.live[k := Entry(v, 0)])
  }

  /** The preserved list before key `k` is changed: its node is copied if it is
      older than the latest snapshot. */
  ghost function PreservedOf(d: Db, k: int): seq<Version>
    requires k in d.live
  {
    if d.live[k].era <= d.presEra then [Version(k, d.live[k])] + d.pres else d.pres
  }

  ghost function SetOf(d: Db, k: int, v: int): Db {
    if k !in d.live then d
    else if d.presEra > 0 then
      Db(d.live[k := Entry(v, d.curEra + 1)], PreservedOf(d, k), d.presEra, d.curEra + 1)
    else d.(live := d.live[k := d.live[k].(val := v)])
  }

  ghost function DelOf(d: Db, k: int): Db {
    if k !in d.live then d
    else if d.presEra > 0 then Db(d.live - {k}, PreservedOf(d, k), d.presEra, d.curEra + 1)
    else d.(live := d.live - {k})
  }

  ghost function SnapshotOf(d: Db): Db {
    d.(presEra := d.curEra + 1, curEra := d.curEra + 2)
  }

  ghost function Newer(live: map<int, Entry>, t: nat): set<int> {
    set k | k in live && live[k].era > t
  }

  ghost function UpTo(versions: seq<Version>, t: nat): seq<Version> {
    if versions == [] then []
    else (if versions[0].entry.era <= t then [versions[0]] else []) + UpTo(versions[1..], t)
  }

  /** Preserved copies are inserted like new nodes; a key that is there already
      is refused. */
  ghost function Reinsert(d: Db, versions: seq<Version>): Db
    decreases |versions|
  {
    if versions == [] then d
    else
      var v := versions[0];
      var d' := if v.key in d.live then d
                else if d.presEra > 0 then d.(live := d.live[v.key := Entry(v.entry.val, d.curEra)], curEra := d.curEra + 1)
                else d.(live := d.live[v.key := v.entry]);
      Reinsert(d', versions[1..])
  }

  ghost function RestoreOf(d: Db, t: nat): Db {
    if t == 0 || t >= d.curEra then d
    else
      var newer := Newer(d.live, t);
      var cur := d.curEra + if d.presEra > 0 then |newer| else 0;
      Reinsert(Db(d.live - newer, [], d.presEra, cur), UpTo(d.pres, t)).(pres := [], presEra := 0)
  }

  lemma Inhabited(s: set<int>)
    ensures s == {} || exists k: int :: k in s
  {
    if forall k: int :: k !in s {
      assert s == {};
    }
  }

  class Store {
    var live: map<int, Entry>
    var pres: seq<Version>
    var presEra: nat
    var curEra: nat

    ghost function State(): Db
      reads this
    {
      Db(live, pres, presEra, curEra)
    }

    constructor ()
      ensures State() == Db(map[], [], 0, 0)
    {
      live, pres, presEra, curEra := map[], [], 0, 0;
    }

    method Put(k: int, v: int) returns (ok: bool)
      modifies this
      ensures State() == PutOf(old(State()), k, v) && ok == (k !in old(live))
    {
      if k in live {
        return false;
      }
      var era := 0;
      if presEra > 0 {
        era := curEra;
        curEra := curEra + 1;
      }
      live := live[k := Entry(v, era)];
      ok := true;
    }

    method Preserve(k: int)
      requires k in live
      modifies this`pres
      ensures pres == PreservedOf(old(State()), k)
    {
      if live[k].era > presEra {
        return;
      }
      pres := [Version(k, live[k])] + pres;
    }

    method SetValue(k: int, v: int) returns (ok: bool)
      modifies this
      ensures State() == SetOf(old(State()), k, v) && ok == (k in old(live))
    {
      if k !in live {
        return false;
      }
      if presEra > 0 {
        Preserve(k);
        curEra := curEra + 1;
        live := live[k := live[k].(era := curEra)];
      }
      live := live[k := live[k].(val := v)];
      ok := true;
    }

    method Del(k: int) returns (ok: bool)
      modifies this
      ensures State() == DelOf(old(State()), k) && ok == (k in old(live))
    {
      if k !in live {
        return false;
      }
      if presEra > 0 {
        Preserve(k);
        curEra := curEra + 1;
      }
      live := live - {k};
      ok := true;
    }

    method Snapshot() returns (era: nat)
      modifies this
      ensures State() == SnapshotOf(old(State())) && era == presEra
    {
      curEra := curEra + 1;
      presEra := curEra;
      curEra := curEra + 1;
      era := presEra;
    }

    /** Removes the nodes newer than era `t`; what removing them preserves is
        newer than `t` as well. */
    method RemoveNewer(t: nat)
      modifies this
      ensures live == old(live) - Newer(old(live), t) && presEra == old(presEra)
      ensures curEra == old(curEra) + if presEra > 0 then |Newer(old(live), t)| else 0
      ensures UpTo(pres, t) == UpTo(old(pres), t)
    {
      var toRemove := set k | k in live && live[k].era > t;
      ghost var newer := Newer(old(live), t);
      assert toRemove == newer;
      while toRemove != {}
        invariant toRemove <= newer && presEra == old(presEra)
        invariant live == old(live) - (newer - toRemove)
        invariant curEra == old(curEra) + if presEra > 0 then |newer| - |toRemove| else 0
        invariant UpTo(pres, t) == UpTo(old(pres), t)
        decreases |toRemove|
      {
        Inhabited(toRemove);
        var k :| k in toRemove;
        var ok := Del(k);
        toRemove := toRemove - {k};
      }
    }

    method Restore(t: nat)
      modifies this
      ensures State() == RestoreOf(old(State()), t)
    {
      if t == 0 || t >= curEra {
        return;
      }
      RemoveNewer(t);
      var toRestore := Older(t);
      pres := toRestore;
      Reinstall();
      presEra := 0;
      assert pres == [];
    }

    /** The preserved copies that are not newer than `t`, in list order. */
    method Older(t: nat) returns (toRestore: seq<Version>)
      ensures toRestore == UpTo(pres, t)
    {
      toRestore := [];
      var i := 0;
      while i < |pres|
        invariant 0 <= i <= |pres| && toRestore + UpTo(pres[i..], t) == UpTo(pres, t)
      {
        assert pres[i..][1..] == pres[i + 1..];
        if pres[i].entry.era <= t {
          assert toRestore + ([pres[i]] + UpTo(pres[i + 1..], t)) == (toRestore + [pres[i]]) + UpTo(pres[i + 1..], t);
          toRestore := toRestore + [pres[i]];
        }
        i := i + 1;
      }
    }

    /** Takes the preserved copies off their list one by one and inserts them. */
    method Reinstall()
      modifies this
      ensures State() == Reinsert(old(State()).(pres := []), old(pres)) && pres == []
    {
      ghost var start := State().(pres := []);
      ghost var all := pres;
      while pres != []
        invariant Reinsert(State().(pres := []), pres) == Reinsert(start, all)
        decreases |pres|
      {
        var v := pres[0];
        pres := pres[1..];
        if v.key !in live {
          var era := v.entry.era;
          if presEra > 0 {
            era := curEra;
            curEra := curEra + 1;
          }
          live := live[v.key := Entry(v.entry.val, era)];
        }
      }
    }
  }

  // ------------------------------------------------------------------
  // Any sequence of calls
  // ------------------------------------------------------------------

  datatype Call = PutCall(key: int, val: int) | SetCall(key: int, val: int) | DelCall(key: int) | SnapshotCall

  ghost function Apply(d: Db, c: Call): Db {
    match c
    case PutCall(k, v) => PutOf(d, k, v)
    case SetCall(k, v) => SetOf(d, k, v)
    case DelCall(k) => DelOf(d, k)
    case SnapshotCall => SnapshotOf(d)
  }

  ghost function Run(d: Db, calls: seq<Call>): Db {
    if calls == [] then d else Apply(Run(d, calls[..|calls| - 1]), calls[|calls| - 1])
  }

  /** What the caller sees. */
  ghost function Contents(live: map<int, Entry>): map<int, int> {
    map k | k in live :: live[k].val
  }

  /** The same call on a plain map. */
  ghost function PlainCall(m: map<int, int>, c: Call): map<int, int> {
    match c
    case PutCall(k, v) => if k in m then m else m[k := v]
    case SetCall(k, v) => if k in m then m[k := v] else m
    case DelCall(k) => m - {k}
    case SnapshotCall => m
  }

  ghost function PlainRun(m: map<int, int>, calls: seq<Call>): map<int, int> {
    if calls == [] then m else PlainCall(PlainRun(m, calls[..|calls| - 1]), calls[|calls| - 1])
  }

  /** Snapshot open or not, a call does to the contents what it does to a plain
      map. */
  lemma CallIsPlain(d: Db, c: Call)
    ensures Contents(Apply(d, c).live) == PlainCall(Contents(d.live), c)
  {
    var a, b := Contents(Apply(d, c).live), PlainCall(Contents(d.live), c);
    assert forall k: int :: k in a <==> k in b;
    assert forall k: int :: k in a ==> a[k] == b[k];
  }

  /** So over any calls the caller sees a plain map. */
  lemma {:induction false} RunIsPlain(d: Db, calls: seq<Call>)
    ensures Contents(Run(d, calls).live) == PlainRun(Contents(d.live), calls)
  {
    if calls != [] {
      RunIsPlain(d, calls[..|calls| - 1]);
      CallIsPlain(Run(d, calls[..|calls| - 1]), calls[|calls| - 1]);
    }
  }

  /** Eras never run ahead of the counter, and what is preserved is no newer
      than the latest snapshot. */
  ghost predicate Ok(d: Db) {
    && d.presEra <= d.curEra
    && (forall k <- d.live.Keys :: d.live[k].era <= d.curEra)
    && (forall v <- d.pres :: v.entry.era <= d.presEra)
    && (d.pres != [] ==> d.presEra > 0)
  }

  lemma ApplyKeepsOk(d: Db, c: Call)
    requires Ok(d)
    ensures Ok(Apply(d, c))
  {
  }

  lemma {:induction false} ReinsertKeeps(d: Db, versions: seq<Version>)
    ensures var r := Reinsert(d, versions);
            && r.presEra == d.presEra && r.curEra >= d.curEra && r.pres == d.pres
            && (forall k <- d.live.Keys :: k in r.live && r.live[k] == d.live[k])
            && (d.presEra > 0 ==> forall k <- r.live.Keys :: k in d.live || d.curEra <= r.live[k].era <= r.curEra)
    decreases |versions|
  {
    if versions != [] {
      var v := versions[0];
      var d' := if v.key in d.live then d
                else if d.presEra > 0 then d.(live := d.live[v.key := Entry(v.entry.val, d.curEra)], curEra := d.curEra + 1)
                else d.(live := d.live[v.key := v.entry]);
      ReinsertKeeps(d', versions[1..]);
    }
  }

  /** A restore never reinserts unless a snapshot was open. */
  lemma RestoreKeepsOk(d: Db, t: nat)
    requires Ok(d)
    ensures Ok(RestoreOf(d, t))
  {
    if 0 < t < d.curEra {
      var newer := Newer(d.live, t);
      var cur := d.curEra + if d.presEra > 0 then |newer| else 0;
      var d' := Db(d.live - newer, [], d.presEra, cur);
      ReinsertKeeps(d', UpTo(d.pres, t));
      if d.presEra == 0 {
        assert d.pres == [];
      }
    }
  }

  // ------------------------------------------------------------------
  // What has happened since a snapshot
  // ------------------------------------------------------------------

  /** The copies preserved since `d`. */
  ghost function PreservedSince(d: Db, c: Db): seq<Version>
    requires |c.pres| >= |d.pres|
  {
    c.pres[..|c.pres| - |d.pres|]
  }

  /** Key `k` since the snapshot of era `e` taken in state `d`: its node is
      untouched, or a copy of what it was has been preserved. */
  ghost predicate KeySince(d: Db, e: nat, c: Db, k: int)
    requires |c.pres| >= |d.pres|
  {
    var kept := UpTo(PreservedSince(d, c), e);
    if k in c.live && c.live[k].era <= e then
      k in d.live && c.live[k] == d.live[k]
    else
      k in d.live ==> Version(k, d.live[k]) in kept
  }

  ghost predicate CopyOf(d: Db, v: Version) {
    v.key in d.live && d.live[v.key] == v.entry
  }

  ghost predicate Since(d: Db, e: nat, c: Db) {
    && 0 < e <= c.presEra && e < c.curEra
    && |c.pres| >= |d.pres| && c.pres[|c.pres| - |d.pres|..] == d.pres
    && (forall k: int :: KeySince(d, e, c, k))
    && (forall v <- UpTo(PreservedSince(d, c), e) :: CopyOf(d, v))
  }

  lemma SinceSnapshot(d: Db)
    requires Ok(d)
    ensures Since(d, d.curEra + 1, SnapshotOf(d))
  {
    var e, c := d.curEra + 1, SnapshotOf(d);
    forall k: int
      ensures KeySince(d, e, c, k)
    {
      assert k in d.live ==> k in d.live.Keys;
    }
  }

  /** One preserved copy more. */
  lemma OneMore(d: Db, c: Db, c': Db, v: Version, e: nat)
    requires |c.pres| >= |d.pres| && c.pres[|c.pres| - |d.pres|..] == d.pres && c'.pres == [v] + c.pres
    ensures c'.pres[|c'.pres| - |d.pres|..] == d.pres
    ensures UpTo(PreservedSince(d, c'), e) == (if v.entry.era <= e then [v] else []) + UpTo(PreservedSince(d, c), e)
  {
    assert PreservedSince(d, c') == [v] + PreservedSince(d, c);
    assert PreservedSince(d, c')[1..] == PreservedSince(d, c);
  }

  lemma ApplyKeepsSince(d: Db, e: nat, c: Db, call: Call)
    requires Since(d, e, c)
    ensures Since(d, e, Apply(c, call))
  {
    var c' := Apply(c, call);
    if c'.pres != c.pres {
      OneMore(d, c, c', c'.pres[0], e);
      assert KeySince(d, e, c, c'.pres[0].key);
    }
    forall k: int
      ensures KeySince(d, e, c', k)
    {
      assert KeySince(d, e, c, k);
    }
  }

  lemma {:induction false} RunKeepsSince(d: Db, calls: seq<Call>)
    requires Ok(d)
    ensures Since(d, d.curEra + 1, Run(SnapshotOf(d), calls))
  {
    if calls == [] {
      SinceSnapshot(d);
    } else {
      RunKeepsSince(d, calls[..|calls| - 1]);
      ApplyKeepsSince(d, d.curEra + 1, Run(SnapshotOf(d), calls[..|calls| - 1]), calls[|calls| - 1]);
    }
  }

  // ------------------------------------------------------------------
  // What a restore brings back
  // ------------------------------------------------------------------

  /** Reinsertion seen by the caller: first come, first served. */
  ghost function InsertVals(m: map<int, int>, versions: seq<Version>): map<int, int>
    decreases |versions|
  {
    if versions == [] then m
    else
      var v := versions[0];
      InsertVals(if v.key in m then m else m[v.key := v.entry.val], versions[1..])
  }

  lemma {:induction false} ReinsertContents(d: Db, versions: seq<Version>)
    ensures Contents(Reinsert(d, versions).live) == InsertVals(Contents(d.live), versions)
    decreases |versions|
  {
    if versions != [] {
      var v := versions[0];
      var d' := if v.key in d.live then d
                else if d.presEra > 0 then d.(live := d.live[v.key := Entry(v.entry.val, d.curEra)], curEra := d.curEra + 1)
                else d.(live := d.live[v.key := v.entry]);
      assert Contents(d'.live) == if v.key in d.live then Contents(d.live) else Contents(d.live)[v.key := v.entry.val];
      ReinsertContents(d', versions[1..]);
    }
  }

  lemma {:induction false} InsertValsConcat(m: map<int, int>, a: seq<Version>, b: seq<Version>)
    ensures InsertVals(m, a + b) == InsertVals(InsertVals(m, a), b)
    decreases |a|
  {
    if a == [] {
      assert a + b == b;
    } else {
      var v := a[0];
      assert (a + b)[0] == v && (a + b)[1..] == a[1..] + b;
      InsertValsConcat(if v.key in m then m else m[v.key := v.entry.val], a[1..], b);
    }
  }

  lemma {:induction false} UpToConcat(a: seq<Version>, b: seq<Version>, t: nat)
    ensures UpTo(a + b, t) == UpTo(a, t) + UpTo(b, t)
  {
    if a == [] {
      assert a + b == b;
    } else {
      assert (a + b)[0] == a[0] && (a + b)[1..] == a[1..] + b;
      UpToConcat(a[1..], b, t);
      var first := if a[0].entry.era <= t then [a[0]] else [];
      assert first + (UpTo(a[1..], t) + UpTo(b, t)) == (first + UpTo(a[1..], t)) + UpTo(b, t);
    }
  }

  lemma {:induction false} UpToHas(a: seq<Version>, t: nat, v: Version)
    ensures v in UpTo(a, t) <==> v in a && v.entry.era <= t
  {
    if a != [] {
      UpToHas(a[1..], t, v);
      assert v in a <==> v == a[0] || v in a[1..];
    }
  }

  lemma {:induction false} UpToAll(a: seq<Version>, t: nat)
    requires forall v <- a :: v.entry.era <= t
    ensures UpTo(a, t) == a
  {
    if a != [] {
      UpToAll(a[1..], t);
    }
  }

  /** If the copies agree with `target` and cover what `m` lacks of it, the
      insertion completes it. */
  lemma {:induction false} InsertValsCompletes(m: map<int, int>, versions: seq<Version>, target: map<int, int>)
    requires forall k <- m.Keys :: k in target && target[k] == m[k]
    requires forall v <- versions :: v.key in target && target[v.key] == v.entry.val
    requires forall k <- target.Keys :: k in m || exists v :: v in versions && v.key == k
    ensures InsertVals(m, versions) == target
    decreases |versions|
  {
    if versions == [] {
      assert forall k: int :: k in m <==> k in target;
      assert forall k: int :: k in m ==> m[k] == target[k];
      assert m == target;
    } else {
      var v := versions[0];
      var m' := if v.key in m then m else m[v.key := v.entry.val];
      forall k | k in target.Keys
        ensures k in m' || exists w :: w in versions[1..] && w.key == k
      {
        if k !in m {
          var w :| w in versions && w.key == k;
          assert w == v || w in versions[1..];
        }
      }
      InsertValsCompletes(m', versions[1..], target);
    }
  }

  /** Insertion changes nothing exactly if every key is there already. */
  lemma {:induction false} InsertValsIdleIff(m: map<int, int>, versions: seq<Version>)
    ensures InsertVals(m, versions) == m <==> forall v <- versions :: v.key in m
    ensures forall k <- m.Keys :: k in InsertVals(m, versions) && InsertVals(m, versions)[k] == m[k]
    decreases |versions|
  {
    if versions != [] {
      var v := versions[0];
      var m' := if v.key in m then m else m[v.key := v.entry.val];
      InsertValsIdleIff(m', versions[1..]);
      if v.key !in m {
        assert v.key in m';
        assert v.key in InsertVals(m, versions);
      } else {
        assert forall w <- versions :: w == v || w in versions[1..];
      }
    }
  }

  /** The list once the nodes newer than `t` have been removed. */
  ghost function Stripped(c: Db, t: nat): Db {
    Db(c.live - Newer(c.live, t), [], c.presEra, c.curEra + if c.presEra > 0 then |Newer(c.live, t)| else 0)
  }

  lemma StrippedKeys(c: Db, t: nat)
    ensures forall k: int :: k in Stripped(c, t).live <==> k in c.live && c.live[k].era <= t
    ensures forall k: int :: k in Stripped(c, t).live ==> Stripped(c, t).live[k] == c.live[k]
  {
  }

  /** The untouched nodes and the copies kept since make up what the list held of
      era `t` and before. */
  lemma KeptCompletes(d: Db, e: nat, c: Db, t: nat)
    requires Since(d, e, c) && t <= e
    ensures InsertVals(Contents(Stripped(c, t).live), UpTo(PreservedSince(d, c), t)) == Contents(Stripped(d, t).live)
  {
    var since := PreservedSince(d, c);
    var live, target := Stripped(c, t).live, Stripped(d, t).live;
    StrippedKeys(c, t);
    StrippedKeys(d, t);
    forall k: int | k in live
      ensures k in target && target[k] == live[k]
    {
      assert KeySince(d, e, c, k);
    }
    forall v | v in UpTo(since, t)
      ensures v.key in target && target[v.key] == v.entry
    {
      UpToHas(since, t, v);
      UpToHas(since, e, v);
      assert CopyOf(d, v);
    }
    forall k: int | k in target
      ensures k in live || exists v :: v in UpTo(since, t) && v.key == k
    {
      assert KeySince(d, e, c, k);
      UpToHas(since, t, Version(k, d.live[k]));
      UpToHas(since, e, Version(k, d.live[k]));
      assert k in live || Version(k, d.live[k]) in UpTo(since, t);
    }
    InsertValsCompletes(Contents(live), UpTo(since, t), Contents(target));
  }

  /** Once a snapshot has been taken, no calls matter to a restore of its era or an
      earlier one: it gives what the list held of that era and before when the
      snapshot was taken, and for the other keys the newest copy of that age
      that was on the preserved list then. */
  lemma RestoreOfEraGives(d: Db, calls: seq<Call>, t: nat)
    requires Ok(d) && 0 < t <= SnapshotOf(d).presEra
    ensures var c := Run(SnapshotOf(d), calls);
            Contents(RestoreOf(c, t).live) == InsertVals(Contents(Stripped(d, t).live), UpTo(d.pres, t))
  {
    var e, c := d.curEra + 1, Run(SnapshotOf(d), calls);
    RunKeepsSince(d, calls);
    RestoreIs(c, t);
    assert c.pres == PreservedSince(d, c) + d.pres;
    UpToConcat(PreservedSince(d, c), d.pres, t);
    InsertValsConcat(Contents(Stripped(c, t).live), UpTo(PreservedSince(d, c), t), UpTo(d.pres, t));
    KeptCompletes(d, e, c, t);
  }

  /** Whatever puts, sets, deletes and further snapshots follow a snapshot, the
      restore of its era gives the contents it was taken of -- plus, for keys
      absent then, the newest copy that was already on the preserved list. */
  lemma RestoreGives(d: Db, calls: seq<Call>)
    requires Ok(d)
    ensures var e, c := SnapshotOf(d).presEra, Run(SnapshotOf(d), calls);
            Contents(RestoreOf(c, e).live) == InsertVals(Contents(d.live), d.pres)
  {
    var e := d.curEra + 1;
    RestoreOfEraGives(d, calls, e);
    UpToAll(d.pres, e);
    StrippedKeys(d, e);
    assert forall k: int :: k in d.live ==> k in d.live.Keys && d.live[k].era <= e;
    assert forall k: int :: k in Stripped(d, e).live <==> k in d.live;
    assert Stripped(d, e).live == d.live;
  }

  lemma RestoreIs(c: Db, t: nat)
    requires 0 < t < c.curEra
    ensures Contents(RestoreOf(c, t).live) == InsertVals(Contents(Stripped(c, t).live), UpTo(c.pres, t))
  {
    ReinsertContents(Stripped(c, t), UpTo(c.pres, t));
  }

  /** So the restore is exact if and only if, when the snapshot was taken, every
      key on the preserved list was still in the list. */
  lemma RestoreIsExactIff(d: Db, calls: seq<Call>)
    requires Ok(d)
    ensures var e, c := SnapshotOf(d).presEra, Run(SnapshotOf(d), calls);
            Contents(RestoreOf(c, e).live) == Contents(d.live) <==> forall v <- d.pres :: v.key in d.live
  {
    RestoreGives(d, calls);
    InsertValsIdleIff(Contents(d.live), d.pres);
  }

  /** The first snapshot -- of a new list, or after a restore --
      always restores exactly. */
  lemma FirstSnapshotIsExact(d: Db, calls: seq<Call>)
    requires Ok(d) && d.presEra == 0
    ensures var e, c := SnapshotOf(d).presEra, Run(SnapshotOf(d), calls);
            Contents(RestoreOf(c, e).live) == Contents(d.live)
  {
    RestoreIsExactIff(d, calls);
  }

  /** A deletion between two snapshots spoils the second. */
  lemma DeletionSpoilsLaterSnapshot()
    ensures var d := Run(Db(map[], [], 0, 0), [PutCall(10, 1), SnapshotCall, DelCall(10)]);
            && Ok(d) && 10 !in d.live
            && 10 in RestoreOf(SnapshotOf(d), SnapshotOf(d).presEra).live
  {
    var d0 := Db(map[], [], 0, 0);
    var calls := [PutCall(10, 1), SnapshotCall, DelCall(10)];
    assert calls[..2][..1] == [PutCall(10, 1)] && calls[..2] == [PutCall(10, 1), SnapshotCall];
    assert [PutCall(10, 1)][..0] == [];
    var d := Run(d0, calls);
    var before := SnapshotOf(PutOf(d0, 10, 1));
    assert d == DelOf(before, 10) && before.live == map[10 := Entry(1, 0)];
    assert before.live - {10} == map[];
    assert d.pres == [Version(10, Entry(1, 0))] && d.live == map[];
    RestoreGives(d, []);
    InsertValsIdleIff(map[], d.pres);
    assert InsertVals(map[], d.pres) == InsertVals(map[10 := 1], d.pres[1..]);
  }

  // ------------------------------------------------------------------
  // Restoring twice
  // ------------------------------------------------------------------

  lemma {:induction false} RunConcat(d: Db, a: seq<Call>, b: seq<Call>)
    ensures Run(d, a + b) == Run(Run(d, a), b)
    decreases |b|
  {
    if b == [] {
      assert a + b == a;
    } else {
      assert (a + b)[..|a + b| - 1] == a + b[..|b| - 1];
      RunConcat(d, a, b[..|b| - 1]);
    }
  }

  /** The calls before the first snapshot. */
  ghost function Unopened(calls: seq<Call>): seq<Call> {
    if calls == [] || calls[0].SnapshotCall? then [] else [calls[0]] + Unopened(calls[1..])
  }

  lemma {:induction false} OpensAt(calls: seq<Call>) returns (rest: seq<Call>)
    ensures forall c <- Unopened(calls) :: !c.SnapshotCall?
    ensures calls == Unopened(calls) || calls == Unopened(calls) + [SnapshotCall] + rest
  {
    rest := [];
    if calls != [] && calls[0].SnapshotCall? {
      rest := calls[1..];
    } else if calls != [] {
      rest := OpensAt(calls[1..]);
      assert calls == [calls[0]] + calls[1..];
    }
  }

  /** With no snapshot open nothing is preserved. */
  lemma {:induction false} UnopenedKeeps(d: Db, calls: seq<Call>)
    requires Ok(d) && d.presEra == 0 && forall c <- calls :: !c.SnapshotCall?
    ensures var x := Run(d, calls); Ok(x) && x.presEra == 0 && x.pres == [] && x.curEra == d.curEra
    decreases |calls|
  {
    if calls != [] {
      UnopenedKeeps(d, calls[..|calls| - 1]);
      ApplyKeepsOk(Run(d, calls[..|calls| - 1]), calls[|calls| - 1]);
    }
  }

  /** After a restore and any calls, a restore to an earlier era `e` gives the nodes
      of that era and before, as they were when the next snapshot was taken, or
      are now, if none was. */
  lemma SecondRestoreGives(r: Db, more: seq<Call>, e: nat)
    requires Ok(r) && r.presEra == 0 && 0 < e < r.curEra
    ensures Contents(RestoreOf(Run(r, more), e).live) == Contents(Stripped(Run(r, Unopened(more)), e).live)
  {
    var x := Run(r, Unopened(more));
    var rest := OpensAt(more);
    UnopenedKeeps(r, Unopened(more));
    if more != Unopened(more) {
      RunConcat(r, Unopened(more) + [SnapshotCall], rest);
      RunConcat(r, Unopened(more), [SnapshotCall]);
      assert [SnapshotCall][..0] == [];
      assert Run(x, [SnapshotCall]) == SnapshotOf(x);
      RestoreOfEraGives(x, rest, e);
    }
  }

  /** A restore to a later era leaves the nodes of era `e` and before alone, and
      stamps what it reinserts later than that. */
  lemma StillOld(d: Db, e: nat, c: Db, t: nat, k: int)
    requires Since(d, e, c) && e < t < c.curEra
    ensures var r := RestoreOf(c, t);
            && (k in r.live && r.live[k].era <= e <==> k in d.live && k in c.live && c.live[k].era <= e)
            && (k in r.live && r.live[k].era <= e ==> r.live[k] == d.live[k])
  {
    ReinsertKeeps(Stripped(c, t), UpTo(c.pres, t));
    StrippedKeys(c, t);
    assert KeySince(d, e, c, k);
    assert k in Stripped(c, t).live.Keys <==> k in c.live && c.live[k].era <= t;
    assert k in RestoreOf(c, t).live ==> k in RestoreOf(c, t).live.Keys;
  }

  /** After a restore to any later era nothing is preserved any more: of an older
      snapshot only the nodes untouched since are left. */
  lemma OlderEraGives(d: Db, calls: seq<Call>, t: nat)
    requires Ok(d)
    requires var e, c := SnapshotOf(d).presEra, Run(SnapshotOf(d), calls); e < t < c.curEra
    ensures var e, c := SnapshotOf(d).presEra, Run(SnapshotOf(d), calls);
            Stripped(RestoreOf(c, t), e).live == map k | k in d.live && k in c.live && c.live[k].era <= e :: d.live[k]
  {
    var e, c := d.curEra + 1, Run(SnapshotOf(d), calls);
    RunKeepsSince(d, calls);
    var r := RestoreOf(c, t);
    forall k: int
      ensures k in Stripped(r, e).live <==> k in d.live && k in c.live && c.live[k].era <= e
      ensures k in Stripped(r, e).live ==> Stripped(r, e).live[k] == d.live[k]
    {
      StillOld(d, e, c, t, k);
      StrippedKeys(r, e);
    }
  }

  /** A call that changes what the list holds of era `e` and before while no
      snapshot is open: it puts in a node, which gets era 0, or overwrites or
      deletes an old one, which nothing preserves. */
  ghost predicate Touches(x: Db, c: Call, e: nat) {
    match c
    case PutCall(k, _) => k !in x.live
    case SetCall(k, v) => k in x.live && x.live[k].era <= e && x.live[k].val != v
    case DelCall(k) => k in x.live && x.live[k].era <= e
    case SnapshotCall => false
  }

  lemma TouchesIff(x: Db, c: Call, e: nat)
    requires x.presEra == 0
    ensures Contents(Stripped(Apply(x, c), e).live) == Contents(Stripped(x, e).live) <==> !Touches(x, c, e)
  {
    var a, b := Contents(Stripped(Apply(x, c), e).live), Contents(Stripped(x, e).live);
    StrippedKeys(Apply(x, c), e);
    StrippedKeys(x, e);
    if Touches(x, c, e) {
      assert (c.key in a && c.key !in b) || (c.key in b && c.key !in a) || (c.key in a && c.key in b && a[c.key] != b[c.key]);
    } else {
      assert forall k: int :: k in a <==> k in b;
      assert forall k: int :: k in a ==> a[k] == b[k];
    }
  }

  /** Key `k` is as it was, and has a node of era `e` or before if it had any. */
  ghost predicate KeyAsOf(d: Db, x: Db, e: nat, k: int) {
    && (k in d.live <==> k in x.live && x.live[k].era <= e)
    && (k in d.live ==> x.live[k].val == d.live[k].val)
  }

  /** The older snapshot is still exact, whatever calls come between the two
      restores, if and only if, when the next snapshot was taken (or now), each of
      its keys had a node of its era or before with the value it had, and no other
      key had one. */
  lemma OlderEraIsExactIff(d: Db, calls: seq<Call>, t: nat, more: seq<Call>)
    requires Ok(d)
    requires var e, c := SnapshotOf(d).presEra, Run(SnapshotOf(d), calls); e < t < c.curEra
    ensures var e, r := SnapshotOf(d).presEra, RestoreOf(Run(SnapshotOf(d), calls), t);
            Contents(RestoreOf(Run(r, more), e).live) == Contents(d.live)
            <==> forall k: int :: KeyAsOf(d, Run(r, Unopened(more)), e, k)
  {
    var e, c := d.curEra + 1, Run(SnapshotOf(d), calls);
    var r := RestoreOf(c, t);
    RestoredIsOk(d, calls, t);
    SecondRestoreGives(r, more, e);
    AsOfIff(d, Run(r, Unopened(more)), e);
  }

  lemma AsOfIff(d: Db, x: Db, e: nat)
    ensures Contents(Stripped(x, e).live) == Contents(d.live) <==> forall k: int :: KeyAsOf(d, x, e, k)
  {
    StrippedKeys(x, e);
    var a, b := Contents(Stripped(x, e).live), Contents(d.live);
    if a == b {
      forall k: int
        ensures KeyAsOf(d, x, e, k)
      {
        assert k in a <==> k in b;
      }
    }
    if forall k: int :: KeyAsOf(d, x, e, k) {
      forall k: int
        ensures k in a <==> k in b
        ensures k in a ==> a[k] == b[k]
      {
        assert KeyAsOf(d, x, e, k);
      }
      assert a == b;
    }
  }

  /** With no calls in between: if and only if each of its keys still has the node
      it had. */
  lemma OlderEraAtOnceIsExactIff(d: Db, calls: seq<Call>, t: nat)
    requires Ok(d)
    requires var e, c := SnapshotOf(d).presEra, Run(SnapshotOf(d), calls); e < t < c.curEra
    ensures var e, c := SnapshotOf(d).presEra, Run(SnapshotOf(d), calls);
            Contents(RestoreOf(RestoreOf(c, t), e).live) == Contents(d.live)
            <==> forall k <- d.live.Keys :: k in c.live && c.live[k].era <= e
  {
    var e, c := d.curEra + 1, Run(SnapshotOf(d), calls);
    RestoredIsOk(d, calls, t);
    SecondRestoreGives(RestoreOf(c, t), [], e);
    OlderEraGives(d, calls, t);
    PartIsAllIff(d.live, map k | k in d.live && k in c.live && c.live[k].era <= e :: d.live[k]);
  }

  lemma PartIsAllIff(live: map<int, Entry>, part: map<int, Entry>)
    requires forall k <- part.Keys :: k in live && part[k] == live[k]
    ensures Contents(part) == Contents(live) <==> forall k <- live.Keys :: k in part
  {
    assert forall k: int :: k in Contents(part) <==> k in part;
    assert forall k: int :: k in part ==> k in part.Keys;
    assert forall k: int :: k in Contents(live) <==> k in live;
    if forall k <- live.Keys :: k in part {
      assert forall k: int :: k in live ==> k in live.Keys;
      assert forall k: int :: k in part <==> k in live;
      assert forall k: int :: k in part ==> part[k] == live[k];
      assert part == live;
    }
  }

  lemma RestoredIsOk(d: Db, calls: seq<Call>, t: nat)
    requires Ok(d)
    requires var e, c := SnapshotOf(d).presEra, Run(SnapshotOf(d), calls); e < t < c.curEra
    ensures var r := RestoreOf(Run(SnapshotOf(d), calls), t); Ok(r) && r.presEra == 0 && t < r.curEra
  {
    var c := Run(SnapshotOf(d), calls);
    ApplyKeepsOk(d, SnapshotCall);
    RunKeepsOk(SnapshotOf(d), calls);
    RestoreKeepsOk(c, t);
    ReinsertKeeps(Stripped(c, t), UpTo(c.pres, t));
  }

  lemma {:induction false} RunKeepsOk(d: Db, calls: seq<Call>)
    requires Ok(d)
    ensures Ok(Run(d, calls))
    decreases |calls|
  {
    if calls != [] {
      RunKeepsOk(d, calls[..|calls| - 1]);
      ApplyKeepsOk(Run(d, calls[..|calls| - 1]), calls[|calls| - 1]);
    }
  }

  /** A node put in while no snapshot is open has era 0 and survives every
      later restore. */
  lemma PutAfterRestoreStays(d: Db, k: int, v: int, t: nat)
    requires Ok(d) && d.presEra == 0 && k !in d.live && 0 < t < d.curEra
    ensures k in RestoreOf(PutOf(d, k, v), t).live
  {
    var d' := PutOf(d, k, v);
    ReinsertKeeps(Db(d'.live - Newer(d'.live, t), [], 0, d'.curEra), UpTo(d'.pres, t));
  }
}
