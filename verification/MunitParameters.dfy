/**
  Running a test once for every combination of its parameter values.

  A parameter's value is named by its position in the parameter's list.  The
  array of parameters is filled in place: the caller's fixed values first, then
  one place for each parameter that ranges over its list.
 */
module MunitParameters {

  type Combination = seq<nat>

  /** All combinations that begin with `prefix`, in the order of nested loops. */
  ghost function Product(prefix: Combination, sizes: seq<nat>): seq<Combination>
    decreases |sizes|, 0, 0
  {
    if sizes == [] then [prefix] else Blocks(prefix, sizes, 0)
  }

  ghost function Blocks(prefix: Combination, sizes: seq<nat>, i: nat): seq<Combination>
    requires sizes != [] && i <= sizes[0]
    decreases |sizes| - 1, 1, sizes[0] - i
  {
    if i == sizes[0] then [] else Product(prefix + [i], sizes[1..]) + Blocks(prefix, sizes, i + 1)
  }

  ghost predicate AllPositive(sizes: seq<nat>) {
    forall j :: 0 <= j < |sizes| ==> sizes[j] > 0
  }

  lemma {:induction false} ProductIsNotEmpty(prefix: Combination, sizes: seq<nat>)
    requires AllPositive(sizes)
    ensures Product(prefix, sizes) != []
    decreases |sizes|
  {
    if sizes != [] {
      ProductIsNotEmpty(prefix + [0], sizes[1..]);
    }
  }

  // ------------------------------------------------------------------
  // The combinations
  // ------------------------------------------------------------------

  /** A combination of values within the lists, after the prefix. */
  ghost predicate Completes(c: Combination, prefix: Combination, sizes: seq<nat>) {
    && |c| == |prefix| + |sizes| && c[..|prefix|] == prefix
    && forall j :: 0 <= j < |sizes| ==> c[|prefix| + j] < sizes[j]
  }

  /** Every combination is among them, and nothing else. */
  lemma {:induction false} InProductIff(c: Combination, prefix: Combination, sizes: seq<nat>)
    ensures c in Product(prefix, sizes) <==> Completes(c, prefix, sizes)
    decreases |sizes|, 0, 0
  {
    if sizes == [] {
      assert |c| == |prefix| ==> c[..|prefix|] == c;
    } else {
      InBlocksIff(c, prefix, sizes, 0);
    }
  }

  lemma {:induction false} InBlocksIff(c: Combination, prefix: Combination, sizes: seq<nat>, i: nat)
    requires sizes != [] && i <= sizes[0]
    ensures c in Blocks(prefix, sizes, i) <==> Completes(c, prefix, sizes) && c[|prefix|] >= i
    decreases |sizes| - 1, 1, sizes[0] - i
  {
    if i < sizes[0] {
      InProductIff(c, prefix + [i], sizes[1..]);
      InBlocksIff(c, prefix, sizes, i + 1);
      CompletesNext(c, prefix, sizes, i);
    }
  }

  lemma CompletesNext(c: Combination, prefix: Combination, sizes: seq<nat>, i: nat)
    requires sizes != [] && i < sizes[0]
    ensures Completes(c, prefix + [i], sizes[1..]) <==> Completes(c, prefix, sizes) && c[|prefix|] == i
  {
    var p := prefix + [i];
    if |c| == |prefix| + |sizes| {
      assert c[..|p|] == c[..|prefix|] + [c[|prefix|]];
      if Completes(c, p, sizes[1..]) {
        assert c[..|p|][..|prefix|] == p[..|prefix|] == prefix && c[..|p|][|prefix|] == i;
        forall j | 0 <= j < |sizes|
          ensures c[|prefix| + j] < sizes[j]
        {
          assert j > 0 ==> c[|p| + (j - 1)] < sizes[1..][j - 1];
        }
      }
      if Completes(c, prefix, sizes) && c[|prefix|] == i {
        forall j | 0 <= j < |sizes[1..]|
          ensures c[|p| + j] < sizes[1..][j]
        {
          assert c[|prefix| + (j + 1)] < sizes[j + 1];
        }
      }
    }
  }

  /** The first place in which two combinations differ decides. */
  ghost predicate Before(a: Combination, b: Combination) {
    exists k :: 0 <= k < |a| && k < |b| && a[..k] == b[..k] && a[k] < b[k]
  }

  ghost predicate InOrder(xs: seq<Combination>, i: nat, j: nat)
    requires i < |xs| && j < |xs|
  {
    Before(xs[i], xs[j])
  }

  /** Lexicographic order; so no combination comes twice. */
  ghost predicate Lexicographic(xs: seq<Combination>) {
    forall i, j :: 0 <= i < j < |xs| ==> InOrder(xs, i, j)
  }

  lemma BeforeIsStrict(a: Combination, b: Combination)
    requires Before(a, b)
    ensures a != b
  {
  }

  lemma {:induction false} ProductIsLexicographic(prefix: Combination, sizes: seq<nat>)
    ensures Lexicographic(Product(prefix, sizes))
    decreases |sizes|, 0, 0
  {
    if sizes != [] {
      BlocksAreLexicographic(prefix, sizes, 0);
    }
  }

  lemma {:induction false} BlocksAreLexicographic(prefix: Combination, sizes: seq<nat>, i: nat)
    requires sizes != [] && i <= sizes[0]
    ensures Lexicographic(Blocks(prefix, sizes, i))
    decreases |sizes| - 1, 1, sizes[0] - i
  {
    if i < sizes[0] {
      var a, b := Product(prefix + [i], sizes[1..]), Blocks(prefix, sizes, i + 1);
      ProductIsLexicographic(prefix + [i], sizes[1..]);
      BlocksAreLexicographic(prefix, sizes, i + 1);
      forall x, y | x in a && y in b
        ensures Before(x, y)
      {
        InProductIff(x, prefix + [i], sizes[1..]);
        CompletesNext(x, prefix, sizes, i);
        InBlocksIff(y, prefix, sizes, i + 1);
        assert x[..|prefix|] == y[..|prefix|] && x[|prefix|] < y[|prefix|];
      }
      Joined(a, b);
    }
  }

  lemma Joined(a: seq<Combination>, b: seq<Combination>)
    requires Lexicographic(a) && Lexicographic(b) && forall x, y :: x in a && y in b ==> Before(x, y)
    ensures Lexicographic(a + b)
  {
    forall i, j | 0 <= i < j < |a + b|
      ensures InOrder(a + b, i, j)
    {
      if j < |a| {
        assert InOrder(a, i, j);
      } else if i >= |a| {
        assert InOrder(b, i - |a|, j - |a|);
      } else {
        assert (a + b)[i] in a && (a + b)[j] in b;
      }
    }
  }

  // ------------------------------------------------------------------
  // What is run
  // ------------------------------------------------------------------

  /** The combinations run out of `xs`: all of them, or -- if failures are fatal
      -- up to the first that leaves the report with a failure. */
  ghost function Executed(xs: seq<Combination>, fatal: bool, failed: bool, fails: Combination -> bool): seq<Combination> {
    if xs == [] then []
    else if fatal && (failed || fails(xs[0])) then [xs[0]]
    else [xs[0]] + Executed(xs[1..], fatal, failed || fails(xs[0]), fails)
  }

  ghost predicate AnyFails(xs: seq<Combination>, fails: Combination -> bool) {
    exists i :: 0 <= i < |xs| && fails(xs[i])
  }

  lemma {:induction false} ExecutedSum(a: seq<Combination>, b: seq<Combination>, fatal: bool, failed: bool, fails: Combination -> bool)
    requires a != []
    ensures var ran := Executed(a, fatal, failed, fails);
            var bad := failed || AnyFails(ran, fails);
            Executed(a + b, fatal, failed, fails) == if fatal && bad then ran else ran + Executed(b, fatal, bad, fails)
    decreases |a|
  {
    var ran := Executed(a, fatal, failed, fails);
    var now := failed || fails(a[0]);
    assert (a + b)[0] == a[0] && (a + b)[1..] == a[1..] + b;
    if !(fatal && now) {
      if |a| == 1 {
        assert a[1..] + b == b && ran == [a[0]];
        AnyOfOne(a[0], fails);
      } else {
        ExecutedSum(a[1..], b, fatal, now, fails);
        var rest := Executed(a[1..], fatal, now, fails);
        assert ran == [a[0]] + rest;
        AnyOfMore(a[0], rest, fails);
      }
    } else {
      AnyOfOne(a[0], fails);
    }
  }

  lemma AnyOfOne(x: Combination, fails: Combination -> bool)
    ensures AnyFails([x], fails) <==> fails(x)
  {
    if fails(x) {
      assert fails([x][0]);
    }
  }

  lemma AnyOfMore(x: Combination, rest: seq<Combination>, fails: Combination -> bool)
    ensures AnyFails([x] + rest, fails) <==> fails(x) || AnyFails(rest, fails)
  {
    var all := [x] + rest;
    if fails(x) {
      assert fails(all[0]);
    }
    if i :| 0 <= i < |rest| && fails(rest[i]) {
      assert fails(all[i + 1]);
    }
  }

  lemma AnyOfSum(a: seq<Combination>, b: seq<Combination>, fails: Combination -> bool)
    ensures AnyFails(a + b, fails) <==> AnyFails(a, fails) || AnyFails(b, fails)
  {
    if i :| 0 <= i < |a| && fails(a[i]) {
      assert fails((a + b)[i]);
    }
    if i :| 0 <= i < |b| && fails(b[i]) {
      assert fails((a + b)[|a| + i]);
    }
  }

  /** Without fatal failures everything is run. */
  lemma {:induction false} AllExecuted(xs: seq<Combination>, failed: bool, fails: Combination -> bool)
    ensures Executed(xs, false, failed, fails) == xs
  {
    if xs != [] {
      AllExecuted(xs[1..], failed || fails(xs[0]), fails);
    }
  }

  /** With them, from a clean report, exactly the combinations up to the first
      failing one. */
  lemma {:induction false} FatalStopsAtFirst(xs: seq<Combination>, fails: Combination -> bool)
    ensures var ran := Executed(xs, true, false, fails);
            && ran <= xs
            && (forall i :: 0 <= i < |ran| - 1 ==> !fails(ran[i]))
            && (|ran| < |xs| ==> ran != [] && fails(ran[|ran| - 1]))
  {
    if xs != [] && !fails(xs[0]) {
      FatalStopsAtFirst(xs[1..], fails);
    }
  }

  lemma Associates(a: seq<Combination>, b: seq<Combination>, c: seq<Combination>)
    ensures (a + b) + c == a + (b + c)
  {
  }

  /** What has been run once the values before `value` are done, and what will
      have been run in the end, in any case. */
  ghost predicate Continues(all: seq<Combination>, ran: seq<Combination>, prefix: Combination, sizes: seq<nat>, value: nat,
                            fatal: bool, failed: bool, fails: Combination -> bool)
    requires sizes != [] && value <= sizes[0]
  {
    all == ran + Executed(Blocks(prefix, sizes, value), fatal, failed, fails)
  }

  ghost function OneValue(prefix: Combination, sizes: seq<nat>, value: nat, fatal: bool, failed: bool,
                          fails: Combination -> bool): seq<Combination>
    requires sizes != []
  {
    Executed(Product(prefix + [value], sizes[1..]), fatal, failed, fails)
  }

  lemma NextBlock(all: seq<Combination>, ran: seq<Combination>, prefix: Combination, sizes: seq<nat>, value: nat,
                  fatal: bool, failed: bool, fails: Combination -> bool)
    requires sizes != [] && AllPositive(sizes) && value < sizes[0]
    requires Continues(all, ran, prefix, sizes, value, fatal, failed, fails)
    ensures var more := OneValue(prefix, sizes, value, fatal, failed, fails);
            var bad := failed || AnyFails(more, fails);
            if fatal && bad then all == ran + more
            else Continues(all, ran + more, prefix, sizes, value + 1, fatal, bad, fails)
  {
    var block, rest := Product(prefix + [value], sizes[1..]), Blocks(prefix, sizes, value + 1);
    var more := Executed(block, fatal, failed, fails);
    ProductIsNotEmpty(prefix + [value], sizes[1..]);
    ExecutedSum(block, rest, fatal, failed, fails);
    Associates(ran, more, Executed(rest, fatal, failed || AnyFails(more, fails), fails));
  }

  lemma OneRun(c: Combination, fatal: bool, failed: bool, fails: Combination -> bool)
    ensures Executed(Product(c, []), fatal, failed, fails) == [c]
    ensures AnyFails([c], fails) <==> fails(c)
  {
    AnyOfOne(c, fails);
  }

  lemma FirstContinues(prefix: Combination, sizes: seq<nat>, fatal: bool, failed: bool, fails: Combination -> bool)
    requires sizes != []
    ensures Continues(Executed(Product(prefix, sizes), fatal, failed, fails), [], prefix, sizes, 0, fatal, failed, fails)
  {
    var all := Executed(Product(prefix, sizes), fatal, failed, fails);
    assert [] + all == all;
  }

  lemma LastContinues(all: seq<Combination>, ran: seq<Combination>, prefix: Combination, sizes: seq<nat>,
                      fatal: bool, failed: bool, fails: Combination -> bool)
    requires sizes != [] && Continues(all, ran, prefix, sizes, sizes[0], fatal, failed, fails)
    ensures all == ran
  {
    assert ran + [] == ran;
  }

  class Runner {
    const fatal: bool
    const fails: Combination -> bool
    var failed: bool
    var log: seq<Combination>

    constructor (fatal: bool, fails: Combination -> bool)
      ensures this.fatal == fatal && this.fails == fails && !failed && log == []
    {
      this.fatal, this.fails := fatal, fails;
      failed, log := false, [];
    }

    method RunWithParams(params: array<nat>)
      modifies this
      ensures log == old(log) + [params[..]] && failed == (old(failed) || fails(params[..]))
    {
      log := log + [params[..]];
      failed := failed || fails(params[..]);
    }

    /** Runs through the values of the parameter at `p`, and for each of them
        through all combinations of the parameters after it, in place. */
    method RunWild(params: array<nat>, p: nat, sizes: seq<nat>)
      requires p + |sizes| == params.Length && sizes != [] && AllPositive(sizes)
      modifies this, params
      ensures params[..p] == old(params[..p])
      ensures var ran := Executed(Product(old(params[..p]), sizes), fatal, old(failed), fails);
              log == old(log) + ran && failed == (old(failed) || AnyFails(ran, fails))
      decreases |sizes|, 1
    {
      ghost var prefix, start, wasFailed := params[..p], log, failed;
      ghost var all := Executed(Product(prefix, sizes), fatal, wasFailed, fails);
      ghost var ran: seq<Combination> := [];
      FirstContinues(prefix, sizes, fatal, failed, fails);
      var value := 0;
      while value < sizes[0]
        invariant 0 <= value <= sizes[0] && params[..p] == prefix && log == start + ran
        invariant failed == (wasFailed || AnyFails(ran, fails))
        invariant Continues(all, ran, prefix, sizes, value, fatal, failed, fails)
      {
        ghost var more := OneValue(prefix, sizes, value, fatal, failed, fails);
        NextBlock(all, ran, prefix, sizes, value, fatal, failed, fails);
        AnyOfSum(ran, more, fails);
        Associates(start, ran, more);
        RunValue(params, p, sizes, value);
        ran := ran + more;
        if fatal && failed {
          return;
        }
        value := value + 1;
      }
      LastContinues(all, ran, prefix, sizes, fatal, failed, fails);
    }

    /** One value of the parameter at `p`: the innermost parameter runs the test,
        the others recurse. */
    method RunValue(params: array<nat>, p: nat, sizes: seq<nat>, value: nat)
      requires p + |sizes| == params.Length && sizes != [] && AllPositive(sizes)
      modifies this, params
      ensures params[..p] == old(params[..p])
      ensures var more := OneValue(old(params[..p]), sizes, value, fatal, old(failed), fails);
              log == old(log) + more && failed == (old(failed) || AnyFails(more, fails))
      decreases |sizes|, 0
    {
      params[p] := value;
      assert params[..p + 1] == old(params[..p]) + [value];
      if p + 1 == params.Length {
        assert params[..p + 1] == params[..] && sizes[1..] == [];
        OneRun(params[..], fatal, failed, fails);
        RunWithParams(params);
      } else {
        RunWild(params, p + 1, sizes[1..]);
        assert params[..p] == params[..p + 1][..p];
      }
    }
  }
}
