/**
  The slot pool: one block of memory cut into slots of equal size, a state word
  per slot, and a rotating cursor from which the search for a free slot starts.

  `word` is the number of values of a size_t.  Addresses are numbers below it,
  and every product and sum that the program computes in a size_t is taken
  modulo `word`.  What a slot holds is the subject of module SlotRuns.
 */
module SlotPool {

  const INT32_MAX: nat := 0x7FFF_FFFF
  const EINVAL: int := 22
  const ENOMEM: int := 12

  /** The conversion of a size_t to an int32_t. */
  function Int32(x: nat): (r: int)
    ensures x <= INT32_MAX ==> r == x
    ensures -0x8000_0000 <= r <= INT32_MAX
  {
    var low := x % 0x1_0000_0000;
    if low <= INT32_MAX then low else low - 0x1_0000_0000
  }

  /** The size of a slot, rounded to cache lines. */
  function SlotSize(raw: nat): (r: nat)
    ensures r % 64 == 0 && raw <= r < raw + 64
  {
    (raw + 63) / 64 * 64
  }

  /** The index of the slot at offset `n` in a block of `end` bytes, or -1. */
  function IndexIn(n: nat, end: nat, size: nat): int
    requires size > 0
  {
    if n >= end || n % size != 0 then -1 else Int32(n / size)
  }

  /** The index of the slot at address `p`, or -1. */
  function IndexAt(p: nat, base: nat, capacity: nat, size: nat, word: nat): int
    requires size > 0 && word > 0
  {
    if p < base then -1 else IndexIn(p - base, capacity * size % word, size)
  }

  lemma Grows(a: nat, b: nat, size: nat)
    requires a <= b
    ensures a * size <= b * size
  {
    var d := b - a;
    assert b * size == (a + d) * size == a * size + d * size;
  }

  lemma Next(a: nat, size: nat)
    ensures (a + 1) * size == a * size + size
  {
  }

  lemma AtMostOne(a: nat, b: nat, size: nat, x: int, y: int)
    requires 0 <= x < size && 0 <= y && a * size + x == b * size + y
    ensures a >= b
  {
    if a < b {
      Grows(a + 1, b, size);
      Next(a, size);
      assert false;
    }
  }

  lemma QuotientIs(n: nat, size: nat, i: nat, r: nat)
    requires size > 0 && n == i * size + r && r < size
    ensures n / size == i && n % size == r
  {
    var q, m := n / size, n % size;
    DivMod(n, size);
    AtMostOne(q, i, size, m, r);
    AtMostOne(i, q, size, r, m);
  }

  lemma DivMod(n: nat, size: nat)
    requires size > 0
    ensures n == n / size * size + n % size
  {
  }

  lemma Small(n: nat, word: nat)
    requires n < word
    ensures n % word == n
  {
  }

  lemma AddressHasIndex(i: nat, base: nat, capacity: nat, size: nat, word: nat)
    requires size > 0 && capacity * size < word && i < capacity
    ensures IndexAt(base + i * size, base, capacity, size, word) == Int32(i)
  {
    Small(capacity * size, word);
    SlotInRange(i, capacity, size);
  }

  lemma IndexHasAddress(p: nat, base: nat, capacity: nat, size: nat, word: nat)
    requires size > 0 && capacity * size < word && capacity <= INT32_MAX
    ensures var i := IndexAt(p, base, capacity, size, word); i == -1 || (0 <= i < capacity && p == base + i * size)
  {
    Small(capacity * size, word);
    if p >= base {
      OffsetHasIndex(p - base, capacity, size, capacity * size);
    }
  }

  lemma OffsetHasIndex(n: nat, capacity: nat, size: nat, end: nat)
    requires size > 0 && end == capacity * size && capacity <= INT32_MAX
    ensures var i := IndexIn(n, end, size); i == -1 || (0 <= i < capacity && n == i * size)
  {
    DivMod(n, size);
    if n < end {
      QuotientIsBelow(n, size, capacity);
    }
  }

  lemma QuotientIsBelow(n: nat, size: nat, capacity: nat)
    requires size > 0 && n < capacity * size
    ensures n / size < capacity
  {
    DivMod(n, size);
    if n / size >= capacity {
      Grows(capacity, n / size, size);
    }
  }

  lemma SlotInRange(i: nat, capacity: nat, size: nat)
    requires size > 0 && i < capacity
    ensures i * size + size <= capacity * size && i * size / size == i && i * size % size == 0
  {
    QuotientIs(i * size, size, i, 0);
    Grows(i + 1, capacity, size);
    Next(i, size);
  }

  /** A pool that passed the guards maps the address of each slot to its index,
      and refuses every other address. */
  lemma IndexInvertsAddress(p: nat, base: nat, capacity: nat, size: nat, word: nat)
    requires size > 0 && capacity * size < word && capacity <= INT32_MAX
    ensures IndexAt(p, base, capacity, size, word) >= -1
    ensures forall i: nat :: IndexAt(p, base, capacity, size, word) == i <==> i < capacity && p == base + i * size
  {
    IndexHasAddress(p, base, capacity, size, word);
    forall i: nat
      ensures IndexAt(p, base, capacity, size, word) == i <==> i < capacity && p == base + i * size
    {
      if i < capacity && p == base + i * size {
        AddressHasIndex(i, base, capacity, size, word);
      }
    }
  }

  ghost predicate KnowsItsSlots(base: nat, capacity: nat, size: nat, word: nat)
    requires size > 0 && word > 0
  {
    forall i: nat :: i < capacity ==> IndexOfSlot(i, base, capacity, size, word) == i
  }

  function IndexOfSlot(i: nat, base: nat, capacity: nat, size: nat, word: nat): int
    requires size > 0 && word > 0
  {
    IndexAt(base + i * size, base, capacity, size, word)
  }

  /** Both guards of the initialisation are needed: without them the pool
      disowns some of its slots. */
  lemma KnowsItsSlotsIff(base: nat, capacity: nat, size: nat, word: nat)
    requires 0 < size < word
    ensures KnowsItsSlots(base, capacity, size, word) <==> capacity * size < word && capacity <= INT32_MAX + 1
  {
    var end := capacity * size;
    if end >= word {
      LastSlotIsCutOff(capacity, size, word);
      LastSlotIsDisowned(capacity - 1, base, capacity, size, word);
    } else {
      forall i: nat | i < capacity
        ensures IndexOfSlot(i, base, capacity, size, word) == Int32(i)
      {
        AddressHasIndex(i, base, capacity, size, word);
      }
      if capacity > INT32_MAX + 1 {
        assert IndexOfSlot(INT32_MAX + 1, base, capacity, size, word) < 0;
      }
    }
  }

  lemma LastSlotIsDisowned(i: nat, base: nat, capacity: nat, size: nat, word: nat)
    requires 0 < size && 0 < word && capacity * size % word <= i * size
    ensures IndexOfSlot(i, base, capacity, size, word) == -1
  {
  }

  lemma LastSlotIsCutOff(capacity: nat, size: nat, word: nat)
    requires 0 < size < word && capacity * size >= word
    ensures capacity > 0 && capacity * size % word <= (capacity - 1) * size
  {
    var n := capacity * size;
    if capacity > 0 {
      Next(capacity - 1, size);
    }
    DivMod(n, word);
    if n / word >= 1 {
      Grows(1, n / word, word);
    }
  }

  // ------------------------------------------------------------------
  // The search for a free slot
  // ------------------------------------------------------------------

  /** The slot looked at in round `t`; the sum wraps around with the cursor. */
  function Probe(start: nat, t: nat, capacity: nat, word: nat): (i: nat)
    requires 0 < capacity && 0 < word
    ensures i < capacity
  {
    (start + t) % word % capacity
  }

  ghost predicate IsProbed(i: nat, start: nat, capacity: nat, word: nat)
    requires 0 < capacity && 0 < word
  {
    exists t: nat :: t < capacity && Probe(start, t, capacity, word) == i
  }

  ghost predicate ProbesEverySlot(start: nat, capacity: nat, word: nat)
    requires 0 < capacity && 0 < word
  {
    forall i: nat :: i < capacity ==> IsProbed(i, start, capacity, word)
  }

  /** The sum stays within a word, or wrapping does not show. */
  predicate NoGap(start: nat, capacity: nat, word: nat)
    requires 0 < capacity
  {
    start + capacity <= word || word % capacity == 0
  }

  /** The search goes through all slots -- except when the cursor is about to
      wrap around and the capacity does not divide the number of its values:
      then it looks at some slots twice and at others not at all. */
  lemma ProbesEverySlotIff(start: nat, capacity: nat, word: nat)
    requires 0 < capacity <= word && start < word
    ensures ProbesEverySlot(start, capacity, word) <==> NoGap(start, capacity, word)
  {
    if NoGap(start, capacity, word) {
      forall i: nat | i < capacity
        ensures IsProbed(i, start, capacity, word)
      {
        SlotIsProbed(i, start, capacity, word);
      }
    } else {
      var i := MissedSlot(start, capacity, word);
      forall t: nat | t < capacity
        ensures Probe(start, t, capacity, word) != i
      {
        MissedSlotIsMissed(t, start, capacity, word);
      }
      assert !IsProbed(i, start, capacity, word);
    }
  }

  lemma SlotIsProbed(i: nat, start: nat, capacity: nat, word: nat)
    requires 0 < capacity <= word && start < word && i < capacity && NoGap(start, capacity, word)
    ensures IsProbed(i, start, capacity, word)
  {
    var t, p := RoundOf(i, start, capacity);
    var n := start + t;
    if n < word {
      BeforeWrap(n, p, i, capacity, word);
    } else {
      AfterWrap(n, p, i, capacity, word);
    }
    assert Probe(start, t, capacity, word) == i;
  }

  lemma BeforeWrap(n: nat, p: nat, i: nat, capacity: nat, word: nat)
    requires 0 < capacity && n < word && n == p * capacity + i && i < capacity
    ensures n % word % capacity == i
  {
    QuotientIs(n, word, 0, n);
    QuotientIs(n, capacity, p, i);
  }

  lemma RoundOf(i: nat, start: nat, capacity: nat) returns (t: nat, p: nat)
    requires i < capacity
    ensures t < capacity && start + t == p * capacity + i
  {
    var q, r := start / capacity, start % capacity;
    DivMod(start, capacity);
    Next(q, capacity);
    if i >= r {
      t, p := i - r, q;
    } else {
      t, p := i - r + capacity, q + 1;
    }
  }

  lemma AfterWrap(n: nat, p: nat, i: nat, capacity: nat, word: nat)
    requires 0 < capacity && word % capacity == 0 && word <= n < word + word && n == p * capacity + i && i < capacity
    ensures n % word % capacity == i
  {
    var m := word / capacity;
    DivMod(word, capacity);
    assert word == 1 * word;
    QuotientIs(n, word, 1, n - word);
    AtMostOne(p, m, capacity, i, n - word);
    var d := p - m;
    assert p * capacity == (m + d) * capacity == m * capacity + d * capacity;
    QuotientIs(n - word, capacity, d, i);
  }

  /** A slot that a wrapping search leaves out. */
  function MissedSlot(start: nat, capacity: nat, word: nat): (i: nat)
    requires 0 < capacity <= word && start < word && !NoGap(start, capacity, word)
    ensures i < capacity
  {
    var before, r := word - start, word % capacity;
    if r >= before then capacity - 1 else capacity + r - before - 1
  }

  lemma MissedSlotIsMissed(t: nat, start: nat, capacity: nat, word: nat)
    requires 0 < capacity <= word && start < word && !NoGap(start, capacity, word) && t < capacity
    ensures Probe(start, t, capacity, word) != MissedSlot(start, capacity, word)
  {
    var before, m, r := word - start, word / capacity, word % capacity;
    DivMod(word, capacity);
    if t >= before {
      SecondRound(start + t, word, capacity);
    } else if r + t >= before {
      BeforeWrap(start + t, m, r + t - before, capacity, word);
    } else {
      Next(m - 1, capacity);
      BeforeWrap(start + t, m - 1, capacity + r + t - before, capacity, word);
    }
  }

  lemma SecondRound(n: nat, word: nat, capacity: nat)
    requires 0 < capacity <= word <= n < word + capacity
    ensures n % word % capacity == n - word
  {
    assert word == 1 * word;
    QuotientIs(n, word, 1, n - word);
    Small(n - word, capacity);
  }

  ghost predicate AllUsed(used: seq<bool>) {
    forall i :: 0 <= i < |used| ==> used[i]
  }

  /** The search of a thread that is alone finds nothing. */
  ghost predicate FindsNothing(used: seq<bool>, start: nat, word: nat)
    requires used != [] && 0 < word
  {
    forall t: nat :: t < |used| ==> used[Probe(start, t, |used|, word)]
  }

  ghost predicate FailsOnlyWhenFull(start: nat, capacity: nat, word: nat)
    requires 0 < capacity && 0 < word
  {
    forall used: seq<bool> | |used| == capacity :: FindsNothing(used, start, word) ==> AllUsed(used)
  }

  /** So an allocation reports exhaustion only when all slots are in use, if and
      only if its search leaves no gap. */
  lemma FailsOnlyWhenFullIff(start: nat, capacity: nat, word: nat)
    requires 0 < capacity <= word && start < word
    ensures FailsOnlyWhenFull(start, capacity, word) <==> NoGap(start, capacity, word)
  {
    ProbesEverySlotIff(start, capacity, word);
    if NoGap(start, capacity, word) {
      forall used: seq<bool> | |used| == capacity && FindsNothing(used, start, word)
        ensures AllUsed(used)
      {
        forall i | 0 <= i < |used|
          ensures used[i]
        {
          assert IsProbed(i, start, capacity, word);
        }
      }
    } else {
      var i := MissedSlot(start, capacity, word);
      var used := seq(capacity, j => j != i);
      forall t: nat | t < |used|
        ensures used[Probe(start, t, |used|, word)]
      {
        MissedSlotIsMissed(t, start, capacity, word);
      }
      assert !used[i] && FindsNothing(used, start, word);
    }
  }

  /** The gap exists: three slots, and a cursor at its last value. */
  lemma GapHappens()
    ensures !NoGap(0xFFFF_FFFF, 3, 0x1_0000_0000)
    ensures FindsNothing([true, true, false], 0xFFFF_FFFF, 0x1_0000_0000)
  {
  }

  // ------------------------------------------------------------------
  // Claims and releases
  // ------------------------------------------------------------------

  /** The slot of round `t` was free and is now the caller's; the rounds before
      met slots in use. */
  ghost predicate Claims(node: nat, t: nat, start: nat, was: seq<bool>, now: seq<bool>, base: nat, size: nat, word: nat)
    requires t < |was| && 0 < word
  {
    var i := Probe(start, t, |was|, word);
    && node == base + i * size && !was[i] && now == was[i := true]
    && forall u: nat :: u < t ==> was[Probe(start, u, |was|, word)]
  }

  /** The slot at `p`, if there is one, has been given back, and no other. */
  ghost predicate GivesBack(p: nat, was: seq<bool>, now: seq<bool>, base: nat, size: nat) {
    |now| == |was| && forall i: nat :: i < |was| ==> (now[i] <==> was[i] && p != base + i * size)
  }

  /** Giving back what was just claimed leaves all slots as they were. */
  lemma FreeUndoesClaim(node: nat, t: nat, start: nat, was: seq<bool>, held: seq<bool>, now: seq<bool>, base: nat, size: nat, word: nat)
    requires t < |was| <= INT32_MAX && 0 < size && |was| * size < word
    requires Claims(node, t, start, was, held, base, size, word) && GivesBack(node, held, now, base, size)
    ensures now == was
  {
    IndexInvertsAddress(node, base, |was|, size, word);
    forall i: nat | i < |was|
      ensures now[i] == was[i]
    {
    }
  }

  // ------------------------------------------------------------------
  // The pool
  // ------------------------------------------------------------------

  class Pool {
    const word: nat
    var capacity: nat
    var size: nat
    var slots: nat            // address of the block; 0 is NULL
    var used: array<bool>
    var cursor: nat
    var attached: bool

    ghost predicate Valid()
      reads this
    {
      && 0 < capacity <= INT32_MAX && used.Length == capacity
      && 0 < size && size % 64 == 0 && capacity * size < word
      && 0 < slots && slots + capacity * size < word
      && cursor < word
    }

    /** A pool whose fields are all zero. */
    constructor (word: nat)
      requires INT32_MAX < word
      ensures this.word == word && capacity == 0 && size == 0 && slots == 0 && cursor == 0 && !attached
      ensures fresh(used) && used.Length == 0
    {
      this.word := word;
      capacity, size, slots, cursor, attached := 0, 0, 0, 0, false;
      used := new bool[0];
    }

    /** `block` and `states` are what the two allocations give; the block fits
        into memory where it was granted. */
    method Init(count: nat, raw: nat, block: nat, states: bool) returns (rc: int)
      requires INT32_MAX < word && 0 < raw && raw + 63 < word
      requires block > 0 && count * SlotSize(raw) < word ==> block + count * SlotSize(raw) < word
      modifies this
      ensures rc == EINVAL <==> count == 0 || count > INT32_MAX || count * SlotSize(raw) >= word
      ensures rc == EINVAL ==> unchanged(this)
      ensures rc == ENOMEM <==> rc != EINVAL && (block == 0 || !states)
      ensures rc == ENOMEM ==> slots == 0
      ensures rc != EINVAL && rc != ENOMEM ==> rc == 0 && Valid() && slots == block && capacity == count && cursor == 0
      ensures rc == 0 ==> size == SlotSize(raw) && !attached && fresh(used) && used[..] == seq(count, _ => false)
    {
      if count == 0 {
        return EINVAL;
      }
      var slotSize := SlotSize(raw);
      GuardsProduct(count, slotSize, word);
      if count > (word - 1) / slotSize || count > INT32_MAX {
        return EINVAL;
      }
      capacity, size := count, slotSize;
      slots := block;
      if slots == 0 {
        return ENOMEM;
      }
      if !states {
        slots := 0;
        return ENOMEM;
      }
      used := new bool[count](_ => false);
      cursor, attached := 0, false;
      return 0;
    }

    function SlotAddress(i: nat): nat
      reads this
    {
      slots + i * size
    }

    function IndexOf(p: nat): (i: int)
      requires Valid()
      reads this
      ensures i == -1 || (0 <= i < capacity && p == SlotAddress(i))
    {
      IndexHasAddress(p, slots, capacity, size, word);
      IndexAt(p, slots, capacity, size, word)
    }

    /** Claims the first free slot of the search; 0 if there is none. */
    method Alloc() returns (node: nat)
      requires Valid()
      modifies this`cursor, used
      ensures Valid() && cursor == (old(cursor) + 1) % word
      ensures node == 0 <==> old(FindsNothing(used[..], cursor, word))
      ensures node == 0 ==> used[..] == old(used[..])
      ensures node != 0 ==> exists t: nat :: t < capacity && Claimed(node, t, old(cursor), old(used[..]))
    {
      var start := cursor;
      cursor := (cursor + 1) % word;
      var t := 0;
      while t < capacity
        invariant t <= capacity && Valid() && cursor == (start + 1) % word
        invariant used[..] == old(used[..])
        invariant forall u: nat :: u < t ==> used[..][Probe(start, u, capacity, word)]
      {
        var i := Probe(start, t, capacity, word);
        if !used[i] {
          assert !used[..][i];
          used[i] := true;
          node := SlotAddress(i);
          assert i * size >= 0;
          assert Claimed(node, t, start, old(used[..]));
          return;
        }
        t := t + 1;
      }
      return 0;
    }

    ghost predicate Claimed(node: nat, t: nat, start: nat, was: seq<bool>)
      requires Valid() && |was| == capacity && t < capacity
      reads this, used
    {
      Claims(node, t, start, was, used[..], slots, size, word)
    }

    ghost predicate IsSlot(p: nat)
      reads this
    {
      exists i: nat :: i < capacity && p == SlotAddress(i)
    }

    ghost predicate GivenBack(p: nat, was: seq<bool>)
      requires Valid()
      reads this, used
    {
      GivesBack(p, was, used[..], slots, size)
    }

    /** Gives the slot at `p` back; an address that is no slot's is ignored. */
    method Free(p: nat)
      requires Valid()
      modifies used
      ensures GivenBack(p, old(used[..]))
    {
      var i := IndexOf(p);
      IndexInvertsAddress(p, slots, capacity, size, word);
      if i < 0 {
        return;
      }
      used[i] := false;
    }

    lemma OthersGiveNothingBack(p: nat)
      requires Valid() && !IsSlot(p)
      ensures GivenBack(p, used[..])
    {
      forall i: nat | i < capacity
        ensures p != slots + i * size
      {
        assert p != SlotAddress(i);
      }
    }

    method IsFrom(p: nat) returns (r: bool)
      requires Valid()
      ensures r <==> IsSlot(p)
      ensures r <==> IndexOf(p) >= 0
    {
      var i := IndexOf(p);
      r := i >= 0;
      IndexInvertsAddress(p, slots, capacity, size, word);
    }

    /** Refused while the pool serves a list and one of its slots is in use. */
    method Destroy()
      requires Valid()
      modifies this
      ensures old(attached && exists i :: 0 <= i < capacity && used[i]) ==> unchanged(this)
      ensures !old(attached && exists i :: 0 <= i < capacity && used[i]) ==> slots == 0 && capacity == 0 && used.Length == 0
    {
      if attached {
        var i := 0;
        while i < capacity
          invariant i <= capacity && unchanged(this) && forall j :: 0 <= j < i ==> !used[j]
        {
          if used[i] {
            return;
          }
          i := i + 1;
        }
      }
      slots, capacity := 0, 0;
      used := new bool[0];
    }
  }

  /** Where a list's nodes go when they are released. */
  class Outlet {
    var pool: Pool?

    constructor ()
      ensures pool == null
    {
      pool := null;
    }

    /** `null` detaches the list; the pool's own flag stays set from then on. */
    method Attach(p: Pool?)
      modifies this, if p == null then {} else {p}
      ensures pool == p
      ensures p != null ==> p.attached && p.slots == old(p.slots) && p.capacity == old(p.capacity) && p.size == old(p.size)
                            && p.cursor == old(p.cursor) && p.used == old(p.used)
    {
      pool := p;
      if p != null {
        p.attached := true;
      }
    }

    /** A slot's node goes back to the pool, any other to the heap. */
    method Release(node: nat) returns (toHeap: bool)
      requires pool != null ==> pool.Valid()
      modifies if pool == null then {} else {pool.used}
      ensures toHeap <==> pool == null || !pool.IsSlot(node)
      ensures pool != null ==> pool.Valid() && pool.GivenBack(node, old(pool.used[..]))
    {
      if pool == null {
        return true;
      }
      var mine := pool.IsFrom(node);
      if mine {
        pool.Free(node);
      } else {
        pool.OthersGiveNothingBack(node);
      }
      return !mine;
    }
  }

  /** The guard divides where multiplying could wrap. */
  lemma GuardsProduct(count: nat, size: nat, word: nat)
    requires 0 < size < word + 64 && 0 < word
    ensures count > (word - 1) / size <==> count * size >= word
  {
    var q := (word - 1) / size;
    DivMod(word - 1, size);
    Next(q, size);
    if count > q {
      Grows(q + 1, count, size);
    } else {
      Grows(count, q, size);
    }
  }
}
