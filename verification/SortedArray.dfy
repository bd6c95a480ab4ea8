/**
  The reference model the property tests run beside the list: two parallel
  arrays in key order, searched by halving.
 */
module SortedArray {
  import opened OrderedItems

  ghost function Zip(ks: seq<int>, vs: seq<int>): (items: seq<Item>)
    requires |ks| == |vs|
    ensures |items| == |ks|
    ensures forall i :: 0 <= i < |items| ==> items[i] == Item(ks[i], vs[i])
  {
    seq(|ks|, i requires 0 <= i < |ks| == |vs| => Item(ks[i], vs[i]))
  }

  lemma ZipInserts(ks: seq<int>, vs: seq<int>, r: nat, k: int, v: int)
    requires |ks| == |vs| && r <= |ks|
    ensures Zip(ks[..r] + [k] + ks[r..], vs[..r] + [v] + vs[r..]) == Zip(ks, vs)[..r] + [Item(k, v)] + Zip(ks, vs)[r..]
  {
  }

  lemma ZipRemoves(ks: seq<int>, vs: seq<int>, r: nat)
    requires |ks| == |vs| && r < |ks|
    ensures Zip(ks[..r] + ks[r + 1..], vs[..r] + vs[r + 1..]) == Zip(ks, vs)[..r] + Zip(ks, vs)[r + 1..]
  {
  }

  /** Makes room at `idx` by moving the tail up one place. */
  method MoveUp(a: array<int>, len: nat, idx: nat, x: int)
    requires idx <= len < a.Length
    modifies a
    ensures a[..len + 1] == old(a[..len])[..idx] + [x] + old(a[..len])[idx..]
  {
    forall i | idx < i <= len {
      a[i] := a[i - 1];
    }
    a[idx] := x;
  }

  method MoveDown(a: array<int>, len: nat, idx: nat)
    requires idx < len <= a.Length
    modifies a
    ensures a[..len - 1] == old(a[..len])[..idx] + old(a[..len])[idx + 1..]
  {
    forall i | idx <= i < len - 1 {
      a[i] := a[i + 1];
    }
  }

  class Model {
    var keys: array<int>
    var vals: array<int>
    var len: nat

    ghost predicate Valid()
      reads this, keys, vals
    {
      && keys != vals && keys.Length == vals.Length > 0 && len <= keys.Length
      && Unique(Contents())
    }

    ghost function Contents(): seq<Item>
      reads this, keys, vals
      requires len <= keys.Length && len <= vals.Length
    {
      Zip(keys[..len], vals[..len])
    }

    constructor ()
      ensures Valid() && Contents() == [] && fresh(keys) && fresh(vals)
    {
      keys, vals := new int[16], new int[16];
      len := 0;
    }

    /** The index of the key, or the place where it would go, encoded below
        zero so that one number says which. */
    method Find(key: int) returns (f: int)
      requires Valid()
      ensures var r := Rank(Contents(), key); f == if Holds(Contents(), key) then r else -(r + 1)
    {
      ghost var items := Contents();
      var lo, hi := 0, len;
      while lo < hi
        invariant 0 <= lo <= hi <= len
        invariant lo <= Rank(items, key) <= hi && (hi < len ==> items[hi].key > key)
      {
        var mid := lo + (hi - lo) / 2;
        assert items[mid].key == keys[mid];
        RankBounds(items, key, mid);
        if keys[mid] < key {
          lo := mid + 1;
        } else if keys[mid] > key {
          hi := mid;
        } else {
          return mid;
        }
      }
      return -(lo + 1);
    }

    lemma RankBounds(items: seq<Item>, key: int, mid: nat)
      requires Unique(items) && mid < |items|
      ensures items[mid].key < key ==> Rank(items, key) > mid
      ensures items[mid].key > key ==> Rank(items, key) <= mid
      ensures items[mid].key == key ==> Rank(items, key) == mid
    {
      var r := Rank(items, key);
      if r < mid {
        assert NotAfter(items, r, mid) && Unlike(items, r, mid);
      }
    }

    method Contains(key: int) returns (present: bool)
      requires Valid()
      ensures present == Holds(Contents(), key)
    {
      var f := Find(key);
      present := f >= 0;
    }

    /** Twice the room, the same contents. */
    method Grow()
      requires Valid()
      modifies this
      ensures Valid() && Contents() == old(Contents()) && keys.Length > len && len == old(len)
      ensures fresh(keys) && fresh(vals)
    {
      var keys', vals' := new int[2 * keys.Length], new int[2 * vals.Length];
      forall i | 0 <= i < len {
        keys'[i] := keys[i];
      }
      forall i | 0 <= i < len {
        vals'[i] := vals[i];
      }
      assert keys'[..len] == keys[..len] && vals'[..len] == vals[..len];
      keys, vals := keys', vals';
      assert Contents() == old(Contents());
    }

    /** Inserts unless the key is there. */
    method Insert(key: int, val: int) returns (inserted: bool)
      requires Valid()
      modifies this, keys, vals
      ensures Valid() && inserted == !Holds(old(Contents()), key)
      ensures Contents() == if inserted then Put(old(Contents()), key, val) else old(Contents())
      ensures (keys == old(keys) || fresh(keys)) && (vals == old(vals) || fresh(vals))
    {
      var f := Find(key);
      if f >= 0 {
        return false;
      }
      if len == keys.Length {
        Grow();
      }
      InsertAt(-(f + 1), key, val);
      return true;
    }

    /** Both arrays move up from the key's place. */
    method InsertAt(idx: nat, key: int, val: int)
      requires Valid() && len < keys.Length && idx == Rank(Contents(), key) && !Holds(Contents(), key)
      modifies this`len, keys, vals
      ensures Valid() && Contents() == Put(old(Contents()), key, val)
    {
      PutKeepsOrder(Contents(), key, val);
      ZipInserts(keys[..len], vals[..len], idx, key, val);
      MoveUp(keys, len, idx, key);
      MoveUp(vals, len, idx, val);
      len := len + 1;
    }

    /** Closes the gap the key leaves. */
    method Remove(key: int) returns (removed: bool)
      requires Valid()
      modifies this, keys, vals
      ensures Valid() && removed == Holds(old(Contents()), key) && Contents() == Del(old(Contents()), key)
      ensures keys == old(keys) && vals == old(vals)
    {
      var f := Find(key);
      if f < 0 {
        return false;
      }
      ghost var items := Contents();
      DelKeepsOrder(items, key);
      ZipRemoves(keys[..len], vals[..len], f);
      MoveDown(keys, len, f);
      MoveDown(vals, len, f);
      len := len - 1;
      return true;
    }

    /** Overwrites the value at a found index. */
    method Store(f: nat, val: int)
      requires Valid() && f < len
      modifies vals
      ensures Valid() && Contents() == old(Contents())[f := Item(keys[f], val)]
    {
      ghost var items := Contents();
      vals[f] := val;
      assert Contents() == items[f := Item(keys[f], val)];
      forall i, j | 0 <= i < j < len
        ensures NotAfter(Contents(), i, j) && Unlike(Contents(), i, j)
      {
        assert NotAfter(items, i, j) && Unlike(items, i, j);
      }
    }
  }
}
