/**
  What a list promises its callers: a sequence of key/value items in key order,
  and what each call does to it.  The skip list and the sorted array are both
  proved against these functions.
 */
module OrderedItems {

  datatype Item = Item(key: int, val: int)

  ghost predicate NotAfter(items: seq<Item>, i: nat, j: nat)
    requires i < |items| && j < |items|
  {
    items[i].key <= items[j].key
  }

  ghost predicate InOrder(items: seq<Item>) {
    forall i, j :: 0 <= i < j < |items| ==> NotAfter(items, i, j)
  }

  ghost predicate Unlike(items: seq<Item>, i: nat, j: nat)
    requires i < |items| && j < |items|
  {
    items[i].key != items[j].key
  }

  /** Keys strictly ascend. */
  ghost predicate Unique(items: seq<Item>) {
    InOrder(items) && forall i, j :: 0 <= i < j < |items| ==> Unlike(items, i, j)
  }

  /** How many items come before every item with key `q` or above. */
  ghost function Rank(items: seq<Item>, q: int): (r: nat)
    ensures r <= |items|
    ensures forall i :: 0 <= i < r ==> items[i].key < q
    ensures r < |items| ==> items[r].key >= q
  {
    if items == [] || items[0].key >= q then 0 else 1 + Rank(items[1..], q)
  }

  lemma RankIs(items: seq<Item>, q: int, r: nat)
    requires r <= |items| && (forall i :: 0 <= i < r ==> items[i].key < q) && (r < |items| ==> items[r].key >= q)
    ensures Rank(items, q) == r
  {
    var r' := Rank(items, q);
    var m := if r' < r then r' else r;
    assert m == |items| || items[m] in items;
  }

  ghost predicate Holds(items: seq<Item>, q: int) {
    Rank(items, q) < |items| && items[Rank(items, q)].key == q
  }

  /** In an ordered list the binary question "is the item at the rank equal"
      decides membership. */
  lemma HoldsIff(items: seq<Item>, q: int)
    requires InOrder(items)
    ensures Holds(items, q) <==> exists i :: 0 <= i < |items| && items[i].key == q
  {
    var r := Rank(items, q);
    if i :| 0 <= i < |items| && items[i].key == q {
      assert r <= i;
      assert r < i ==> NotAfter(items, r, i);
    }
  }

  ghost function Put(items: seq<Item>, k: int, v: int): seq<Item> {
    items[..Rank(items, k)] + [Item(k, v)] + items[Rank(items, k)..]
  }

  ghost function Del(items: seq<Item>, k: int): seq<Item> {
    if Holds(items, k) then items[..Rank(items, k)] + items[Rank(items, k) + 1..] else items
  }

  ghost function SetValue(items: seq<Item>, k: int, v: int): seq<Item> {
    if Holds(items, k) then items[Rank(items, k) := Item(k, v)] else items
  }

  lemma PutKeepsOrder(items: seq<Item>, k: int, v: int)
    requires InOrder(items)
    ensures InOrder(Put(items, k, v)) && Holds(Put(items, k, v), k) && Rank(Put(items, k, v), k) == Rank(items, k)
    ensures Unique(items) && !Holds(items, k) ==> Unique(Put(items, k, v))
  {
    var r, t := Rank(items, k), Put(items, k, v);
    forall i, j | 0 <= i < j < |t|
      ensures NotAfter(t, i, j) && (Unique(items) && !Holds(items, k) ==> Unlike(t, i, j))
    {
      var i', j' := if i < r then i else i - 1, if j < r then j else j - 1;
      if i != r && j != r {
        assert NotAfter(items, i', j') && (Unique(items) ==> Unlike(items, i', j'));
      } else if j' > r {
        assert NotAfter(items, r, j');
      }
    }
    RankIs(t, k, r);
  }

  lemma DelKeepsOrder(items: seq<Item>, k: int)
    requires InOrder(items)
    ensures InOrder(Del(items, k)) && (Unique(items) ==> Unique(Del(items, k)) && !Holds(Del(items, k), k))
  {
    var r, t := Rank(items, k), Del(items, k);
    if Holds(items, k) {
      forall i, j | 0 <= i < j < |t|
        ensures NotAfter(t, i, j) && (Unique(items) ==> Unlike(t, i, j))
      {
        var i', j' := if i < r then i else i + 1, if j < r then j else j + 1;
        assert NotAfter(items, i', j') && (Unique(items) ==> Unlike(items, i', j'));
      }
      if r + 1 < |items| {
        assert NotAfter(items, r, r + 1) && (Unique(items) ==> Unlike(items, r, r + 1));
      }
      RankIs(t, k, r);
    }
  }

  /** A deletion takes back the insertion of the same key. */
  lemma DelAfterPut(items: seq<Item>, k: int, v: int)
    requires InOrder(items)
    ensures Del(Put(items, k, v), k) == items
  {
    PutKeepsOrder(items, k, v);
    var r, t := Rank(items, k), Put(items, k, v);
    assert t[..r] == items[..r] && t[r + 1..] == items[r..];
  }

  lemma SetKeepsOrder(items: seq<Item>, k: int, v: int)
    requires InOrder(items)
    ensures InOrder(SetValue(items, k, v)) && (Unique(items) ==> Unique(SetValue(items, k, v)))
    ensures Holds(SetValue(items, k, v), k) <==> Holds(items, k)
  {
    var r, t := Rank(items, k), SetValue(items, k, v);
    if Holds(items, k) {
      forall i, j | 0 <= i < j < |t|
        ensures NotAfter(t, i, j) && (Unique(items) ==> Unlike(t, i, j))
      {
        assert NotAfter(items, i, j) && (Unique(items) ==> Unlike(items, i, j));
      }
      RankIs(t, k, r);
    }
  }
}
