/**
 * The exchange's book of resting limit orders, a `SortedList<int, LimitOrder>`:
 * entries kept in strictly ascending key order, viewed abstractly as a map.
 */
module OrderBook {
  import opened Domain

  datatype Entry = Entry(key: int, order: Order)

  ghost predicate Sorted(b: seq<Entry>)
  {
    forall i, j | 0 <= i < j < |b| :: b[i].key < b[j].key
  }

  /** `SortedList.Keys`, as a set. */
  function Keys(b: seq<Entry>): set<int>
  {
    set i | 0 <= i < |b| :: b[i].key
  }

  lemma KeysCons(b: seq<Entry>)
    requires b != []
    ensures Keys(b) == {b[0].key} + Keys(b[1..])
  {
    forall k | k in Keys(b)
      ensures k in {b[0].key} + Keys(b[1..])
    {
      var i :| 0 <= i < |b| && b[i].key == k;
      if i > 0 {
        assert b[1..][i - 1].key == k;
      }
    }
    forall k | k in Keys(b[1..])
      ensures k in Keys(b)
    {
      var i :| 0 <= i < |b[1..]| && b[1..][i].key == k;
      assert b[i + 1].key == k;
    }
  }

  /** The dictionary the sorted list stands for. */
  ghost function AsMap(b: seq<Entry>): (m: map<int, Order>)
    ensures m.Keys == Keys(b)
  {
    if b == [] then map[]
    else KeysCons(b); AsMap(b[1..])[b[0].key := b[0].order]
  }

  /** In a sorted book the map view sends every entry's key to that entry's order. */
  lemma {:induction false} AsMapAt(b: seq<Entry>, i: int)
    requires Sorted(b) && 0 <= i < |b|
    ensures AsMap(b)[b[i].key] == b[i].order
  {
    if i > 0 {
      AsMapAt(b[1..], i - 1);
    }
  }

  /** The first key of a sorted book is below every later key, and the rest stays sorted. */
  lemma SortedTail(b: seq<Entry>)
    requires Sorted(b) && b != []
    ensures Sorted(b[1..])
    ensures forall k | k in Keys(b[1..]) :: b[0].key < k
  {
    forall k | k in Keys(b[1..])
      ensures b[0].key < k
    {
      var i :| 0 <= i < |b[1..]| && b[1..][i].key == k;
      assert b[i + 1].key == k;
    }
  }

  /** An entry below every key of a sorted book can be put in front of it. */
  lemma SortedPrepend(e: Entry, b: seq<Entry>)
    requires Sorted(b)
    requires forall k | k in Keys(b) :: e.key < k
    ensures Sorted([e] + b)
    ensures Keys([e] + b) == {e.key} + Keys(b)
  {
    var r := [e] + b;
    forall j | 0 < j < |r|
      ensures e.key < r[j].key
    {
      assert r[j] == b[j - 1];
      assert b[j - 1].key in Keys(b);
    }
    KeysCons(r);
    assert r[1..] == b;
  }

  /** `SortedList.Add(key, o)` for a key not yet present: the entry goes to its ordered place. */
  function Insert(b: seq<Entry>, key: int, o: Order): (r: seq<Entry>)
    requires Sorted(b) && key !in Keys(b)
    ensures Sorted(r)
    ensures Keys(r) == Keys(b) + {key}
    ensures |r| == |b| + 1
  {
    if b == [] || key < b[0].key then
      assert forall k | k in Keys(b) :: key < k by {
        forall k | k in Keys(b) ensures key < k {
          var i :| 0 <= i < |b| && b[i].key == k;
          assert b[0].key <= b[i].key;
        }
      }
      SortedPrepend(Entry(key, o), b);
      [Entry(key, o)] + b
    else
      KeysCons(b);
      SortedTail(b);
      var rest := Insert(b[1..], key, o);
      SortedPrepend(b[0], rest);
      [b[0]] + rest
  }

  /** Inserting binds the new key to the new order and leaves every other entry as it was. */
  lemma {:induction false} InsertView(b: seq<Entry>, key: int, o: Order)
    requires Sorted(b) && key !in Keys(b)
    ensures AsMap(Insert(b, key, o)) == AsMap(b)[key := o]
  {
    if b != [] && b[0].key < key {
      KeysCons(b);
      SortedTail(b);
      var rest := Insert(b[1..], key, o);
      var r := Insert(b, key, o);
      assert r[1..] == rest;
      InsertView(b[1..], key, o);
      calc {
        AsMap(r);
        AsMap(rest)[b[0].key := b[0].order];
        AsMap(b[1..])[key := o][b[0].key := b[0].order];
        { UpdatesCommute(AsMap(b[1..]), key, o, b[0].key, b[0].order); }
        AsMap(b[1..])[b[0].key := b[0].order][key := o];
      }
    }
  }

  lemma UpdatesCommute<V>(m: map<int, V>, k1: int, v1: V, k2: int, v2: V)
    requires k1 != k2
    ensures m[k1 := v1][k2 := v2] == m[k2 := v2][k1 := v1]
  {
  }

  /** `SortedList.RemoveAt(i)`. */
  function RemoveAt(b: seq<Entry>, i: int): seq<Entry>
    requires 0 <= i < |b|
  {
    b[..i] + b[i + 1..]
  }

  /** Removing a position keeps the list sorted. */
  lemma RemoveAtSorted(b: seq<Entry>, i: int)
    requires Sorted(b) && 0 <= i < |b|
    ensures Sorted(RemoveAt(b, i))
  {
    var r := RemoveAt(b, i);
    assert forall j | 0 <= j < |r| :: r[j] == (if j < i then b[j] else b[j + 1]);
  }

  /** Removing position `i` drops exactly that entry's key from the map view. */
  lemma {:induction false} RemoveAtView(b: seq<Entry>, i: int)
    requires Sorted(b) && 0 <= i < |b|
    ensures AsMap(RemoveAt(b, i)) == AsMap(b) - {b[i].key}
  {
    if i == 0 {
      RemoveHeadView(b);
    } else {
      KeysCons(b);
      SortedTail(b);
      RemoveAtView(b[1..], i - 1);
      RemoveAtCons(b, i);
      assert b[i].key in Keys(b[1..]) by {
        assert b[1..][i - 1] == b[i];
      }
      calc {
        AsMap(RemoveAt(b, i));
        AsMap(RemoveAt(b[1..], i - 1))[b[0].key := b[0].order];
        (AsMap(b[1..]) - {b[i].key})[b[0].key := b[0].order];
        { RemoveThenUpdate(AsMap(b[1..]), b[i].key, b[0].key, b[0].order); }
        AsMap(b[1..])[b[0].key := b[0].order] - {b[i].key};
      }
    }
  }

  lemma RemoveHeadView(b: seq<Entry>)
    requires Sorted(b) && b != []
    ensures AsMap(RemoveAt(b, 0)) == AsMap(b) - {b[0].key}
  {
    KeysCons(b);
    SortedTail(b);
    assert RemoveAt(b, 0) == b[1..];
    UpdateThenRemove(AsMap(b[1..]), b[0].key, b[0].order);
  }

  lemma RemoveAtCons(b: seq<Entry>, i: int)
    requires 0 < i < |b|
    ensures RemoveAt(b, i) != [] && RemoveAt(b, i)[0] == b[0]
    ensures RemoveAt(b, i)[1..] == RemoveAt(b[1..], i - 1)
  {
  }

  lemma UpdateThenRemove<V>(m: map<int, V>, k: int, v: V)
    requires k !in m
    ensures m[k := v] - {k} == m
  {
  }

  lemma RemoveThenUpdate<V>(m: map<int, V>, k1: int, k2: int, v: V)
    requires k1 != k2
    ensures (m - {k1})[k2 := v] == m[k2 := v] - {k1}
  {
  }

  /** `SortedList.IndexOfKey(k)`: the position holding key `k`, or -1. */
  function IndexOfKey(b: seq<Entry>, k: int): (r: int)
    ensures -1 <= r < |b|
    ensures r >= 0 ==> b[r].key == k
    ensures r < 0 <==> k !in Keys(b)
  {
    if b == [] then -1
    else if b[0].key == k then 0
    else
      KeysCons(b);
      var r := IndexOfKey(b[1..], k);
      if r < 0 then -1 else r + 1
  }

  /** `SortedList.Remove(k)`: removes the entry with key `k`, if any. */
  function RemoveKey(b: seq<Entry>, k: int): seq<Entry>
  {
    var i := IndexOfKey(b, k);
    if i < 0 then b else RemoveAt(b, i)
  }

  /** In a sorted book, removing an entry's key removes exactly that position. */
  lemma RemoveKeyAt(b: seq<Entry>, i: int)
    requires Sorted(b) && 0 <= i < |b|
    ensures RemoveKey(b, b[i].key) == RemoveAt(b, i)
  {
    var r := IndexOfKey(b, b[i].key);
    assert b[i].key in Keys(b);
    assert r == i;
  }

  /** `SortedList.IndexOfValue(o)`: the first position holding this very order object, or -1. */
  function IndexOfOrder(b: seq<Entry>, o: Order): (r: int)
    ensures -1 <= r < |b|
    ensures r >= 0 ==> b[r].order == o
    ensures forall j | 0 <= j < |b| && (r < 0 || j < r) :: b[j].order != o
  {
    if b == [] then -1
    else if b[0].order == o then 0
    else
      var r := IndexOfOrder(b[1..], o);
      if r < 0 then -1 else r + 1
  }
}
