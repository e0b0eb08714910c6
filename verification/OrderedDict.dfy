/** The insertion-ordered dictionary (`collections.OrderedDict`) that both the rate limiter
    and the query cache use as their LRU store: the front of `order` is the next victim. */
module Ordered {

  ghost predicate NoDup<K>(s: seq<K>) {
    forall i, j :: 0 <= i < j < |s| ==> s[i] != s[j]
  }

  /** `s` without its occurrences of `k`, the rest in order. */
  function Without<K(==)>(s: seq<K>, k: K): seq<K> {
    if s == [] then []
    else if s[0] == k then Without(s[1..], k)
    else [s[0]] + Without(s[1..], k)
  }

  lemma {:induction false} WithoutMembers<K(!new)>(s: seq<K>, k: K)
    ensures forall x :: x in Without(s, k) <==> x in s && x != k
    ensures k !in s ==> Without(s, k) == s
  {
    if s != [] {
      WithoutMembers(s[1..], k);
      assert s == [s[0]] + s[1..];
    }
  }

  lemma {:induction false} WithoutConcat<K(!new)>(a: seq<K>, b: seq<K>, k: K)
    ensures Without(a + b, k) == Without(a, k) + Without(b, k)
  {
    if a == [] {
      assert a + b == b;
    } else {
      var rest, wb := Without(a[1..], k), Without(b, k);
      assert (a + b)[0] == a[0] && (a + b)[1..] == a[1..] + b;
      WithoutConcat(a[1..], b, k);
      assert [a[0]] + (rest + wb) == ([a[0]] + rest) + wb;
    }
  }

  lemma {:induction false} WithoutNoDup<K(!new)>(s: seq<K>, k: K)
    requires NoDup(s)
    ensures NoDup(Without(s, k))
    ensures k in s ==> |Without(s, k)| == |s| - 1
  {
    if s != [] {
      assert NoDup(s[1..]);
      WithoutNoDup(s[1..], k);
      WithoutMembers(s[1..], k);
      var rest := Without(s[1..], k);
      assert s[0] !in s[1..];
      if s[0] == k {
        assert rest == s[1..];
      } else {
        var r := [s[0]] + rest;
        forall i, j | 0 <= i < j < |r| ensures r[i] != r[j] {
          assert r[j] == rest[j - 1];
        }
      }
    }
  }

  ghost function Members<K>(s: seq<K>): set<K> { set x | x in s }

  lemma MembersSize<K>(s: seq<K>)
    requires NoDup(s)
    ensures |Members(s)| == |s|
  {
    if s != [] {
      MembersSize(s[1..]);
      assert Members(s) == {s[0]} + Members(s[1..]);
    }
  }

  lemma SubsetSize<K>(a: set<K>, b: set<K>)
    requires a <= b
    ensures |a| <= |b|
  {
    assert b == a + (b - a);
  }

  datatype OrderedDict<K(==, !new), V> = OrderedDict(order: seq<K>, entries: map<K, V>) {

    /** Every key of the dictionary stands exactly once in its order. */
    ghost predicate Valid() {
      && NoDup(order)
      && entries.Keys == set k | k in order
    }

    function Size(): (n: nat) { |order| }

    /** `move_to_end(k)` of a present key, its value then replaced by `v`. */
    function Refresh(k: K, v: V): (r: OrderedDict<K, V>)
      requires Valid() && k in entries
      ensures r.Valid() && |r.order| == |order|
    {
      WithoutNoDup(order, k);
      WithoutMembers(order, k);
      OrderedDict(Without(order, k) + [k], entries[k := v])
    }

    /** The value of a present key changes in place; the order does not. */
    function Put(k: K, v: V): (r: OrderedDict<K, V>)
      requires Valid() && k in entries
      ensures r.Valid() && r.order == order
    {
      OrderedDict(order, entries[k := v])
    }

    /** Assignment to an absent key: it goes to the end. */
    function Append(k: K, v: V): (r: OrderedDict<K, V>)
      requires Valid() && k !in entries
      ensures r.Valid() && |r.order| == |order| + 1
    {
      OrderedDict(order + [k], entries[k := v])
    }

    /** `popitem(last=False)`. */
    function PopFirst(): (r: OrderedDict<K, V>)
      requires Valid() && order != []
      ensures r.Valid() && |r.order| == |order| - 1
    {
      assert forall k :: k in order[1..] <==> k in order && k != order[0];
      OrderedDict(order[1..], entries - {order[0]})
    }

    /** `del d[k]`. */
    function Delete(k: K): (r: OrderedDict<K, V>)
      requires Valid() && k in entries
      ensures r.Valid() && |r.order| == |order| - 1
    {
      WithoutNoDup(order, k);
      WithoutMembers(order, k);
      OrderedDict(Without(order, k), entries - {k})
    }
  }

  function Empty<K(==, !new), V>(): (r: OrderedDict<K, V>)
    ensures r.Valid() && r.order == []
  {
    OrderedDict([], map[])
  }
}
