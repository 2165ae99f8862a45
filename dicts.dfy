/**
 * A Python `dict` with string keys. Python dicts remember the order in which
 * keys were first inserted, and `values()` follows it; assigning to an
 * existing key keeps its place, `del` removes it.
 */
module Dicts {

  datatype Dict<V> = Dict(order: seq<string>, entries: map<string, V>) {

    /** The keys in `order` are distinct and are exactly the keys of `entries`. */
    ghost predicate Valid() {
      && Distinct(order)
      && (forall k :: k in entries <==> k in order)
    }
  }

  /** No key occurs twice. */
  ghost predicate Distinct(s: seq<string>) {
    forall i, j :: 0 <= i < j < |s| ==> s[i] != s[j]
  }

  lemma {:induction false} DistinctConcat(a: seq<string>, b: seq<string>)
    requires Distinct(a) && Distinct(b)
    requires forall x :: x in a ==> x !in b
    ensures Distinct(a + b)
  {
    forall i, j | 0 <= i < j < |a + b| ensures (a + b)[i] != (a + b)[j] {
      if j < |a| {
        assert (a + b)[i] == a[i] && (a + b)[j] == a[j];
      } else if i >= |a| {
        assert (a + b)[i] == b[i - |a|] && (a + b)[j] == b[j - |a|];
      } else {
        assert (a + b)[i] == a[i] && (a + b)[j] == b[j - |a|];
        assert a[i] in a;
      }
    }
  }

  function Empty<V>(): (d: Dict<V>)
    ensures d.Valid() && d.entries == map[]
  {
    Dict([], map[])
  }

  /** Every entry is stored under its own key: `key(d[k]) == k`. */
  ghost predicate KeyedBy<V>(d: Dict<V>, key: V -> string) {
    forall k :: k in d.entries ==> key(d.entries[k]) == k
  }

  /** `d[k] = v`: the entry for `k` is replaced whole, every other entry is kept,
      a key already present keeps its place and a new key goes last. */
  function Put<V>(d: Dict<V>, k: string, v: V): (r: Dict<V>)
    requires d.Valid()
    ensures r.Valid()
    ensures k in r.entries && r.entries[k] == v
    ensures forall j :: j != k ==> (j in r.entries <==> j in d.entries)
    ensures forall j :: j != k && j in d.entries ==> r.entries[j] == d.entries[j]
    ensures |r.order| == |d.order| + (if k in d.entries then 0 else 1)
    ensures forall i :: 0 <= i < |d.order| ==> r.order[i] == d.order[i]
  {
    if k in d.entries then Dict(d.order, d.entries[k := v])
    else Dict(d.order + [k], d.entries[k := v])
  }

  /** The keys of `order` other than `k`, in order. */
  function Without(order: seq<string>, k: string): (r: seq<string>)
    ensures forall j :: j in r <==> j in order && j != k
    ensures |r| <= |order|
    ensures k !in order ==> r == order
  {
    if order == [] then []
    else (if order[0] == k then [] else [order[0]]) + Without(order[1..], k)
  }

  /** `Without` filters piecewise, so the keys it keeps stay in their
      relative order. */
  lemma {:induction false} WithoutAppend(a: seq<string>, b: seq<string>, k: string)
    ensures Without(a + b, k) == Without(a, k) + Without(b, k)
    decreases |a|
  {
    if a == [] {
      assert a + b == b;
    } else {
      assert (a + b)[0] == a[0];
      assert (a + b)[1..] == a[1..] + b;
      WithoutAppend(a[1..], b, k);
    }
  }

  lemma {:induction false} WithoutKeepsDistinct(order: seq<string>, k: string)
    requires Distinct(order)
    ensures Distinct(Without(order, k))
  {
    if order != [] {
      var tail := order[1..];
      assert Distinct(tail) by {
        forall i, j | 0 <= i < j < |tail| ensures tail[i] != tail[j] {
          assert tail[i] == order[i + 1] && tail[j] == order[j + 1];
        }
      }
      WithoutKeepsDistinct(tail, k);
      assert order[0] !in tail by {
        forall i | 0 <= i < |tail| ensures tail[i] != order[0] {
          assert tail[i] == order[i + 1];
        }
      }
      var head := if order[0] == k then [] else [order[0]];
      DistinctConcat(head, Without(tail, k));
    }
  }

  lemma {:induction false} WithoutAbsent(order: seq<string>, k: string)
    requires k !in order
    ensures Without(order, k) == order
  {
    if order != [] {
      WithoutAbsent(order[1..], k);
      assert order == [order[0]] + order[1..];
    }
  }

  /** `del d[k]` for a present key: exactly that entry goes, the others keep
      their values and their relative order. */
  function Remove<V>(d: Dict<V>, k: string): (r: Dict<V>)
    requires d.Valid()
    ensures r.Valid()
    ensures k !in r.entries
    ensures forall j :: j != k ==> (j in r.entries <==> j in d.entries)
    ensures forall j :: j != k && j in d.entries ==> r.entries[j] == d.entries[j]
    ensures r.order == Without(d.order, k)
  {
    WithoutKeepsDistinct(d.order, k);
    Dict(Without(d.order, k), d.entries - {k})
  }

  /** `list(d.values())`. */
  function Values<V>(d: Dict<V>): (vs: seq<V>)
    requires d.Valid()
    ensures |vs| == |d.order|
    ensures forall i :: 0 <= i < |vs| ==> vs[i] == d.entries[d.order[i]]
  {
    seq(|d.order|, i requires 0 <= i < |d.order| => d.entries[d.order[i]])
  }

  /** `{key(o): o for o in s}`: the comprehension assigns the elements in list
      order, so a later element overrides an earlier one with the same key. */
  function FromList<V>(s: seq<V>, key: V -> string): (d: Dict<V>)
    ensures d.Valid() && KeyedBy(d, key)
    ensures forall i :: 0 <= i < |s| ==> key(s[i]) in d.entries
  {
    if s == [] then Empty()
    else Put(FromList(s[..|s| - 1], key), key(s[|s| - 1]), s[|s| - 1])
  }

  /** Every key loaded is the key of one of the list's elements. */
  lemma {:induction false} FromListKeys<V>(s: seq<V>, key: V -> string)
    ensures forall k :: k in FromList(s, key).entries ==> exists i :: 0 <= i < |s| && key(s[i]) == k
  {
    if s != [] {
      var init := s[..|s| - 1];
      FromListKeys(init, key);
      assert forall i :: 0 <= i < |init| ==> init[i] == s[i];
      var prev := FromList(init, key);
      var d := FromList(s, key);
      assert d == Put(prev, key(s[|s| - 1]), s[|s| - 1]);
      forall k | k in d.entries ensures exists i :: 0 <= i < |s| && key(s[i]) == k {
        if k != key(s[|s| - 1]) {
          assert k in prev.entries;
          var i :| 0 <= i < |init| && key(init[i]) == k;
          assert key(s[i]) == k;
        }
      }
    }
  }

  /** The entry loaded for a key is the LAST element of the list with that key. */
  lemma {:induction false} FromListLastWins<V>(s: seq<V>, key: V -> string, i: nat)
    requires i < |s|
    requires forall j :: i < j < |s| ==> key(s[j]) != key(s[i])
    ensures FromList(s, key).entries[key(s[i])] == s[i]
  {
    if i < |s| - 1 {
      FromListLastWins(s[..|s| - 1], key, i);
    }
  }

  /** `d` without its most recently inserted key. */
  function DropLast<V>(d: Dict<V>): Dict<V>
    requires d.order != []
  {
    Dict(d.order[..|d.order| - 1], d.entries - {d.order[|d.order| - 1]})
  }

  lemma {:induction false} DropLastValues<V>(d: Dict<V>)
    requires d.Valid() && d.order != []
    ensures DropLast(d).Valid()
    ensures Values(d)[..|d.order| - 1] == Values(DropLast(d))
  {
    var n := |d.order|;
    var last := d.order[n - 1];
    var d' := DropLast(d);
    forall k | k in d'.entries ensures k in d'.order {
      var i :| 0 <= i < n && d.order[i] == k;
      assert i != n - 1;
      assert d'.order[i] == k;
    }
    forall i | 0 <= i < n - 1 ensures d'.order[i] != last {
      assert d.order[i] != d.order[n - 1];
    }
  }

  lemma {:induction false} PutLastBack<V>(d: Dict<V>)
    requires d.Valid() && d.order != []
    ensures var last := d.order[|d.order| - 1];
      Put(DropLast(d), last, d.entries[last]) == d
  {
    var n := |d.order|;
    var last := d.order[n - 1];
    var d' := DropLast(d);
    DropLastValues(d);
    assert last !in d'.entries;
    assert d'.order + [last] == d.order;
    assert d'.entries[last := d.entries[last]] == d.entries;
  }

  /** Writing out `values()` and reading them back with the same key rebuilds
      the dict: the same entries in the same order. */
  lemma {:induction false} FromValues<V>(d: Dict<V>, key: V -> string)
    requires d.Valid() && KeyedBy(d, key)
    ensures FromList(Values(d), key) == d
    decreases |d.order|
  {
    var vs := Values(d);
    if d.order == [] {
      assert d.entries == map[];
    } else {
      var n := |d.order|;
      var last := d.order[n - 1];
      var d' := DropLast(d);
      DropLastValues(d);
      FromValues(d', key);
      PutLastBack(d);
      assert key(vs[n - 1]) == last;
    }
  }
}
