/** Iteration order of a java.util.TreeMap<Integer, V>: its values are visited
    in ascending key order. */
module Ordered {

  import opened Common

  predicate Increasing(s: seq<int>)
  {
    forall i, j :: 0 <= i < j < |s| ==> s[i] < s[j]
  }

  /** Some element of a non-empty set. */
  ghost function Pick<T>(s: set<T>): (x: T)
    requires s != {}
    ensures x in s
  {
    var x :| x in s; x
  }

  method Choose<T>(s: set<T>) returns (x: T)
    requires s != {}
    ensures x in s
  {
    x :| x in s;
  }

  /** The least key of a non-empty key set. */
  ghost function MinKey(ks: set<int>): (m: int)
    requires ks != {}
    ensures m in ks && forall k :: k in ks ==> m <= k
  {
    var k := Pick(ks);
    var rest := ks - {k};
    assert forall j :: j in ks ==> j == k || j in rest;
    if rest == {} then k
    else
      var m := MinKey(rest);
      if k < m then k else m
  }

  /** The keys of a TreeMap in the order its iterators visit them. */
  ghost function SortedKeys(ks: set<int>): (r: seq<int>)
    ensures Increasing(r) && |r| == |ks|
    ensures forall k :: k in r <==> k in ks
  {
    if ks == {} then []
    else
      var m := MinKey(ks);
      [m] + SortedKeys(ks - {m})
  }

  /** r lists the values of m in ascending key order, as TreeMap.values() does. */
  ghost predicate InKeyOrder<T>(m: map<int, T>, r: seq<T>)
  {
    var ks := SortedKeys(m.Keys);
    |r| == |ks| && forall i :: 0 <= i < |r| ==> ks[i] in m && r[i] == m[ks[i]]
  }

  /** A listing in key order holds every value of the map and nothing else. */
  lemma InKeyOrderValues<T>(m: map<int, T>, r: seq<T>)
    requires InKeyOrder(m, r)
    ensures |r| == |m|
    ensures forall v :: v in r <==> v in m.Values
  {
    var ks := SortedKeys(m.Keys);
    assert |m.Keys| == |m|;
    forall v | v in m.Values
      ensures v in r
    {
      var k :| k in m && m[k] == v;
      var i :| 0 <= i < |ks| && ks[i] == k;
      assert r[i] == v;
    }
  }

  /** In an increasing sequence, a smaller element sits at a smaller index. */
  lemma IncreasingIndex(s: seq<int>, i: nat, k: int) returns (j: nat)
    requires Increasing(s) && i < |s| && k in s && k < s[i]
    ensures j < i && s[j] == k
  {
    j :| j < |s| && s[j] == k;
  }

  /** One pass over the key set that keeps the least key seen. */
  method SmallestKey(ks: set<int>) returns (m: int)
    requires ks != {}
    ensures m == MinKey(ks)
  {
    m := Choose(ks);
    var rest := ks - {m};
    while rest != {}
      invariant rest <= ks && m in ks && m !in rest
      invariant forall k :: k in ks && k !in rest ==> m <= k
      decreases |rest|
    {
      var k := Choose(rest);
      if k < m {
        m := k;
      }
      rest := rest - {k};
    }
    assert m <= MinKey(ks) && MinKey(ks) <= m;
  }

  lemma SortedKeysStep(ks: set<int>, r: seq<int>, rest: set<int>, m: int)
    requires rest != {} && m == MinKey(rest)
    requires SortedKeys(ks) == r + SortedKeys(rest)
    ensures SortedKeys(ks) == (r + [m]) + SortedKeys(rest - {m})
  {
    SortedKeysUnfold(rest);
    Regroup(r, [m], SortedKeys(rest - {m}));
  }

  lemma SortedKeysUnfold(s: set<int>)
    requires s != {}
    ensures SortedKeys(s) == [MinKey(s)] + SortedKeys(s - {MinKey(s)})
  {
  }

  /** The key sequence a TreeMap iteration produces, built by repeated selection. */
  method KeysInOrder(ks: set<int>) returns (r: seq<int>)
    ensures r == SortedKeys(ks)
  {
    r := [];
    var rest := ks;
    while rest != {}
      invariant rest <= ks
      invariant SortedKeys(ks) == r + SortedKeys(rest)
      decreases |rest|
    {
      var m := SmallestKey(rest);
      SortedKeysStep(ks, r, rest, m);
      r := r + [m];
      rest := rest - {m};
    }
  }
}
