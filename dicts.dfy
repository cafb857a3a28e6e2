/** Python dictionaries as insertion-ordered sequences of key/value pairs. */
module Dicts {
  import opened Wrappers

  type Dict<K, V> = seq<(K, V)>

  /** Every key occurs once: what any Python dict satisfies. */
  ghost predicate NoDupKeys<K, V>(d: Dict<K, V>) {
    forall i, j :: 0 <= i < j < |d| ==> d[i].0 != d[j].0
  }

  function KeySet<K, V>(d: Dict<K, V>): set<K> {
    set i | 0 <= i < |d| :: d[i].0
  }

  /** The keys in iteration order (`list(d)`). */
  function Keys<K, V>(d: Dict<K, V>): seq<K> {
    seq(|d|, i requires 0 <= i < |d| => d[i].0)
  }

  lemma KeySetSnoc<K, V>(d: Dict<K, V>, p: (K, V))
    ensures KeySet(d + [p]) == KeySet(d) + {p.0}
  {
    var e := d + [p];
    forall k | k in KeySet(e) ensures k in KeySet(d) + {p.0} {
      var i :| 0 <= i < |e| && e[i].0 == k;
      if i < |d| { assert d[i].0 == k; }
    }
    forall k | k in KeySet(d) ensures k in KeySet(e) {
      var i :| 0 <= i < |d| && d[i].0 == k;
      assert e[i].0 == k;
    }
    assert e[|d|].0 == p.0;
  }

  /** Position of the first pair whose key is k. */
  function IndexOf<K(==), V>(d: Dict<K, V>, k: K): (i: nat)
    requires k in KeySet(d)
    ensures i < |d| && d[i].0 == k
    ensures forall j :: 0 <= j < i ==> d[j].0 != k
  {
    if d[0].0 == k then 0
    else
      var m :| 0 <= m < |d| && d[m].0 == k;
      assert d[1..][m - 1].0 == k;
      1 + IndexOf(d[1..], k)
  }

  lemma IndexOfIs<K, V>(d: Dict<K, V>, k: K, i: nat)
    requires i < |d| && d[i].0 == k
    requires forall j :: 0 <= j < i ==> d[j].0 != k
    ensures IndexOf(d, k) == i
  {
  }

  /** `d.get(k)`: the value stored under `k`, if any. */
  function Get<K(==), V>(d: Dict<K, V>, k: K): (r: Option<V>)
    ensures r.Some? <==> k in KeySet(d)
    ensures r.Some? ==> exists i :: 0 <= i < |d| && d[i] == (k, r.value)
  {
    if k in KeySet(d) then Some(d[IndexOf(d, k)].1) else None
  }

  /** In a dict without duplicate keys, the pair at position i is the one `get` finds. */
  lemma GetAt<K, V>(d: Dict<K, V>, i: nat)
    requires NoDupKeys(d) && i < |d|
    ensures Get(d, d[i].0) == Some(d[i].1)
  {
    IndexOfIs(d, d[i].0, i);
  }

  /** `d[k] = v`: an existing key keeps its position and takes the new value; a new key is appended. */
  function Put<K(==), V>(d: Dict<K, V>, k: K, v: V): (r: Dict<K, V>)
    ensures k !in KeySet(d) ==> r == d + [(k, v)]
    ensures k in KeySet(d) ==> |r| == |d| && Keys(r) == Keys(d)
    ensures k in KeySet(d) && NoDupKeys(d) ==>
      forall i :: 0 <= i < |d| ==> r[i] == if d[i].0 == k then (k, v) else d[i]
  {
    if k in KeySet(d) then
      var r := d[IndexOf(d, k) := (k, v)];
      assert Keys(r) == Keys(d);
      r
    else d + [(k, v)]
  }

  lemma PutKeys<K, V>(d: Dict<K, V>, k: K, v: V)
    ensures KeySet(Put(d, k, v)) == KeySet(d) + {k}
    ensures NoDupKeys(d) ==> NoDupKeys(Put(d, k, v))
  {
    var r := Put(d, k, v);
    if k in KeySet(d) {
      var i := IndexOf(d, k);
      assert forall j :: 0 <= j < |d| ==> r[j].0 == d[j].0 by {
        forall j | 0 <= j < |d| ensures r[j].0 == d[j].0 {
          assert Keys(r)[j] == Keys(d)[j];
        }
      }
      assert KeySet(r) == KeySet(d);
    } else {
      KeySetSnoc(d, (k, v));
    }
  }

  /** Reading back after `d[k] = v`: k now holds v, every other key is untouched. */
  lemma GetPut<K, V>(d: Dict<K, V>, k: K, v: V, k': K)
    requires NoDupKeys(d)
    ensures Get(Put(d, k, v), k') == if k' == k then Some(v) else Get(d, k')
  {
    var r := Put(d, k, v);
    PutKeys(d, k, v);
    if k in KeySet(d) {
      var i := IndexOf(d, k);
      assert r[i] == (k, v);
      GetAt(r, i);
      if k' != k && k' in KeySet(d) {
        var j := IndexOf(d, k');
        assert r[j] == d[j];
        GetAt(r, j);
        GetAt(d, j);
      }
    } else {
      GetAt(r, |d|);
      if k' != k && k' in KeySet(d) {
        var j := IndexOf(d, k');
        assert r[j] == d[j];
        GetAt(r, j);
        GetAt(d, j);
      }
    }
  }

  /** The dict a loop `for x in s: if keep(x): d[key(x)] = val(x)` builds from an empty dict. */
  function IndexBy<T, K(==), V>(s: seq<T>, keep: T -> bool, key: T -> K, val: T -> V): Dict<K, V>
  {
    if s == [] then []
    else
      var d := IndexBy(s[..|s| - 1], keep, key, val);
      var x := s[|s| - 1];
      if keep(x) then Put(d, key(x), val(x)) else d
  }

  /** The list a loop `for x in s: if keep(x): out.append(f(x))` builds from an empty list. */
  function Collect<T, U>(s: seq<T>, keep: T -> bool, f: T -> U): seq<U>
  {
    if s == [] then []
    else
      var out := Collect(s[..|s| - 1], keep, f);
      var x := s[|s| - 1];
      if keep(x) then out + [f(x)] else out
  }

  /** The built dict has no duplicate keys, and its keys are exactly the keys of the kept elements. */
  lemma {:induction false} IndexByKeys<T, K, V>(s: seq<T>, keep: T -> bool, key: T -> K, val: T -> V)
    ensures NoDupKeys(IndexBy(s, keep, key, val))
    ensures KeySet(IndexBy(s, keep, key, val)) == set j | 0 <= j < |s| && keep(s[j]) :: key(s[j])
  {
    if s != [] {
      var s' := s[..|s| - 1];
      var x := s[|s| - 1];
      IndexByKeys(s', keep, key, val);
      var d := IndexBy(s', keep, key, val);
      if keep(x) { PutKeys(d, key(x), val(x)); }
      var lhs := KeySet(IndexBy(s, keep, key, val));
      var rhs := set j | 0 <= j < |s| && keep(s[j]) :: key(s[j]);
      forall k | k in rhs ensures k in lhs {
        var j :| 0 <= j < |s| && keep(s[j]) && key(s[j]) == k;
        if j < |s'| { assert s'[j] == s[j]; }
      }
      forall k | k in lhs ensures k in rhs {
        if k in KeySet(d) {
          var j :| 0 <= j < |s'| && keep(s'[j]) && key(s'[j]) == k;
          assert s[j] == s'[j];
        } else {
          assert keep(s[|s| - 1]) && key(s[|s| - 1]) == k;
        }
      }
    }
  }

  /** Pair p is what some kept element of s contributes. */
  ghost predicate FromKept<T, K, V>(s: seq<T>, keep: T -> bool, key: T -> K, val: T -> V, p: (K, V)) {
    exists j :: 0 <= j < |s| && keep(s[j]) && p == (key(s[j]), val(s[j]))
  }

  /** Every pair of the built dict comes from some kept element. */
  lemma {:induction false} IndexByValues<T, K, V>(s: seq<T>, keep: T -> bool, key: T -> K, val: T -> V)
    ensures forall i :: 0 <= i < |IndexBy(s, keep, key, val)| ==>
      FromKept(s, keep, key, val, IndexBy(s, keep, key, val)[i])
  {
    if s != [] {
      var s' := s[..|s| - 1];
      var x := s[|s| - 1];
      IndexByValues(s', keep, key, val);
      IndexByKeys(s', keep, key, val);
      var d := IndexBy(s', keep, key, val);
      var d' := IndexBy(s, keep, key, val);
      forall i | 0 <= i < |d'| ensures FromKept(s, keep, key, val, d'[i]) {
        if i < |d| { assert d[i].0 in KeySet(d); }
        if keep(x) && (i >= |d| || d[i].0 == key(x)) {
          if key(x) in KeySet(d) { assert d'[i] == (key(x), val(x)); }
          assert d'[i] == (key(s[|s| - 1]), val(s[|s| - 1]));
        } else {
          assert d'[i] == d[i];
          assert FromKept(s', keep, key, val, d[i]);
          var j :| 0 <= j < |s'| && keep(s'[j]) && d[i] == (key(s'[j]), val(s'[j]));
          assert s[j] == s'[j];
        }
      }
    }
  }

  /** The last kept element with a given key decides the value stored under that key. */
  lemma {:induction false} IndexByLast<T, K, V>(s: seq<T>, keep: T -> bool, key: T -> K, val: T -> V, j: nat)
    requires j < |s| && keep(s[j])
    requires forall m :: j < m < |s| && keep(s[m]) ==> key(s[m]) != key(s[j])
    ensures Get(IndexBy(s, keep, key, val), key(s[j])) == Some(val(s[j]))
  {
    var s' := s[..|s| - 1];
    var x := s[|s| - 1];
    var d := IndexBy(s', keep, key, val);
    IndexByKeys(s', keep, key, val);
    if j == |s| - 1 {
      GetPut(d, key(x), val(x), key(x));
    } else {
      assert s'[j] == s[j];
      IndexByLast(s', keep, key, val, j);
      if keep(x) { GetPut(d, key(x), val(x), key(s[j])); }
    }
  }

  /** Two dicts built over the same elements with the same keys have the same keys in the same order. */
  lemma {:induction false} IndexBySameKeys<T, K, V, W>(s: seq<T>, keep: T -> bool, key: T -> K, val: T -> V, val': T -> W)
    ensures Keys(IndexBy(s, keep, key, val)) == Keys(IndexBy(s, keep, key, val'))
  {
    if s != [] {
      var s' := s[..|s| - 1];
      var x := s[|s| - 1];
      IndexBySameKeys(s', keep, key, val, val');
      var d := IndexBy(s', keep, key, val);
      var e := IndexBy(s', keep, key, val');
      if keep(x) {
        assert KeySet(d) == KeySet(e) by {
          forall k ensures k in KeySet(d) <==> k in KeySet(e) {
            if k in KeySet(d) {
              var i :| 0 <= i < |d| && d[i].0 == k;
              assert Keys(d)[i] == Keys(e)[i];
            }
            if k in KeySet(e) {
              var i :| 0 <= i < |e| && e[i].0 == k;
              assert Keys(d)[i] == Keys(e)[i];
            }
          }
        }
        if key(x) !in KeySet(d) {
          assert Keys(d + [(key(x), val(x))]) == Keys(d) + [key(x)];
          assert Keys(e + [(key(x), val'(x))]) == Keys(e) + [key(x)];
        }
      }
    }
  }

  /** An element is collected exactly when some kept element maps to it. */
  lemma {:induction false} CollectMembers<T, U>(s: seq<T>, keep: T -> bool, f: T -> U, u: U)
    ensures u in Collect(s, keep, f) <==> exists j :: 0 <= j < |s| && keep(s[j]) && f(s[j]) == u
  {
    if s != [] {
      var s' := s[..|s| - 1];
      CollectMembers(s', keep, f, u);
      if exists j :: 0 <= j < |s| && keep(s[j]) && f(s[j]) == u {
        var j :| 0 <= j < |s| && keep(s[j]) && f(s[j]) == u;
        if j < |s'| { assert s'[j] == s[j]; }
      }
      if exists j :: 0 <= j < |s'| && keep(s'[j]) && f(s'[j]) == u {
        var j :| 0 <= j < |s'| && keep(s'[j]) && f(s'[j]) == u;
        assert s[j] == s'[j];
      }
    }
  }

  /** Collecting over a concatenation collects over each part in turn. */
  lemma {:induction false} CollectAppend<T, U>(a: seq<T>, b: seq<T>, keep: T -> bool, f: T -> U)
    ensures Collect(a + b, keep, f) == Collect(a, keep, f) + Collect(b, keep, f)
  {
    if b != [] {
      assert (a + b)[..|a + b| - 1] == a + b[..|b| - 1];
      CollectAppend(a, b[..|b| - 1], keep, f);
    } else {
      assert a + b == a;
    }
  }

  /** Number of elements of s that are kept. */
  function CountKept<T>(s: seq<T>, keep: T -> bool): nat {
    if s == [] then 0 else CountKept(s[..|s| - 1], keep) + (if keep(s[|s| - 1]) then 1 else 0)
  }

  lemma {:induction false} CollectLength<T, U>(s: seq<T>, keep: T -> bool, f: T -> U)
    ensures |Collect(s, keep, f)| == CountKept(s, keep)
  {
    if s != [] { CollectLength(s[..|s| - 1], keep, f); }
  }
}
