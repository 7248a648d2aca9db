/** Python's `sorted(s, key=key)` for string keys: a stable insertion sort. */
module Sorting {
  import opened Text
  import opened Seqs

  /** Inserts `x` after every element whose key is not greater than its own. */
  function InsertBy<T>(t: seq<T>, x: T, key: T -> string): seq<T> {
    if t == [] then [x]
    else if StrLt(key(x), key(t[|t| - 1])) then InsertBy(t[..|t| - 1], x, key) + [t[|t| - 1]]
    else t + [x]
  }

  function SortBy<T>(s: seq<T>, key: T -> string): seq<T> {
    if s == [] then [] else InsertBy(SortBy(s[..|s| - 1], key), s[|s| - 1], key)
  }

  predicate SortedBy<T>(s: seq<T>, key: T -> string) {
    forall i, j :: 0 <= i < j < |s| ==> StrLe(key(s[i]), key(s[j]))
  }

  /** The elements whose key is `k`, in order: stability says sorting keeps this subsequence. */
  function WithKey<T>(s: seq<T>, key: T -> string, k: string): seq<T> {
    Filter(s, (c: T) => key(c) == k)
  }

  lemma {:induction false} InsertByPermutes<T>(t: seq<T>, x: T, key: T -> string)
    ensures multiset(InsertBy(t, x, key)) == multiset(t) + multiset{x}
  {
    if t == [] {
      return;
    }
    var n := |t| - 1;
    var init, last := t[..n], t[n];
    if StrLt(key(x), key(last)) {
      var u := InsertBy(init, x, key);
      assert InsertBy(t, x, key) == u + [last];
      InsertByPermutes(init, x, key);
      assert multiset(t) == multiset(init) + multiset{last} by {
        assert t == init + [last];
      }
    }
  }

  /** Appending an element whose key is not below any other keeps the order. */
  lemma SortedAppend<T>(t: seq<T>, x: T, key: T -> string)
    requires SortedBy(t, key)
    requires forall i :: 0 <= i < |t| ==> StrLe(key(t[i]), key(x))
    ensures SortedBy(t + [x], key)
  {
    var r := t + [x];
    forall i, j | 0 <= i < j < |r|
      ensures StrLe(key(r[i]), key(r[j]))
    {
      assert r[i] == t[i];
      if j < |t| {
        assert r[j] == t[j];
      }
    }
  }

  lemma {:induction false} InsertBySorted<T>(t: seq<T>, x: T, key: T -> string)
    requires SortedBy(t, key)
    ensures SortedBy(InsertBy(t, x, key), key)
  {
    if t == [] {
      return;
    }
    var n := |t| - 1;
    var init, last := t[..n], t[n];
    if StrLt(key(x), key(last)) {
      InsertBySorted(init, x, key);
      InsertByPermutes(init, x, key);
      var u := InsertBy(init, x, key);
      forall i | 0 <= i < |u|
        ensures StrLe(key(u[i]), key(last))
      {
        assert u[i] in multiset(u);
        if u[i] == x {
          StrLtImpliesLe(key(x), key(last));
        } else {
          assert u[i] in multiset(init);
          var j :| 0 <= j < n && init[j] == u[i];
          assert t[j] == u[i];
        }
      }
      SortedAppend(u, last, key);
    } else {
      forall i | 0 <= i < |t|
        ensures StrLe(key(t[i]), key(x))
      {
        if i < n {
          StrLeTransitive(key(t[i]), key(last), key(x));
        }
      }
      SortedAppend(t, x, key);
    }
  }

  lemma {:induction false} InsertByStable<T>(t: seq<T>, x: T, key: T -> string, k: string)
    ensures WithKey(InsertBy(t, x, key), key, k) == WithKey(t, key, k) + (if key(x) == k then [x] else [])
  {
    var p := (c: T) => key(c) == k;
    if t == [] {
      return;
    }
    var n := |t| - 1;
    var init, last := t[..n], t[n];
    assert t == init + [last];
    FilterConcat(init, [last], p);
    if StrLt(key(x), key(last)) {
      InsertByStable(init, x, key, k);
      FilterConcat(InsertBy(init, x, key), [last], p);
      StrLtImpliesLe(key(x), key(last));
    } else {
      FilterConcat(t, [x], p);
    }
  }

  lemma {:induction false} SortByPermutes<T>(s: seq<T>, key: T -> string)
    ensures multiset(SortBy(s, key)) == multiset(s)
  {
    if s != [] {
      var n := |s| - 1;
      SortByPermutes(s[..n], key);
      InsertByPermutes(SortBy(s[..n], key), s[n], key);
      assert s == s[..n] + [s[n]];
    }
  }

  lemma {:induction false} SortBySorted<T>(s: seq<T>, key: T -> string)
    ensures SortedBy(SortBy(s, key), key)
  {
    if s != [] {
      var n := |s| - 1;
      SortBySorted(s[..n], key);
      InsertBySorted(SortBy(s[..n], key), s[n], key);
    }
  }

  lemma {:induction false} SortByStable<T>(s: seq<T>, key: T -> string, k: string)
    ensures WithKey(SortBy(s, key), key, k) == WithKey(s, key, k)
  {
    if s != [] {
      var n := |s| - 1;
      SortByStable(s[..n], key, k);
      InsertByStable(SortBy(s[..n], key), s[n], key, k);
      assert s == s[..n] + [s[n]];
      FilterConcat(s[..n], [s[n]], (c: T) => key(c) == k);
    }
  }

  /** `sorted(s, key=key)` is a permutation of `s`, ordered by key, and stable. */
  lemma SortByCorrect<T>(s: seq<T>, key: T -> string)
    ensures multiset(SortBy(s, key)) == multiset(s)
    ensures SortedBy(SortBy(s, key), key)
    ensures forall k :: WithKey(SortBy(s, key), key, k) == WithKey(s, key, k)
  {
    SortByPermutes(s, key);
    SortBySorted(s, key);
    forall k
      ensures WithKey(SortBy(s, key), key, k) == WithKey(s, key, k)
    {
      SortByStable(s, key, k);
    }
  }
}
