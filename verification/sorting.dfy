/**
 * Python's `sorted(xs, key=...)` for a string key: a stable sort in
 * code-point order, written as an insertion sort.
 */
module Sorting {
  import opened Text

  ghost predicate SortedBy<T>(s: seq<T>, key: T -> string) {
    forall i, j :: 0 <= i < j < |s| ==> StrLe(key(s[i]), key(s[j]))
  }

  /** The elements of `s` whose key is `k`, in their order in `s`. */
  function WithKey<T>(s: seq<T>, key: T -> string, k: string): seq<T> {
    if |s| == 0 then []
    else (if key(s[0]) == k then [s[0]] else []) + WithKey(s[1..], key, k)
  }

  /** `r` is `s` with some elements left out and the rest in their order in `s`. */
  predicate Subsequence<T(==)>(r: seq<T>, s: seq<T>)
    decreases |s|
  {
    if |r| == 0 then true
    else if |s| == 0 then false
    else if r[|r| - 1] == s[|s| - 1] then Subsequence(r[..|r| - 1], s[..|s| - 1])
    else Subsequence(r, s[..|s| - 1])
  }

  /** Keeping a new last element of `s` extends the subsequence. */
  lemma SubsequenceExtendBoth<T>(r: seq<T>, s: seq<T>, x: T)
    requires Subsequence(r, s)
    ensures Subsequence(r + [x], s + [x])
  {
    assert (r + [x])[..|r|] == r;
    assert (s + [x])[..|s|] == s;
  }

  /** Leaving out a new last element of `s` keeps the subsequence. */
  lemma {:induction false} SubsequenceExtendRight<T>(r: seq<T>, s: seq<T>, x: T)
    requires Subsequence(r, s)
    ensures Subsequence(r, s + [x])
    decreases |s|, 1
  {
    assert (s + [x])[..|s|] == s;
    if |r| > 0 && r[|r| - 1] == x {
      SubsequenceDropLast(r, s);
    }
  }

  /** A subsequence without its last element is still a subsequence. */
  lemma {:induction false} SubsequenceDropLast<T>(r: seq<T>, s: seq<T>)
    requires |r| > 0 && Subsequence(r, s)
    ensures Subsequence(r[..|r| - 1], s)
    decreases |s|, 0
  {
    var front := s[..|s| - 1];
    assert front + [s[|s| - 1]] == s;
    if r[|r| - 1] != s[|s| - 1] {
      SubsequenceDropLast(r, front);
    }
    SubsequenceExtendRight(r[..|r| - 1], front, s[|s| - 1]);
  }

  /** Places `x` before the first element whose key is not smaller than its own. */
  function Insert<T>(x: T, s: seq<T>, key: T -> string): (r: seq<T>)
    ensures multiset(r) == multiset(s) + multiset{x}
    ensures |r| > 0 && (r[0] == x || (|s| > 0 && r[0] == s[0]))
  {
    if |s| == 0 || StrLe(key(x), key(s[0])) then [x] + s
    else
      assert s == [s[0]] + s[1..];
      [s[0]] + Insert(x, s[1..], key)
  }

  lemma {:induction false} InsertSorted<T>(x: T, s: seq<T>, key: T -> string)
    requires SortedBy(s, key)
    ensures SortedBy(Insert(x, s, key), key)
  {
    if |s| == 0 || StrLe(key(x), key(s[0])) {
      forall j | 0 <= j < |s|
        ensures StrLe(key(x), key(s[j]))
      {
        if j > 0 {
          StrLeTrans(key(x), key(s[0]), key(s[j]));
        }
      }
      assert forall j :: 0 <= j < |s| ==> ([x] + s)[j + 1] == s[j];
    } else {
      StrLeTotal(key(x), key(s[0]));
      InsertSorted(x, s[1..], key);
      var r := Insert(x, s[1..], key);
      assert multiset(r) == multiset(s[1..]) + multiset{x};
      forall j | 0 <= j < |r|
        ensures StrLe(key(s[0]), key(r[j]))
      {
        if j > 0 {
          assert StrLe(key(r[0]), key(r[j]));
          if r[0] == x {
            StrLeTrans(key(s[0]), key(x), key(r[j]));
          } else {
            StrLeTrans(key(s[0]), key(s[1]), key(r[j]));
          }
        }
      }
    }
  }

  /** Filtering by key distributes over putting one element in front. */
  lemma WithKeyCons<T>(a: T, t: seq<T>, key: T -> string, k: string)
    ensures WithKey([a] + t, key, k) == (if key(a) == k then [a] else []) + WithKey(t, key, k)
  {
    assert ([a] + t)[1..] == t;
  }

  lemma {:induction false} InsertWithKey<T>(x: T, s: seq<T>, key: T -> string, k: string)
    ensures WithKey(Insert(x, s, key), key, k)
         == (if key(x) == k then [x] else []) + WithKey(s, key, k)
  {
    if |s| == 0 || StrLe(key(x), key(s[0])) {
      WithKeyCons(x, s, key, k);
    } else {
      StrLeRefl(key(x));
      var r := Insert(x, s[1..], key);
      InsertWithKey(x, s[1..], key, k);
      WithKeyCons(s[0], r, key, k);
      WithKeyCons(s[0], s[1..], key, k);
      assert s == [s[0]] + s[1..];
    }
  }

  function SortBy<T>(s: seq<T>, key: T -> string): (r: seq<T>)
    ensures multiset(r) == multiset(s)
    ensures |r| == |s|
  {
    if |s| == 0 then []
    else
      assert s == [s[0]] + s[1..];
      Insert(s[0], SortBy(s[1..], key), key)
  }

  /** The result is in key order. */
  lemma {:induction false} SortBySorted<T>(s: seq<T>, key: T -> string)
    ensures SortedBy(SortBy(s, key), key)
  {
    if |s| > 0 {
      SortBySorted(s[1..], key);
      InsertSorted(s[0], SortBy(s[1..], key), key);
    }
  }

  /** Elements with equal keys keep their relative order (Python's sort is stable). */
  lemma {:induction false} SortByStable<T>(s: seq<T>, key: T -> string, k: string)
    ensures WithKey(SortBy(s, key), key, k) == WithKey(s, key, k)
  {
    if |s| > 0 {
      SortByStable(s[1..], key, k);
      InsertWithKey(s[0], SortBy(s[1..], key), key, k);
    }
  }
}
