/**
 * Python's `list.sort(key=...)`. CPython computes every element's key once,
 * sorts the decorated list by key in ascending order, stably, and drops the keys
 * again. A descending order is asked for, as the scripts do, with a negated key.
 * The sort here is an insertion sort: a reference definition with the same
 * result as CPython's, not its algorithm.
 */
module Sorting {

  /** Sorted by key, smallest first. */
  predicate Ascending<T>(s: seq<(T, real)>)
  {
    forall i, j :: 0 <= i < j < |s| ==> s[i].1 <= s[j].1
  }

  /** Puts `x` in front of the first element whose key is not smaller. */
  function Insert<T>(x: (T, real), s: seq<(T, real)>): seq<(T, real)>
  {
    if s == [] || x.1 <= s[0].1 then [x] + s
    else [s[0]] + Insert(x, s[1..])
  }

  lemma {:induction false} InsertMultiset<T>(x: (T, real), s: seq<(T, real)>)
    ensures multiset(Insert(x, s)) == multiset(s) + multiset{x}
    ensures |Insert(x, s)| == |s| + 1
  {
    if !(s == [] || x.1 <= s[0].1) {
      InsertMultiset(x, s[1..]);
      assert s == [s[0]] + s[1..];
    }
  }

  lemma {:induction false} InsertAscending<T>(x: (T, real), s: seq<(T, real)>)
    requires Ascending(s)
    ensures Ascending(Insert(x, s))
  {
    if !(s == [] || x.1 <= s[0].1) {
      var rest := Insert(x, s[1..]);
      InsertAscending(x, s[1..]);
      InsertMultiset(x, s[1..]);
      forall k | 0 <= k < |rest|
        ensures s[0].1 <= rest[k].1
      {
        assert rest[k] in multiset(s[1..]) + multiset{x};
        if rest[k] != x {
          assert rest[k] in s[1..];
        }
      }
    }
  }

  /** A stable ascending sort of a decorated list. */
  function SortByKey<T>(s: seq<(T, real)>): (r: seq<(T, real)>)
    ensures multiset(r) == multiset(s)
    ensures |r| == |s|
    ensures Ascending(r)
  {
    if s == [] then []
    else
      var sorted := SortByKey(s[1..]);
      InsertMultiset(s[0], sorted);
      InsertAscending(s[0], sorted);
      assert s == [s[0]] + s[1..];
      Insert(s[0], sorted)
  }

  /** The elements whose key equals `k`, in order. */
  function WithKey<T>(s: seq<(T, real)>, k: real): seq<(T, real)>
  {
    if s == [] then []
    else (if s[0].1 == k then [s[0]] else []) + WithKey(s[1..], k)
  }

  lemma {:induction false} InsertWithKey<T>(x: (T, real), s: seq<(T, real)>, k: real)
    ensures WithKey(Insert(x, s), k) == (if x.1 == k then [x] else []) + WithKey(s, k)
  {
    var mine := if x.1 == k then [x] else [];
    if s == [] || x.1 <= s[0].1 {
      var r := [x] + s;
      assert r[0] == x && r[1..] == s;
      assert WithKey(r, k) == mine + WithKey(s, k);
    } else {
      var rest := Insert(x, s[1..]);
      var r := [s[0]] + rest;
      var head := if s[0].1 == k then [s[0]] else [];
      assert r[0] == s[0] && r[1..] == rest;
      assert WithKey(r, k) == head + WithKey(rest, k);
      InsertWithKey(x, s[1..], k);
      assert WithKey(s, k) == head + WithKey(s[1..], k);
      // x's key exceeds s[0]'s, so at most one of the two is kept
      assert mine == [] || head == [];
      assert WithKey(r, k) == head + mine + WithKey(s[1..], k);
    }
  }

  /** Stability: elements with equal keys keep their original relative order. */
  lemma {:induction false} SortByKeyStable<T>(s: seq<(T, real)>, k: real)
    ensures WithKey(SortByKey(s), k) == WithKey(s, k)
  {
    if s != [] {
      SortByKeyStable(s[1..], k);
      InsertWithKey(s[0], SortByKey(s[1..]), k);
    }
  }

  /** The elements without their keys. */
  function Firsts<T>(s: seq<(T, real)>): (r: seq<T>)
    ensures |r| == |s|
    ensures forall i :: 0 <= i < |s| ==> r[i] == s[i].0
  {
    if s == [] then [] else [s[0].0] + Firsts(s[1..])
  }

  lemma {:induction false} InsertFirsts<T>(x: (T, real), s: seq<(T, real)>)
    ensures multiset(Firsts(Insert(x, s))) == multiset(Firsts(s)) + multiset{x.0}
  {
    if s == [] || x.1 <= s[0].1 {
      assert Firsts([x] + s) == [x.0] + Firsts(s) by {
        assert ([x] + s)[1..] == s;
      }
    } else {
      InsertFirsts(x, s[1..]);
      assert ([s[0]] + Insert(x, s[1..]))[1..] == Insert(x, s[1..]);
      assert Firsts(s) == [s[0].0] + Firsts(s[1..]);
    }
  }

  /** Sorting permutes the undecorated elements too. */
  lemma {:induction false} SortByKeyFirsts<T>(s: seq<(T, real)>)
    ensures multiset(Firsts(SortByKey(s))) == multiset(Firsts(s))
  {
    if s != [] {
      SortByKeyFirsts(s[1..]);
      InsertFirsts(s[0], SortByKey(s[1..]));
    }
  }

  /** Every key negated: sorting by it sorts by the original key, largest first. */
  function Negated<T>(s: seq<(T, real)>): (r: seq<(T, real)>)
    ensures |r| == |s|
    ensures forall i :: 0 <= i < |s| ==> r[i] == (s[i].0, -s[i].1)
  {
    seq(|s|, i requires 0 <= i < |s| => (s[i].0, -s[i].1))
  }

  /** An element of the negated list comes from one of the original list with the opposite key. */
  lemma NegatedMember<T>(s: seq<(T, real)>, x: (T, real))
    requires x in multiset(Negated(s))
    ensures (x.0, -x.1) in s
  {
    var neg := Negated(s);
    assert x in neg;
    var j :| 0 <= j < |neg| && neg[j] == x;
    var (a, k) := s[j];
    assert x == (a, -k);
  }

  /** Every element of a permutation of the negated list comes from the list, with its key negated. */
  lemma PermutedNegatedFrom<T>(s: seq<(T, real)>, r: seq<(T, real)>)
    requires multiset(r) == multiset(Negated(s))
    ensures forall i :: 0 <= i < |r| ==> (r[i].0, -r[i].1) in s
  {
    forall i | 0 <= i < |r|
      ensures (r[i].0, -r[i].1) in s
    {
      assert r[i] in multiset(r);
      NegatedMember(s, r[i]);
    }
  }

  /** The first `n` elements, or all of them when there are fewer: Python's `s[:n]`. */
  function Take<T>(s: seq<T>, n: nat): (r: seq<T>)
    ensures |r| == if |s| < n then |s| else n
    ensures r <= s
  {
    if |s| <= n then s else s[..n]
  }
}
