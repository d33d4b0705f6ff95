/**
 * Python's `results.sort(key=lambda x: x['confidence'], reverse=True)`:
 * a stable sort into non-increasing order of a real key. Stability is
 * stated as "for every key value, the elements with that key keep their
 * relative order", which together with sortedness pins the output down.
 */
module Ranking {

  predicate SortedDesc<T>(s: seq<T>, key: T -> real) {
    forall i, j :: 0 <= i < j < |s| ==> key(s[i]) >= key(s[j])
  }

  /** The elements of `s` whose key is `v`, in their order in `s`. */
  function WithKey<T>(s: seq<T>, key: T -> real, v: real): seq<T> {
    if s == [] then []
    else (if key(s[0]) == v then [s[0]] else []) + WithKey(s[1..], key, v)
  }

  /** Puts `x` after every element whose key is at least `key(x)`. */
  function InsertDesc<T>(t: seq<T>, x: T, key: T -> real): seq<T> {
    if t == [] then [x]
    else if key(t[0]) < key(x) then [x] + t
    else [t[0]] + InsertDesc(t[1..], x, key)
  }

  function SortDesc<T>(s: seq<T>, key: T -> real): seq<T> {
    if s == [] then [] else InsertDesc(SortDesc(s[..|s| - 1], key), s[|s| - 1], key)
  }

  /** A head whose key bounds a sorted tail keeps the sequence sorted. */
  lemma ConsSorted<T>(h: T, rest: seq<T>, key: T -> real)
    requires SortedDesc(rest, key)
    requires forall i :: 0 <= i < |rest| ==> key(rest[i]) <= key(h)
    ensures SortedDesc([h] + rest, key)
  {
    var r := [h] + rest;
    forall i, j | 0 <= i < j < |r| ensures key(r[i]) >= key(r[j]) {
      assert r[j] == rest[j - 1];
      if i > 0 {
        assert r[i] == rest[i - 1];
      }
    }
  }

  lemma {:induction false} InsertDescSorted<T>(t: seq<T>, x: T, key: T -> real)
    requires SortedDesc(t, key)
    ensures SortedDesc(InsertDesc(t, x, key), key)
  {
    if t == [] {
    } else if key(t[0]) < key(x) {
      ConsSorted(x, t, key);
    } else {
      InsertDescSorted(t[1..], x, key);
      InsertDescBound(t[1..], x, key, key(t[0]));
      ConsSorted(t[0], InsertDesc(t[1..], x, key), key);
    }
  }

  lemma {:induction false} InsertDescPermutes<T>(t: seq<T>, x: T, key: T -> real)
    ensures multiset(InsertDesc(t, x, key)) == multiset(t) + multiset{x}
  {
    if t != [] && key(t[0]) >= key(x) {
      InsertDescPermutes(t[1..], x, key);
      assert t == [t[0]] + t[1..];
    }
  }

  lemma {:induction false} InsertDescWithKey<T>(t: seq<T>, x: T, key: T -> real, v: real)
    requires SortedDesc(t, key)
    ensures WithKey(InsertDesc(t, x, key), key, v) == WithKey(t, key, v) + (if key(x) == v then [x] else [])
  {
    var r := InsertDesc(t, x, key);
    var own := if key(x) == v then [x] else [];
    if t == [] {
      assert r == [x] && r[1..] == [];
    } else if key(t[0]) < key(x) {
      assert r == [x] + t && r[1..] == t;
      if key(x) == v {
        WithKeyAbsent(t, key, v);
      }
      assert WithKey(r, key, v) == own + WithKey(t, key, v);
    } else {
      var rest := InsertDesc(t[1..], x, key);
      assert r == [t[0]] + rest && r[1..] == rest;
      var head := if key(t[0]) == v then [t[0]] else [];
      assert SortedDesc(t[1..], key);
      InsertDescWithKey(t[1..], x, key, v);
      calc {
        WithKey(r, key, v);
        head + WithKey(rest, key, v);
        head + (WithKey(t[1..], key, v) + own);
        (head + WithKey(t[1..], key, v)) + own;
        WithKey(t, key, v) + own;
      }
    }
  }

  /** Every element of a sorted sequence headed by a key below `v` has key below `v`. */
  lemma WithKeyAbsent<T>(t: seq<T>, key: T -> real, v: real)
    requires SortedDesc(t, key) && t != [] && key(t[0]) < v
    ensures WithKey(t, key, v) == []
  {
    if |t| > 1 {
      WithKeyAbsent(t[1..], key, v);
    }
  }

  lemma {:induction false} InsertDescBound<T>(t: seq<T>, x: T, key: T -> real, b: real)
    requires forall i :: 0 <= i < |t| ==> key(t[i]) <= b
    requires key(x) <= b
    ensures forall i :: 0 <= i < |InsertDesc(t, x, key)| ==> key(InsertDesc(t, x, key)[i]) <= b
  {
    if t != [] && key(t[0]) >= key(x) {
      InsertDescBound(t[1..], x, key, b);
    }
  }

  lemma {:induction false} WithKeyAppend<T>(s: seq<T>, x: T, key: T -> real, v: real)
    ensures WithKey(s + [x], key, v) == WithKey(s, key, v) + (if key(x) == v then [x] else [])
  {
    if s == [] {
      assert [x][1..] == [];
    } else {
      var head := if key(s[0]) == v then [s[0]] else [];
      var own := if key(x) == v then [x] else [];
      assert (s + [x])[1..] == s[1..] + [x];
      WithKeyAppend(s[1..], x, key, v);
      calc {
        WithKey(s + [x], key, v);
        head + WithKey(s[1..] + [x], key, v);
        head + (WithKey(s[1..], key, v) + own);
        (head + WithKey(s[1..], key, v)) + own;
      }
    }
  }

  /**
   * The sort yields a non-increasing sequence, is a permutation of its
   * input, and keeps elements of equal key in their input order.
   */
  lemma {:induction false} SortDescCorrect<T>(s: seq<T>, key: T -> real)
    ensures |SortDesc(s, key)| == |s|
    ensures SortedDesc(SortDesc(s, key), key)
    ensures multiset(SortDesc(s, key)) == multiset(s)
    ensures forall v :: WithKey(SortDesc(s, key), key, v) == WithKey(s, key, v)
  {
    if s != [] {
      var init, x := s[..|s| - 1], s[|s| - 1];
      SortDescCorrect(init, key);
      InsertDescSorted(SortDesc(init, key), x, key);
      InsertDescPermutes(SortDesc(init, key), x, key);
      assert s == init + [x];
      forall v ensures WithKey(SortDesc(s, key), key, v) == WithKey(s, key, v) {
        InsertDescWithKey(SortDesc(init, key), x, key, v);
        WithKeyAppend(init, x, key, v);
      }
      assert |SortDesc(s, key)| == |multiset(SortDesc(s, key))| == |multiset(s)|;
    }
  }

  /** Sorting does not change which elements are present. */
  lemma SortDescMembers<T>(s: seq<T>, key: T -> real)
    ensures forall x :: x in SortDesc(s, key) <==> x in s
  {
    SortDescCorrect(s, key);
    forall x ensures x in SortDesc(s, key) <==> x in s {
      assert x in SortDesc(s, key) <==> x in multiset(SortDesc(s, key));
      assert x in s <==> x in multiset(s);
    }
  }

  /** Cutting a sequence short keeps, for every key, a prefix of its elements with that key. */
  lemma {:induction false} WithKeyTake<T>(s: seq<T>, key: T -> real, v: real, n: nat)
    requires n <= |s|
    ensures WithKey(s[..n], key, v) <= WithKey(s, key, v)
    decreases n
  {
    if n > 0 {
      WithKeyTake(s[1..], key, v, n - 1);
      assert s[..n][1..] == s[1..][..n - 1];
    }
  }

  /**
   * The first `n` of the sorted sequence are the best `n`: they come from
   * `s`, nothing left out has a greater key than something kept, and equal
   * keys keep their order in `s`.
   */
  lemma TakeSortedKeepsBest<T>(s: seq<T>, key: T -> real, n: nat)
    ensures forall y | y in Take(SortDesc(s, key), n) :: y in s
    ensures forall x, y | x in s && x !in Take(SortDesc(s, key), n) && y in Take(SortDesc(s, key), n) ::
      key(x) <= key(y)
    ensures forall v :: WithKey(Take(SortDesc(s, key), n), key, v) <= WithKey(s, key, v)
  {
    var sorted := SortDesc(s, key);
    var r := Take(sorted, n);
    SortDescCorrect(s, key);
    SortDescMembers(s, key);
    forall x, y | x in s && x !in r && y in r ensures key(x) <= key(y) {
      var p :| 0 <= p < |sorted| && sorted[p] == x;
      var q :| 0 <= q < |r| && r[q] == y;
      assert sorted[q] == y;
    }
    forall v ensures WithKey(r, key, v) <= WithKey(s, key, v) {
      WithKeyTake(sorted, key, v, |r|);
    }
  }

  /** No two elements share the same `g` value. */
  predicate DistinctBy<T, U(==)>(s: seq<T>, g: T -> U) {
    forall i, j :: 0 <= i < j < |s| ==> g(s[i]) != g(s[j])
  }

  lemma {:induction false} InsertDescDistinct<T, U>(t: seq<T>, x: T, key: T -> real, g: T -> U)
    requires DistinctBy(t, g)
    requires forall y | y in t :: g(y) != g(x)
    ensures DistinctBy(InsertDesc(t, x, key), g)
    ensures forall y | y in InsertDesc(t, x, key) :: y in t || y == x
  {
    if t != [] && key(t[0]) >= key(x) {
      assert forall y | y in t[1..] :: y in t;
      InsertDescDistinct(t[1..], x, key, g);
      var r := InsertDesc(t, x, key);
      assert r == [t[0]] + InsertDesc(t[1..], x, key);
      forall j | 0 < j < |r| ensures g(r[0]) != g(r[j]) {
        assert r[j] in InsertDesc(t[1..], x, key);
        if r[j] != x {
          var k :| 0 <= k < |t[1..]| && t[1..][k] == r[j];
          assert t[k + 1] == r[j];
        }
      }
    }
  }

  /** Sorting keeps elements with pairwise distinct `g` values distinct. */
  lemma {:induction false} SortDescDistinct<T, U>(s: seq<T>, key: T -> real, g: T -> U)
    requires DistinctBy(s, g)
    ensures DistinctBy(SortDesc(s, key), g)
  {
    if s != [] {
      var init, x := s[..|s| - 1], s[|s| - 1];
      SortDescDistinct(init, key, g);
      SortDescCorrect(init, key);
      forall y | y in SortDesc(init, key) ensures g(y) != g(x) {
        assert y in multiset(SortDesc(init, key));
        assert y in init;
        var k :| 0 <= k < |init| && init[k] == y;
        assert s[k] == y;
      }
      InsertDescDistinct(SortDesc(init, key), x, key, g);
    }
  }

  /** Python's `s[:n]`. */
  function Take<T>(s: seq<T>, n: nat): (r: seq<T>)
    ensures |r| <= n && |r| <= |s|
    ensures r == s[..|r|]
    ensures |s| <= n ==> r == s
  {
    if |s| <= n then s else s[..n]
  }
}
