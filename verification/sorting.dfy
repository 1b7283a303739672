/**
 * Filtering, and ordering by a numeric key, newest (largest) first. Used for the client's
 * `sort((a, b) => new Date(b.created_at) - new Date(a.created_at))`, for the
 * model's `ordering = ['-created_at']` and for `order_by('-latest_created')`.
 */
module Sorting {

  /** `s` is ordered by non-increasing key. */
  ghost predicate SortedDesc<T>(s: seq<T>, key: T -> int) {
    forall i, j :: 0 <= i < j < |s| ==> key(s[i]) >= key(s[j])
  }

  /** Inserts `x` before the first element whose key is not larger than its own. */
  function Insert<T>(x: T, s: seq<T>, key: T -> int): (r: seq<T>)
    requires SortedDesc(s, key)
    ensures SortedDesc(r, key)
    ensures multiset(r) == multiset(s) + multiset{x}
  {
    if |s| == 0 then [x]
    else if key(x) >= key(s[0]) then [x] + s
    else
      var rest := Insert(x, s[1..], key);
      assert s == [s[0]] + s[1..];
      assert forall k :: 0 <= k < |s[1..]| ==> key(s[1..][k]) <= key(s[0]) by {
        forall k | 0 <= k < |s[1..]| ensures key(s[1..][k]) <= key(s[0]) {
          assert s[1..][k] == s[k + 1];
        }
      }
      BoundedByMultiset(rest, s[1..], x, key, key(s[0]));
      PrependSorted(s[0], rest, key);
      [s[0]] + rest
  }

  /** Every element of `r`, made of the elements of `s` and `x`, has a key at most `bound` when they do. */
  lemma BoundedByMultiset<T>(r: seq<T>, s: seq<T>, x: T, key: T -> int, bound: int)
    requires multiset(r) == multiset(s) + multiset{x}
    requires forall k :: 0 <= k < |s| ==> key(s[k]) <= bound
    requires key(x) <= bound
    ensures forall k :: 0 <= k < |r| ==> key(r[k]) <= bound
  {
    forall k | 0 <= k < |r| ensures key(r[k]) <= bound {
      assert r[k] in multiset(r);
      if r[k] != x {
        assert r[k] in multiset(s);
        var m :| 0 <= m < |s| && s[m] == r[k];
      }
    }
  }

  /** An element with a key at least every key of a sorted list may go in front of it. */
  lemma PrependSorted<T>(y: T, s: seq<T>, key: T -> int)
    requires SortedDesc(s, key)
    requires forall k :: 0 <= k < |s| ==> key(s[k]) <= key(y)
    ensures SortedDesc([y] + s, key)
  {
    forall i, j | 0 <= i < j < |[y] + s| ensures key(([y] + s)[i]) >= key(([y] + s)[j]) {
      assert ([y] + s)[j] == s[j - 1];
      if i > 0 { assert ([y] + s)[i] == s[i - 1]; }
    }
  }

  /**
   * The elements of `s`, largest key first. Elements with equal keys keep
   * their input order, as the stable `Array.prototype.sort` keeps them.
   */
  function SortDesc<T>(s: seq<T>, key: T -> int): (r: seq<T>)
    ensures SortedDesc(r, key)
    ensures multiset(r) == multiset(s)
    ensures |r| == |s|
  {
    if |s| == 0 then []
    else
      assert s == [s[0]] + s[1..];
      Insert(s[0], SortDesc(s[1..], key), key)
  }

  /** The test "has key `k`", for filtering out one group of equal keys. */
  function HasKey<T>(key: T -> int, k: int): T -> bool {
    x => key(x) == k
  }

  /** Inserting `x` into a sorted list puts it in front of every element with the same key. */
  lemma {:induction false} InsertKeepsTies<T(!new)>(x: T, s: seq<T>, key: T -> int, k: int)
    requires SortedDesc(s, key)
    ensures Filter(Insert(x, s, key), HasKey(key, k)) ==
      (if key(x) == k then [x] else []) + Filter(s, HasKey(key, k))
    decreases |s|
  {
    var eq := HasKey(key, k);
    if |s| == 0 {
      assert Insert(x, s, key) == [x];
    } else if key(x) >= key(s[0]) {
      var r := [x] + s;
      assert r[0] == x && r[1..] == s;
    } else {
      assert SortedDesc(s[1..], key) by {
        forall i, j | 0 <= i < j < |s[1..]| ensures key(s[1..][i]) >= key(s[1..][j]) {
          assert s[1..][i] == s[i + 1] && s[1..][j] == s[j + 1];
        }
      }
      InsertKeepsTies(x, s[1..], key, k);
      var r := [s[0]] + Insert(x, s[1..], key);
      assert Insert(x, s, key) == r;
      assert r[0] == s[0] && r[1..] == Insert(x, s[1..], key);
      assert Filter(s, eq) == (if key(s[0]) == k then [s[0]] else []) + Filter(s[1..], eq);
    }
  }

  /**
   * The sort is stable: for every key, the elements with that key come out
   * in the order they went in.
   */
  lemma {:induction false} SortDescStable<T(!new)>(s: seq<T>, key: T -> int, k: int)
    ensures Filter(SortDesc(s, key), HasKey(key, k)) == Filter(s, HasKey(key, k))
    decreases |s|
  {
    if |s| > 0 {
      SortDescStable(s[1..], key, k);
      InsertKeepsTies(s[0], SortDesc(s[1..], key), key, k);
      assert Filter(s, HasKey(key, k)) == (if key(s[0]) == k then [s[0]] else []) + Filter(s[1..], HasKey(key, k));
    }
  }

  /** Sorting keeps exactly the elements of the input. */
  lemma SortDescMembers<T>(s: seq<T>, key: T -> int)
    ensures forall x :: x in SortDesc(s, key) <==> x in s
  {
    var r := SortDesc(s, key);
    forall x ensures x in r <==> x in s {
      assert x in r <==> x in multiset(r);
      assert x in s <==> x in multiset(s);
    }
  }

  /** Appending an element whose key is at most every key keeps the order. */
  lemma AppendSorted<T>(s: seq<T>, x: T, key: T -> int)
    requires SortedDesc(s, key)
    requires forall y :: y in s ==> key(y) >= key(x)
    ensures SortedDesc(s + [x], key)
  {
    forall i, j | 0 <= i < j < |s + [x]| ensures key((s + [x])[i]) >= key((s + [x])[j]) {
      assert (s + [x])[i] == s[i] && s[i] in s;
    }
  }

  /** The kept elements (`Array.prototype.filter`, a queryset `filter`), in their input order. */
  function Filter<T(!new)>(s: seq<T>, keep: T -> bool): (r: seq<T>)
    ensures forall x :: x in r <==> x in s && keep(x)
    ensures |r| <= |s|
  {
    if s == [] then []
    else
      var rest := Filter(s[1..], keep);
      assert forall x :: x in s <==> x == s[0] || x in s[1..];
      if keep(s[0]) then [s[0]] + rest else rest
  }
}
