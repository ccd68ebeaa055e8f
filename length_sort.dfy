/**
 * The stable sort by rune count that the source applies twice with Go's
 * `sort.SliceStable`: variant lists ascending by length (chr_comparer.go)
 * and excluded preceding contexts descending by length (filters.go).
 * Modelled as a stable insertion sort; its specification is "sorted,
 * a permutation, and equal-length elements keep their relative order".
 */
module LengthSort {

  /** The sort key: the length, negated for a descending sort. */
  function Key(a: seq<char>, descending: bool): int {
    if descending then -|a| else |a|
  }

  /** The comparison handed to `sort.SliceStable`: `|a| < |b|`, or `|a| > |b|` when descending. */
  predicate Less(a: seq<char>, b: seq<char>, descending: bool) {
    Key(a, descending) < Key(b, descending)
  }

  /** No element is strictly `Less` than an element before it. */
  predicate Sorted(s: seq<seq<char>>, descending: bool) {
    forall i, j :: 0 <= i < j < |s| ==> Key(s[i], descending) <= Key(s[j], descending)
  }

  /** The elements of `s` whose length is `n`, in their order in `s`. */
  function WithLength(s: seq<seq<char>>, n: nat): seq<seq<char>> {
    if s == [] then []
    else (if |s[0]| == n then [s[0]] else []) + WithLength(s[1..], n)
  }

  /** Inserts `v` after every element it is not strictly `Less` than. */
  function Insert(v: seq<char>, s: seq<seq<char>>, descending: bool): seq<seq<char>> {
    if s == [] then [v]
    else if Less(v, s[0], descending) then [v] + s
    else [s[0]] + Insert(v, s[1..], descending)
  }

  /** Stable sort by length, ascending or descending. */
  function SortStable(s: seq<seq<char>>, descending: bool): seq<seq<char>> {
    if s == [] then []
    else Insert(s[|s| - 1], SortStable(s[..|s| - 1], descending), descending)
  }

  /** Inserting adds exactly one occurrence of `v`. */
  lemma {:induction false} InsertPermutes(v: seq<char>, s: seq<seq<char>>, descending: bool)
    ensures multiset(Insert(v, s, descending)) == multiset(s) + multiset{v}
  {
    if s != [] && !Less(v, s[0], descending) {
      InsertPermutes(v, s[1..], descending);
      assert s == [s[0]] + s[1..];
    }
  }

  lemma {:induction false} InsertLowerBound(v: seq<char>, s: seq<seq<char>>, descending: bool, lo: int)
    requires lo <= Key(v, descending)
    requires forall j :: 0 <= j < |s| ==> lo <= Key(s[j], descending)
    ensures forall j :: 0 <= j < |Insert(v, s, descending)| ==> lo <= Key(Insert(v, s, descending)[j], descending)
  {
    if s != [] && !Less(v, s[0], descending) {
      InsertLowerBound(v, s[1..], descending, lo);
      var rest := Insert(v, s[1..], descending);
      assert Insert(v, s, descending) == [s[0]] + rest;
    } else if s != [] {
      assert Insert(v, s, descending) == [v] + s;
    }
  }

  /** Inserting into a sorted list keeps it sorted. */
  lemma {:induction false} InsertSorted(v: seq<char>, s: seq<seq<char>>, descending: bool)
    requires Sorted(s, descending)
    ensures Sorted(Insert(v, s, descending), descending)
  {
    if s == [] {
      assert Insert(v, s, descending) == [v];
    } else if Less(v, s[0], descending) {
      var r := [v] + s;
      assert r == Insert(v, s, descending);
      forall i, j | 0 <= i < j < |r| ensures Key(r[i], descending) <= Key(r[j], descending) {
        if i == 0 {
          assert r[j] == s[j - 1];
          assert Key(s[0], descending) <= Key(s[j - 1], descending);
        } else {
          assert r[i] == s[i - 1] && r[j] == s[j - 1];
        }
      }
    } else {
      var tail := s[1..];
      SortedTail(s, descending);
      InsertSorted(v, tail, descending);
      forall j | 0 <= j < |tail| ensures Key(s[0], descending) <= Key(tail[j], descending) {
        assert tail[j] == s[j + 1];
      }
      InsertLowerBound(v, tail, descending, Key(s[0], descending));
      var rest := Insert(v, tail, descending);
      var r := [s[0]] + rest;
      assert r == Insert(v, s, descending);
      forall i, j | 0 <= i < j < |r| ensures Key(r[i], descending) <= Key(r[j], descending) {
        if i == 0 {
          assert r[j] == rest[j - 1];
        } else {
          assert r[i] == rest[i - 1] && r[j] == rest[j - 1];
        }
      }
    }
  }

  /** The sort yields a sorted permutation of its input. */
  lemma {:induction false} SortSorted(s: seq<seq<char>>, descending: bool)
    ensures Sorted(SortStable(s, descending), descending)
    ensures multiset(SortStable(s, descending)) == multiset(s)
    ensures |SortStable(s, descending)| == |s|
  {
    if s != [] {
      var init, last := s[..|s| - 1], s[|s| - 1];
      assert s == init + [last];
      SortSorted(init, descending);
      InsertSorted(last, SortStable(init, descending), descending);
      InsertPermutes(last, SortStable(init, descending), descending);
    }
  }

  lemma {:induction false} WithLengthAppend(s: seq<seq<char>>, v: seq<char>, n: nat)
    ensures WithLength(s + [v], n) == WithLength(s, n) + (if |v| == n then [v] else [])
  {
    if s == [] {
      assert [v][1..] == [];
    } else {
      assert (s + [v])[1..] == s[1..] + [v];
      WithLengthAppend(s[1..], v, n);
    }
  }

  /** Inserting into a sorted list appends `v` to the elements of its own length. */
  lemma {:induction false} InsertIsStable(v: seq<char>, s: seq<seq<char>>, descending: bool, n: nat)
    requires Sorted(s, descending)
    ensures WithLength(Insert(v, s, descending), n)
         == WithLength(s, n) + (if |v| == n then [v] else [])
  {
    if |s| == 0 {
      WithLengthCons(v, [], n);
    } else if Less(v, s[0], descending) {
      NoneOfLength(v, s, descending);
      WithLengthCons(v, s, n);
    } else {
      SortedTail(s, descending);
      InsertIsStable(v, s[1..], descending, n);
      InsertBehindStable(v, s, descending, n);
    }
  }

  /** Inserting behind the head keeps the head's place among the elements of its length. */
  lemma InsertBehindStable(v: seq<char>, s: seq<seq<char>>, descending: bool, n: nat)
    requires |s| > 0 && !Less(v, s[0], descending)
    requires WithLength(Insert(v, s[1..], descending), n) == WithLength(s[1..], n) + (if |v| == n then [v] else [])
    ensures WithLength(Insert(v, s, descending), n) == WithLength(s, n) + (if |v| == n then [v] else [])
  {
    var rest := Insert(v, s[1..], descending);
    WithLengthCons(s[0], rest, n);
    WithLengthCons(s[0], s[1..], n);
    assert [s[0]] + s[1..] == s;
    var h, w, x := (if |s[0]| == n then [s[0]] else []), WithLength(s[1..], n), (if |v| == n then [v] else []);
    assert h + (w + x) == h + w + x;
  }

  lemma WithLengthCons(x: seq<char>, t: seq<seq<char>>, n: nat)
    ensures WithLength([x] + t, n) == (if |x| == n then [x] else []) + WithLength(t, n)
  {
    assert ([x] + t)[1..] == t;
  }

  lemma SortedTail(s: seq<seq<char>>, descending: bool)
    requires Sorted(s, descending) && s != []
    ensures Sorted(s[1..], descending)
  {
    forall i, j | 0 <= i < j < |s| - 1 ensures Key(s[1..][i], descending) <= Key(s[1..][j], descending) {
      assert s[1..][i] == s[i + 1] && s[1..][j] == s[j + 1];
    }
  }

  /** In a sorted list whose head `v` is strictly `Less` than, no element has the length of `v`. */
  lemma NoneOfLength(v: seq<char>, s: seq<seq<char>>, descending: bool)
    requires Sorted(s, descending) && s != [] && Less(v, s[0], descending)
    ensures WithLength(s, |v|) == []
  {
    var n := |v|;
    var i := 0;
    while i < |s|
      invariant 0 <= i <= |s|
      invariant WithLength(s, n) == WithLength(s[i..], n)
    {
      assert !Less(s[i], s[0], descending) || i == 0;
      assert s[i..][1..] == s[i + 1..];
      i := i + 1;
    }
  }

  /** Sorting keeps, for every length, the elements of that length in their input order. */
  lemma {:induction false} SortIsStable(s: seq<seq<char>>, descending: bool, n: nat)
    ensures WithLength(SortStable(s, descending), n) == WithLength(s, n)
  {
    if s != [] {
      var init, last := s[..|s| - 1], s[|s| - 1];
      assert s == init + [last];
      SortIsStable(init, descending, n);
      SortSorted(init, descending);
      InsertIsStable(last, SortStable(init, descending), descending, n);
      WithLengthAppend(init, last, n);
    }
  }

  /** A list that is already sorted is returned unchanged. */
  lemma {:induction false} SortSortedIsIdentity(s: seq<seq<char>>, descending: bool)
    requires Sorted(s, descending)
    ensures SortStable(s, descending) == s
  {
    if s != [] {
      var init, last := s[..|s| - 1], s[|s| - 1];
      assert Sorted(init, descending) by {
        forall i, j | 0 <= i < j < |init| ensures Key(init[i], descending) <= Key(init[j], descending) {
          assert init[i] == s[i] && init[j] == s[j];
        }
      }
      SortSortedIsIdentity(init, descending);
      assert init + [last] == s;
      InsertLast(last, init, descending);
    }
  }

  lemma {:induction false} InsertLast(v: seq<char>, s: seq<seq<char>>, descending: bool)
    requires Sorted(s + [v], descending)
    ensures Insert(v, s, descending) == s + [v]
  {
    assert Sorted(s, descending) by {
      forall i, j | 0 <= i < j < |s| ensures Key(s[i], descending) <= Key(s[j], descending) {
        assert s[i] == (s + [v])[i] && s[j] == (s + [v])[j];
      }
    }
    if s != [] {
      assert !Less(v, s[0], descending) by { assert (s + [v])[|s|] == v && (s + [v])[0] == s[0]; }
      assert (s + [v])[1..] == s[1..] + [v];
      InsertLast(v, s[1..], descending);
    }
  }
}
