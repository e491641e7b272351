/** Sequence helpers shared by the geometry code: the stable sort that stands
    for numpy's argsort and Python's sorted(), and the first-minimum search
    that stands for numpy's argmin. */
module Seqs {

  datatype Option<T> = None | Some(value: T)

  /** Every element is at most every later one, by key. */
  ghost predicate SortedBy<T>(s: seq<T>, key: T -> real)
  {
    forall i, j :: 0 <= i < j < |s| ==> key(s[i]) <= key(s[j])
  }

  /** Inserts x after every element whose key is at most key(x): the step of a
      stable insertion sort. */
  function Insert<T>(t: seq<T>, x: T, key: T -> real): (r: seq<T>)
    ensures multiset(r) == multiset(t) + multiset{x}
    ensures |r| == |t| + 1
    decreases |t|
  {
    if t == [] then [x]
    else if key(x) < key(t[0]) then [x] + t
    else
      assert t == [t[0]] + t[1..];
      [t[0]] + Insert(t[1..], x, key)
  }

  lemma {:induction false} InsertSorted<T>(t: seq<T>, x: T, key: T -> real)
    requires SortedBy(t, key)
    ensures SortedBy(Insert(t, x, key), key)
    decreases |t|
  {
    if t != [] && key(x) >= key(t[0]) {
      var rest := Insert(t[1..], x, key);
      InsertSorted(t[1..], x, key);
      forall k | 0 <= k < |rest| ensures key(t[0]) <= key(rest[k]) {
        assert rest[k] in multiset(rest);
        assert rest[k] in multiset(t[1..]) + multiset{x};
        if rest[k] in multiset(t[1..]) {
          var j :| 0 <= j < |t[1..]| && t[1..][j] == rest[k];
          assert t[j + 1] == rest[k];
        }
      }
    }
  }

  /** Stable sort by key (insertion sort over the prefix). */
  function SortBy<T>(s: seq<T>, key: T -> real): (r: seq<T>)
    ensures multiset(r) == multiset(s)
    ensures |r| == |s|
    decreases |s|
  {
    if s == [] then []
    else
      assert s == s[..|s| - 1] + [s[|s| - 1]];
      Insert(SortBy(s[..|s| - 1], key), s[|s| - 1], key)
  }

  lemma {:induction false} SortBySorted<T>(s: seq<T>, key: T -> real)
    ensures SortedBy(SortBy(s, key), key)
    decreases |s|
  {
    if s != [] {
      SortBySorted(s[..|s| - 1], key);
      InsertSorted(SortBy(s[..|s| - 1], key), s[|s| - 1], key);
    }
  }

  lemma {:induction false} InsertAtEnd<T>(t: seq<T>, x: T, key: T -> real)
    requires forall i :: 0 <= i < |t| ==> key(t[i]) <= key(x)
    ensures Insert(t, x, key) == t + [x]
    decreases |t|
  {
    if t != [] {
      InsertAtEnd(t[1..], x, key);
      assert t == [t[0]] + t[1..];
    }
  }

  /** A stable sort leaves an already sorted sequence as it is. */
  lemma {:induction false} SortByOfSorted<T>(s: seq<T>, key: T -> real)
    requires SortedBy(s, key)
    ensures SortBy(s, key) == s
    decreases |s|
  {
    if s != [] {
      var init, last := s[..|s| - 1], s[|s| - 1];
      SortedInit(s, key);
      SortByOfSorted(init, key);
      InsertAtEnd(init, last, key);
      assert SortBy(s, key) == Insert(SortBy(init, key), last, key);
      assert init + [last] == s;
    }
  }

  /** Dropping the last element of a sorted sequence leaves it sorted, and
      that element's key is the largest. */
  lemma SortedInit<T>(s: seq<T>, key: T -> real)
    requires SortedBy(s, key) && s != []
    ensures SortedBy(s[..|s| - 1], key)
    ensures forall i :: 0 <= i < |s| - 1 ==> key(s[i]) <= key(s[|s| - 1])
  {
    var init := s[..|s| - 1];
    forall i, j | 0 <= i < j < |init| ensures key(init[i]) <= key(init[j]) {
      assert init[i] == s[i] && init[j] == s[j];
    }
    forall i | 0 <= i < |init| ensures key(init[i]) <= key(s[|s| - 1]) {
      assert init[i] == s[i];
    }
  }

  /** Sorting two elements swaps them only when the second key is strictly smaller. */
  lemma SortByTwo<T>(a: T, b: T, key: T -> real)
    ensures SortBy([a, b], key) == if key(b) < key(a) then [b, a] else [a, b]
  {
    assert [a, b][..1] == [a];
    assert [a][..0] == [];
  }

  /** Index of the first minimum of a non-empty sequence (numpy's argmin). */
  function ArgMin(v: seq<real>): (k: nat)
    requires |v| > 0
    ensures k < |v|
    ensures forall j :: 0 <= j < |v| ==> v[k] <= v[j]
    ensures forall j :: 0 <= j < k ==> v[k] < v[j]
  {
    if |v| == 1 then 0
    else
      var k := ArgMin(v[..|v| - 1]);
      assert forall j :: 0 <= j < |v| - 1 ==> v[..|v| - 1][j] == v[j];
      if v[|v| - 1] < v[k] then |v| - 1 else k
  }

  /** Order-preserving filter. */
  function Filter<T>(s: seq<T>, p: T -> bool): (r: seq<T>)
    ensures |r| <= |s|
    ensures forall i :: 0 <= i < |r| ==> r[i] in s && p(r[i])
    ensures forall i :: 0 <= i < |s| && p(s[i]) ==> s[i] in r
    decreases |s|
  {
    if s == [] then []
    else
      var rest := Filter(s[1..], p);
      assert forall i :: 0 < i < |s| ==> s[i] == s[1..][i - 1];
      (if p(s[0]) then [s[0]] else []) + rest
  }

  /** No element occurs twice. */
  ghost predicate Distinct<T>(s: seq<T>)
  {
    forall i, j :: 0 <= i < j < |s| ==> s[i] != s[j]
  }

  /** Two duplicate-free sequences of the same length, the first drawn from
      the second, are rearrangements of each other. */
  lemma {:induction false} DistinctRearranged<T>(r: seq<T>, s: seq<T>)
    requires |r| == |s| && Distinct(r) && Distinct(s)
    requires forall k :: 0 <= k < |r| ==> r[k] in s
    ensures multiset(r) == multiset(s)
    decreases |r|
  {
    if r != [] {
      var j :| 0 <= j < |s| && s[j] == r[0];
      var s' := RemoveAt(s, j);
      RemoveAtSpec(s, j);
      RemoveAtIndex(s, j);
      forall k | 0 <= k < |r| - 1 ensures r[1..][k] in s' {
        assert r[k + 1] != r[0];
        var m :| 0 <= m < |s| && s[m] == r[k + 1];
        if m < j {
          assert s'[m] == r[k + 1];
        } else {
          assert s'[m - 1] == r[k + 1];
        }
      }
      assert Distinct(r[1..]) by {
        forall a, b | 0 <= a < b < |r| - 1 ensures r[1..][a] != r[1..][b] {
          assert r[a + 1] != r[b + 1];
        }
      }
      DistinctRearranged(r[1..], s');
      assert r == [r[0]] + r[1..];
    }
  }

  function RemoveAt<T>(s: seq<T>, j: nat): seq<T>
    requires j < |s|
  {
    s[..j] + s[j + 1..]
  }

  /** Removing an element takes exactly that one occurrence out. */
  lemma RemoveAtCount<T>(s: seq<T>, j: nat)
    requires j < |s|
    ensures multiset(s) == multiset(RemoveAt(s, j)) + multiset{s[j]}
  {
    assert s == s[..j] + [s[j]] + s[j + 1..];
  }

  /** Removing an element shifts the later ones down by one. */
  lemma RemoveAtIndex<T>(s: seq<T>, j: nat)
    requires j < |s|
    ensures |RemoveAt(s, j)| == |s| - 1
    ensures forall k :: 0 <= k < j ==> RemoveAt(s, j)[k] == s[k]
    ensures forall k :: j <= k < |s| - 1 ==> RemoveAt(s, j)[k] == s[k + 1]
  {
  }

  lemma RemoveAtSpec<T>(s: seq<T>, j: nat)
    requires j < |s| && Distinct(s)
    ensures multiset(s) == multiset(RemoveAt(s, j)) + multiset{s[j]}
    ensures Distinct(RemoveAt(s, j))
    ensures forall x :: x in s && x != s[j] ==> x in RemoveAt(s, j)
  {
    var s' := RemoveAt(s, j);
    RemoveAtCount(s, j);
    RemoveAtIndex(s, j);
    forall a, b | 0 <= a < b < |s'| ensures s'[a] != s'[b] {
      var a', b' := if a < j then a else a + 1, if b < j then b else b + 1;
      assert s'[a] == s[a'] && s'[b] == s[b'];
    }
    forall x | x in s && x != s[j] ensures x in s' {
      var m :| 0 <= m < |s| && s[m] == x;
      if m < j { assert s'[m] == x; } else { assert s'[m - 1] == x; }
    }
  }

  /** A duplicate-free sequence holds each value at most once. */
  lemma {:induction false} DistinctCountsOne<T>(s: seq<T>, x: T)
    requires Distinct(s)
    ensures multiset(s)[x] <= 1
    decreases |s|
  {
    if s != [] {
      var t := s[1..];
      assert s == [s[0]] + t;
      assert Distinct(t) by {
        forall i, j | 0 <= i < j < |t| ensures t[i] != t[j] {
          assert t[i] == s[i + 1] && t[j] == s[j + 1];
        }
      }
      DistinctCountsOne(t, x);
      if x == s[0] {
        assert x !in t by {
          forall i | 0 <= i < |t| ensures t[i] != x {
            assert t[i] == s[i + 1];
          }
        }
      }
    }
  }

  /** A rearrangement of a duplicate-free sequence is duplicate-free. */
  lemma DistinctRearrangement<T>(r: seq<T>, s: seq<T>)
    requires multiset(r) == multiset(s) && Distinct(s)
    ensures Distinct(r)
  {
    forall i, j | 0 <= i < j < |r| ensures r[i] != r[j] {
      if r[i] == r[j] {
        var x := r[i];
        assert r == r[..j] + [r[j]] + r[j + 1..];
        assert x in r[..j];
        assert multiset(r)[x] >= 2;
        DistinctCountsOne(s, x);
      }
    }
  }
}
