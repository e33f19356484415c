// Python's `sorted(xs, key=...)` and `list.sort(key=...)`: a stable sort.  It
// is modelled as an insertion sort by a "key of a is at most key of b"
// relation `le`: the result is ordered by `le`, is a permutation of the
// input, and keeps elements with equivalent keys in their input order.
module Sorting {
  import opened Seqs

  ghost predicate TotalPreorder<T(!new)>(le: (T, T) -> bool)
  {
    (forall a, b :: le(a, b) || le(b, a)) &&
    (forall a, b, c :: le(a, b) && le(b, c) ==> le(a, c))
  }

  predicate SortedBy<T>(s: seq<T>, le: (T, T) -> bool)
  {
    forall i, j :: 0 <= i < j < |s| ==> le(s[i], s[j])
  }

  /** Inserts `x` in front of the first element whose key is not smaller. */
  function Insert<T>(x: T, s: seq<T>, le: (T, T) -> bool): (r: seq<T>)
    ensures multiset(r) == multiset(s) + multiset{x}
    ensures |r| == |s| + 1
  {
    if s == [] then [x]
    else if le(x, s[0]) then [x] + s
    else
      assert s == [s[0]] + s[1..];
      [s[0]] + Insert(x, s[1..], le)
  }

  function SortBy<T>(s: seq<T>, le: (T, T) -> bool): (r: seq<T>)
    ensures multiset(r) == multiset(s)
    ensures |r| == |s|
  {
    if s == [] then []
    else
      assert s == [s[0]] + s[1..];
      Insert(s[0], SortBy(s[1..], le), le)
  }

  lemma {:induction false} InsertSorted<T(!new)>(x: T, s: seq<T>, le: (T, T) -> bool)
    requires TotalPreorder(le) && SortedBy(s, le)
    ensures SortedBy(Insert(x, s, le), le)
  {
    if s != [] && !le(x, s[0]) {
      InsertSorted(x, s[1..], le);
      var r := Insert(x, s, le);
      var t := Insert(x, s[1..], le);
      assert r == [s[0]] + t;
      forall j | 0 < j < |r| ensures le(r[0], r[j]) {
        assert r[j] in multiset(t);
        assert r[j] in multiset(s[1..]) + multiset{x};
        if r[j] == x {
          assert le(s[0], x);
        } else {
          assert r[j] in s[1..];
          var k :| 0 <= k < |s[1..]| && s[1..][k] == r[j];
          assert s[k + 1] == r[j];
        }
      }
    }
  }

  /** `sorted` returns its input ordered by the key. */
  lemma {:induction false} SortBySorted<T(!new)>(s: seq<T>, le: (T, T) -> bool)
    requires TotalPreorder(le)
    ensures SortedBy(SortBy(s, le), le)
  {
    if s != [] {
      SortBySorted(s[1..], le);
      InsertSorted(s[0], SortBy(s[1..], le), le);
    }
  }

  ghost predicate Equivalent<T>(le: (T, T) -> bool, a: T, b: T)
  {
    le(a, b) && le(b, a)
  }

  /** The elements of `s` whose key is equivalent to the key of `z`, in order. */
  ghost function KeyClass<T>(s: seq<T>, le: (T, T) -> bool, z: T): seq<T>
  {
    if s == [] then []
    else (if Equivalent(le, s[0], z) then [s[0]] else []) + KeyClass(s[1..], le, z)
  }

  /** Anything `x` is not at most is not equivalent to `z`, when `x` is. */
  ghost predicate Separates<T(!new)>(le: (T, T) -> bool, x: T, z: T)
  {
    Equivalent(le, x, z) ==> forall y :: !le(x, y) ==> !Equivalent(le, y, z)
  }

  lemma PreorderSeparates<T(!new)>(le: (T, T) -> bool, x: T, z: T)
    requires TotalPreorder(le)
    ensures Separates(le, x, z)
  {
  }

  lemma {:induction false} InsertKeyClass<T(!new)>(x: T, s: seq<T>, le: (T, T) -> bool, z: T)
    requires Separates(le, x, z)
    ensures KeyClass(Insert(x, s, le), le, z) ==
            (if Equivalent(le, x, z) then [x] else []) + KeyClass(s, le, z)
  {
    if s == [] {
      KeyClassCons(x, [], le, z);
      assert [x] + [] == [x];
    } else if le(x, s[0]) {
      KeyClassCons(x, s, le, z);
    } else {
      InsertKeyClass(x, s[1..], le, z);
      var t := Insert(x, s[1..], le);
      assert Insert(x, s, le) == [s[0]] + t;
      assert s == [s[0]] + s[1..];
      KeyClassCons(s[0], t, le, z);
      KeyClassCons(s[0], s[1..], le, z);
      var cx := if Equivalent(le, x, z) then [x] else [];
      var c0 := if Equivalent(le, s[0], z) then [s[0]] else [];
      assert Equivalent(le, x, z) ==> c0 == [];
      SwapFronts(c0, cx, KeyClass(s[1..], le, z));
    }
  }

  lemma KeyClassCons<T>(y: T, s: seq<T>, le: (T, T) -> bool, z: T)
    ensures KeyClass([y] + s, le, z) == (if Equivalent(le, y, z) then [y] else []) + KeyClass(s, le, z)
  {
    assert ([y] + s)[1..] == s;
  }

  lemma SwapFronts<T>(a: seq<T>, b: seq<T>, k: seq<T>)
    requires a == [] || b == []
    ensures a + (b + k) == b + (a + k)
  {
    if a == [] {
      assert [] + (b + k) == b + k == b + ([] + k);
    } else {
      assert a + ([] + k) == a + k == [] + (a + k);
    }
  }

  /** Stability: the sort keeps equal-key elements in their input order. */
  lemma {:induction false} SortByStable<T(!new)>(s: seq<T>, le: (T, T) -> bool, z: T)
    requires TotalPreorder(le)
    ensures KeyClass(SortBy(s, le), le, z) == KeyClass(s, le, z)
  {
    if s != [] {
      SortByStable(s[1..], le, z);
      PreorderSeparates(le, s[0], z);
      InsertKeyClass(s[0], SortBy(s[1..], le), le, z);
    }
  }

  /** An order-preserving subsequence of a sorted sequence is sorted. */
  lemma {:induction false} SubseqSorted<T>(sub: seq<T>, s: seq<T>, le: (T, T) -> bool)
    requires IsSubseq(sub, s) && SortedBy(s, le)
    ensures SortedBy(sub, le)
    decreases |s|
  {
    if sub != [] {
      var init := s[..|s| - 1];
      assert SortedBy(init, le);
      if sub[|sub| - 1] == s[|s| - 1] {
        var front := sub[..|sub| - 1];
        SubseqSorted(front, init, le);
        SubseqElems(front, init);
        forall i, j | 0 <= i < j < |sub|
          ensures le(sub[i], sub[j])
        {
          if j < |sub| - 1 {
            assert sub[i] == front[i] && sub[j] == front[j];
          } else {
            assert sub[i] == front[i] && front[i] in init;
            var p :| 0 <= p < |init| && init[p] == sub[i];
            assert s[p] == init[p];
          }
        }
      } else {
        SubseqSorted(sub, init, le);
      }
    }
  }

  function ByKey<T>(key: T -> int): (T, T) -> bool
  {
    (a: T, b: T) => key(a) <= key(b)
  }

  lemma ByKeyTotalPreorder<T(!new)>(key: T -> int)
    ensures TotalPreorder(ByKey(key))
  {
  }

  /** Sorting by a key keeps the elements and orders them by key. */
  lemma SortByKeyOrdered<T(!new)>(s: seq<T>, key: T -> int)
    ensures forall x :: x in SortBy(s, ByKey(key)) <==> x in s
    ensures forall i, j :: 0 <= i < j < |SortBy(s, ByKey(key))| ==>
              key(SortBy(s, ByKey(key))[i]) <= key(SortBy(s, ByKey(key))[j])
  {
    var r := SortBy(s, ByKey(key));
    ByKeyTotalPreorder(key);
    SortBySorted(s, ByKey(key));
    forall x ensures x in r <==> x in s {
      assert x in r <==> x in multiset(r);
      assert x in s <==> x in multiset(s);
    }
    forall i, j | 0 <= i < j < |r| ensures key(r[i]) <= key(r[j]) {
      assert ByKey(key)(r[i], r[j]);
    }
  }

  /**
   * Sorting a duplicate-free list by a key that is injective on it gives the
   * same elements, still without repetition, in strictly increasing key order.
   */
  lemma SortByKeyStrict<T(!new)>(s: seq<T>, key: T -> int)
    requires Distinct(s)
    requires forall a, b :: a in s && b in s && key(a) == key(b) ==> a == b
    ensures Distinct(SortBy(s, ByKey(key)))
    ensures forall x :: x in SortBy(s, ByKey(key)) <==> x in s
    ensures forall i, j :: 0 <= i < j < |SortBy(s, ByKey(key))| ==>
              key(SortBy(s, ByKey(key))[i]) < key(SortBy(s, ByKey(key))[j])
  {
    var r := SortBy(s, ByKey(key));
    ByKeyTotalPreorder(key);
    SortBySorted(s, ByKey(key));
    DistinctPermutation(s, r);
    forall x ensures x in r <==> x in s {
      assert x in r <==> x in multiset(r);
      assert x in s <==> x in multiset(s);
    }
    forall i, j | 0 <= i < j < |r| ensures key(r[i]) < key(r[j]) {
      assert ByKey(key)(r[i], r[j]);
      assert r[i] in s && r[j] in s;
    }
  }

  /** The last element after sorting by a key (what `pop()` takes) has the largest key. */
  lemma SortByKeyLastMax<T(!new)>(s: seq<T>, key: T -> int)
    requires s != []
    ensures |SortBy(s, ByKey(key))| == |s|
    ensures SortBy(s, ByKey(key))[|s| - 1] in s
    ensures forall x :: x in s ==> key(x) <= key(SortBy(s, ByKey(key))[|s| - 1])
  {
    var r := SortBy(s, ByKey(key));
    ByKeyTotalPreorder(key);
    SortBySorted(s, ByKey(key));
    assert r[|s| - 1] in multiset(r);
    forall x | x in s ensures key(x) <= key(r[|s| - 1]) {
      assert x in multiset(r);
      var i :| 0 <= i < |r| && r[i] == x;
      if i < |s| - 1 {
        assert ByKey(key)(r[i], r[|s| - 1]);
      }
    }
  }
}
