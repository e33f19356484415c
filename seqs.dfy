// Sequence helpers shared by several modules: duplicate-free sequences, the
// first-occurrence deduplication behind Python's "keep it if not seen yet"
// loops, filtering by a set, and subsequences.
module Seqs {

  predicate Distinct<T(==)>(s: seq<T>)
  {
    forall i, j :: 0 <= i < j < |s| ==> s[i] != s[j]
  }

  function Elems<T(==)>(s: seq<T>): set<T>
  {
    set x | x in s
  }

  /** One more element keeps a sequence duplicate-free exactly when it is new. */
  lemma DistinctSnoc<T>(s: seq<T>, x: T)
    ensures Distinct(s + [x]) <==> Distinct(s) && x !in s
  {
    var t := s + [x];
    if Distinct(t) {
      assert forall i, j :: 0 <= i < j < |s| ==> s[i] == t[i] && s[j] == t[j];
      forall i | 0 <= i < |s| ensures s[i] != x {
        assert t[i] == s[i] && t[|s|] == x;
      }
    }
  }

  lemma ElemsConcat<T>(a: seq<T>, b: seq<T>)
    ensures Elems(a + b) == Elems(a) + Elems(b)
  {
    assert forall x :: x in a + b <==> x in a || x in b;
  }

  /** A sequence without repeats has as many elements as it has members. */
  lemma {:induction false} ElemsCount<T>(b: seq<T>)
    requires Distinct(b)
    ensures |Elems(b)| == |b|
  {
    if b != [] {
      var b' := b[..|b| - 1];
      ElemsCount(b');
      assert b == b' + [b[|b| - 1]];
      assert Elems(b) == Elems(b') + {b[|b| - 1]};
      assert b[|b| - 1] !in Elems(b');
    }
  }

  /** Concatenation regroups freely; calling this spares the solver a search when the parts are large terms. */
  lemma ConcatAssoc<T>(a: seq<T>, b: seq<T>, c: seq<T>)
    ensures (a + b) + c == a + (b + c)
  {
  }

  /** The elements of `s` that are not in `x`, in order. */
  function Without<T(==,!new)>(s: seq<T>, x: set<T>): (r: seq<T>)
    ensures forall y :: y in r <==> y in s && y !in x
    ensures |r| <= |s|
  {
    if s == [] then [] else (if s[0] in x then [] else [s[0]]) + Without(s[1..], x)
  }

  lemma {:induction false} WithoutAppend<T(!new)>(a: seq<T>, b: seq<T>, x: set<T>)
    ensures Without(a + b, x) == Without(a, x) + Without(b, x)
  {
    if a != [] {
      var head := if a[0] in x then [] else [a[0]];
      assert (a + b)[0] == a[0];
      assert (a + b)[1..] == a[1..] + b;
      assert Without(a + b, x) == head + Without(a[1..] + b, x);
      WithoutAppend(a[1..], b, x);
      assert Without(a, x) == head + Without(a[1..], x);
    } else {
      assert a + b == b;
    }
  }

  lemma {:induction false} WithoutWithout<T(!new)>(s: seq<T>, x: set<T>, y: set<T>)
    ensures Without(Without(s, x), y) == Without(s, x + y)
  {
    if s != [] {
      var head := if s[0] in x then [] else [s[0]];
      WithoutAppend(head, Without(s[1..], x), y);
      WithoutWithout(s[1..], x, y);
    }
  }

  lemma {:induction false} WithoutDistinct<T(!new)>(s: seq<T>, x: set<T>)
    requires Distinct(s)
    ensures Distinct(Without(s, x))
  {
    if s != [] {
      assert Distinct(s[1..]);
      WithoutDistinct(s[1..], x);
      assert s[0] !in s[1..] by {
        forall i | 0 <= i < |s[1..]| ensures s[1..][i] != s[0] {
          assert s[1..][i] == s[i + 1];
        }
      }
    }
  }

  lemma {:induction false} WithoutNothing<T(!new)>(s: seq<T>, x: set<T>)
    requires forall y :: y in s ==> y !in x
    ensures Without(s, x) == s
  {
    if s != [] {
      WithoutNothing(s[1..], x);
    }
  }

  /** The first occurrences of the elements of `s`, in order of first occurrence. */
  function Dedup<T(==,!new)>(s: seq<T>): (r: seq<T>)
    ensures Distinct(r)
    ensures forall y :: y in r <==> y in s
  {
    if s == [] then []
    else
      var init := s[..|s| - 1];
      assert forall y :: y in s <==> y in init || y == s[|s| - 1];
      if s[|s| - 1] in init then Dedup(init) else Dedup(init) + [s[|s| - 1]]
  }

  lemma DedupLength<T(!new)>(s: seq<T>)
    ensures |Dedup(s)| <= |s|
  {
    if s != [] {
      DedupLength(s[..|s| - 1]);
    }
  }

  /** Deduplicating a concatenation: the second part only contributes what the first lacks. */
  lemma {:induction false} DedupAppend<T(!new)>(a: seq<T>, b: seq<T>)
    ensures Dedup(a + b) == Dedup(a) + Dedup(Without(b, Elems(a)))
  {
    if b == [] {
      assert a + b == a;
    } else {
      var b', x := b[..|b| - 1], b[|b| - 1];
      assert b == b' + [x];
      assert a + b == (a + b') + [x];
      DedupAppend(a, b');
      DedupSnoc(a + b', x);
      WithoutAppend(b', [x], Elems(a));
      var w := Without(b', Elems(a));
      if x in Elems(a) {
        assert Without([x], Elems(a)) == [];
        assert x in a + b';
        assert Without(b, Elems(a)) == w;
      } else {
        assert Without([x], Elems(a)) == [x];
        assert Without(b, Elems(a)) == w + [x];
        assert x in a + b' <==> x in w;
        DedupSnoc(w, x);
        ConcatAssoc(Dedup(a), Dedup(w), [x]);
      }
    }
  }

  /** A sequence without repetitions is its own deduplication. */
  lemma {:induction false} DedupDistinct<T(!new)>(s: seq<T>)
    requires Distinct(s)
    ensures Dedup(s) == s
  {
    if s != [] {
      var init := s[..|s| - 1];
      assert Distinct(init);
      DedupDistinct(init);
      forall j | 0 <= j < |init| ensures init[j] != s[|s| - 1] {
        assert init[j] == s[j];
      }
      assert init + [s[|s| - 1]] == s;
    }
  }

  lemma DedupSingle<T(!new)>(x: T, r: seq<T>)
    ensures Dedup([x] + r) == [x] + Dedup(Without(r, {x}))
  {
    DedupAppend([x], r);
    assert Elems([x]) == {x};
    assert Dedup([x]) == [x] by {
      assert [x][..0] == [];
    }
  }

  lemma DedupSnoc<T(!new)>(s: seq<T>, x: T)
    ensures Dedup(s + [x]) == if x in s then Dedup(s) else Dedup(s) + [x]
  {
    assert (s + [x])[..|s + [x]| - 1] == s;
  }

  /** The elements of `s` satisfying `p`, in order. */
  function Filter<T(!new)>(s: seq<T>, p: T -> bool): (r: seq<T>)
    ensures forall x :: x in r <==> x in s && p(x)
    ensures |r| <= |s|
  {
    if s == [] then []
    else
      var init := s[..|s| - 1];
      assert forall y :: y in s <==> y in init || y == s[|s| - 1];
      Filter(init, p) + (if p(s[|s| - 1]) then [s[|s| - 1]] else [])
  }

  lemma {:induction false} FilterDistinct<T(!new)>(s: seq<T>, p: T -> bool)
    requires Distinct(s)
    ensures Distinct(Filter(s, p))
  {
    if s != [] {
      var init, x := s[..|s| - 1], s[|s| - 1];
      assert Distinct(init);
      FilterDistinct(init, p);
      forall j | 0 <= j < |init| ensures init[j] != x {
        assert init[j] == s[j];
      }
    }
  }

  lemma {:induction false} FilterSubseq<T(!new)>(s: seq<T>, p: T -> bool)
    ensures IsSubseq(Filter(s, p), s)
  {
    if s != [] {
      var init, x := s[..|s| - 1], s[|s| - 1];
      var r0 := Filter(init, p);
      FilterSubseq(init, p);
      if p(x) {
        assert Filter(s, p) == r0 + [x];
        assert (r0 + [x])[..|r0|] == r0;
      } else {
        assert Filter(s, p) == r0;
        SubseqDrop(r0, init, x);
        assert init + [x] == s;
      }
    }
  }

  /** Two sequences with the same elements and multiplicities: one repeats nothing if the other does not. */
  lemma DistinctPermutation<T>(a: seq<T>, b: seq<T>)
    requires multiset(a) == multiset(b) && Distinct(a)
    ensures Distinct(b)
  {
    forall i, j | 0 <= i < j < |b| ensures b[i] != b[j] {
      if b[i] == b[j] {
        assert b == b[..i] + [b[i]] + b[i + 1..j] + [b[j]] + b[j + 1..];
        assert multiset(b)[b[i]] >= 2;
        DistinctCount(a, b[i]);
      }
    }
  }

  lemma {:induction false} DistinctCount<T>(s: seq<T>, x: T)
    requires Distinct(s)
    ensures multiset(s)[x] <= 1
  {
    if s != [] {
      var init, y := s[..|s| - 1], s[|s| - 1];
      assert s == init + [y];
      assert Distinct(init);
      DistinctCount(init, x);
      if y == x {
        forall j | 0 <= j < |init| ensures init[j] != x {
          assert init[j] == s[j];
        }
        assert x !in multiset(init);
      }
    }
  }

  /** The position of `x` in a sequence in which it occurs. */
  function IndexIn<T(==)>(s: seq<T>, x: T): (i: nat)
    requires x in s
    ensures i < |s| && s[i] == x && x !in s[..i]
  {
    if s[0] == x then 0 else 1 + IndexIn(s[1..], x)
  }

  lemma IndexInDistinct<T>(s: seq<T>, i: nat)
    requires Distinct(s) && i < |s|
    ensures IndexIn(s, s[i]) == i
  {
  }

  lemma {:induction false} IndexInPrefix<T>(s: seq<T>, t: seq<T>, x: T)
    requires x in s
    ensures x in s + t && IndexIn(s + t, x) == IndexIn(s, x)
  {
    if s[0] != x {
      assert (s + t)[1..] == s[1..] + t;
      IndexInPrefix(s[1..], t, x);
    }
  }

  /** The index of every element of a sequence (its first occurrence). */
  function Positions<T(==)>(s: seq<T>): (m: map<T, nat>)
    ensures m.Keys == Elems(s)
  {
    map x | x in Elems(s) :: IndexIn(s, x)
  }

  /** For a duplicate-free sequence, Positions is the inverse of indexing: a bijection onto `0..|s|-1`. */
  lemma PositionsInverse<T>(s: seq<T>)
    requires Distinct(s)
    ensures forall i :: 0 <= i < |s| ==> s[i] in Positions(s) && Positions(s)[s[i]] == i
    ensures forall x :: x in Positions(s) ==> Positions(s)[x] < |s| && s[Positions(s)[x]] == x
  {
    forall i | 0 <= i < |s| ensures Positions(s)[s[i]] == i {
      IndexInDistinct(s, i);
    }
  }

  lemma PositionsSnoc<T>(s: seq<T>, x: T)
    requires x !in s
    ensures Positions(s + [x]) == Positions(s)[x := |s|]
  {
    var m, m' := Positions(s), Positions(s + [x]);
    ElemsConcat(s, [x]);
    assert Elems([x]) == {x};
    assert m'.Keys == m[x := |s|].Keys;
    forall y | y in m' ensures m'[y] == m[x := |s|][y] {
      if y == x {
        IndexInLast(s, x);
      } else {
        assert y in s;
        IndexInPrefix(s, [x], y);
      }
    }
  }

  /** A new element appended last is found last. */
  lemma IndexInLast<T>(s: seq<T>, x: T)
    requires x !in s
    ensures x in s + [x] && IndexIn(s + [x], x) == |s|
  {
    assert forall k :: 0 <= k < |s| ==> (s + [x])[k] == s[k];
  }

  /** `sub` is `s` with some elements dropped, order kept. */
  predicate IsSubseq<T(==)>(sub: seq<T>, s: seq<T>)
    decreases |s|
  {
    if sub == [] then true
    else if s == [] then false
    else if sub[|sub| - 1] == s[|s| - 1] then IsSubseq(sub[..|sub| - 1], s[..|s| - 1])
    else IsSubseq(sub, s[..|s| - 1])
  }

  lemma {:induction false} SubseqElems<T>(sub: seq<T>, s: seq<T>)
    requires IsSubseq(sub, s)
    ensures forall x :: x in sub ==> x in s
    decreases |s|
  {
    if sub != [] {
      var init := s[..|s| - 1];
      assert forall x :: x in init ==> x in s;
      if sub[|sub| - 1] == s[|s| - 1] {
        SubseqElems(sub[..|sub| - 1], init);
        assert forall x :: x in sub ==> x in sub[..|sub| - 1] || x == sub[|sub| - 1];
      } else {
        SubseqElems(sub, init);
      }
    }
  }

  function Flatten<T(==)>(ss: seq<seq<T>>): seq<T>
  {
    if ss == [] then [] else Flatten(ss[..|ss| - 1]) + ss[|ss| - 1]
  }

  lemma FlattenAppend<T>(ss: seq<seq<T>>, t: seq<T>)
    ensures Flatten(ss + [t]) == Flatten(ss) + t
  {
    assert (ss + [t])[..|ss + [t]| - 1] == ss;
  }

  lemma {:induction false} FlattenMember<T>(ss: seq<seq<T>>, x: T)
    ensures x in Flatten(ss) <==> exists j :: 0 <= j < |ss| && x in ss[j]
  {
    if ss != [] {
      var init := ss[..|ss| - 1];
      FlattenMember(init, x);
      assert Flatten(ss) == Flatten(init) + ss[|ss| - 1];
      assert forall j :: 0 <= j < |init| ==> init[j] == ss[j];
      if x in ss[|ss| - 1] {
        assert x in Flatten(ss);
      }
    }
  }

  // ---------------------------------------------------------------------------
  // keep the first element of every key (Python's `if key not in seen: keep`)

  function KeysOf<T(==), K(==)>(s: seq<T>, key: T -> K): set<K>
  {
    set x | x in s :: key(x)
  }

  /** The elements of `s` whose key did not occur earlier in `s`, in order. */
  function KeepFirst<T(==), K(==)>(s: seq<T>, key: T -> K): (r: seq<T>)
  {
    if s == [] then []
    else
      var init := s[..|s| - 1];
      if key(s[|s| - 1]) in KeysOf(init, key) then KeepFirst(init, key)
      else KeepFirst(init, key) + [s[|s| - 1]]
  }

  predicate KeysDistinct<T(==), K(==)>(s: seq<T>, key: T -> K)
  {
    forall i, j :: 0 <= i < j < |s| ==> key(s[i]) != key(s[j])
  }

  lemma KeysOfAppend<T, K>(s: seq<T>, x: T, key: T -> K)
    ensures KeysOf(s + [x], key) == KeysOf(s, key) + {key(x)}
  {
    assert forall y :: y in s + [x] <==> y in s || y == x;
  }

  lemma {:induction false} KeepFirstSubseq<T, K>(s: seq<T>, key: T -> K)
    ensures IsSubseq(KeepFirst(s, key), s)
  {
    if s != [] {
      var init, x := s[..|s| - 1], s[|s| - 1];
      assert s == init + [x];
      KeepFirstSubseq(init, key);
      var r0 := KeepFirst(init, key);
      if key(x) in KeysOf(init, key) {
        SubseqDrop(r0, init, x);
      } else {
        assert (r0 + [x])[..|r0 + [x]| - 1] == r0;
      }
    }
  }

  /** KeepFirst keeps exactly one element per key of the input. */
  lemma {:induction false} KeepFirstKeys<T, K>(s: seq<T>, key: T -> K)
    ensures KeysDistinct(KeepFirst(s, key), key)
    ensures KeysOf(KeepFirst(s, key), key) == KeysOf(s, key)
  {
    if s != [] {
      var init, x := s[..|s| - 1], s[|s| - 1];
      assert s == init + [x];
      KeepFirstKeys(init, key);
      KeysOfAppend(init, x, key);
      var r0 := KeepFirst(init, key);
      if key(x) !in KeysOf(init, key) {
        var r := r0 + [x];
        KeysOfAppend(r0, x, key);
        forall i, j | 0 <= i < j < |r| ensures key(r[i]) != key(r[j]) {
          if j == |r| - 1 {
            assert r[i] == r0[i];
            assert key(r0[i]) in KeysOf(r0, key);
          }
        }
      }
    }
  }

  /** Every kept element comes no later than any element of the input with its key. */
  lemma {:induction false} KeepFirstEarliest<T, K>(s: seq<T>, key: T -> K, i: nat, j: nat)
    requires i < |KeepFirst(s, key)| && j < |s| && key(s[j]) == key(KeepFirst(s, key)[i])
    ensures KeepFirst(s, key)[i] in s[..j + 1]
  {
    var init, x := s[..|s| - 1], s[|s| - 1];
    assert s == init + [x];
    var r0 := KeepFirst(init, key);
    var r := KeepFirst(s, key);
    KeepFirstKeys(init, key);
    if key(x) in KeysOf(init, key) {
      assert r == r0;
      if j < |init| {
        KeepFirstEarliest(init, key, i, j);
        assert init[..j + 1] == s[..j + 1];
      } else {
        var y :| y in init && key(y) == key(x);
        var k := IndexIn(init, y);
        KeepFirstEarliest(init, key, i, k);
        assert init[..k + 1] == s[..k + 1];
        assert s[..k + 1] <= s[..j + 1];
      }
    } else {
      assert r == r0 + [x];
      assert forall k :: 0 <= k < |init| ==> key(init[k]) in KeysOf(init, key);
      if i == |r| - 1 {
        assert j == |init|;
        assert s[..j + 1][j] == x;
      } else {
        assert r0[i] == r[i];
        assert key(r0[i]) in KeysOf(r0, key);
        assert j < |init|;
        KeepFirstEarliest(init, key, i, j);
        assert init[..j + 1] == s[..j + 1];
      }
    }
  }

  lemma {:induction false} SubseqDrop<T>(sub: seq<T>, s: seq<T>, x: T)
    requires IsSubseq(sub, s)
    ensures IsSubseq(sub, s + [x])
    decreases |s|, 1
  {
    if sub != [] {
      assert (s + [x])[..|s + [x]| - 1] == s;
      if sub[|sub| - 1] == x {
        SubseqTrim(sub, s);
      }
    }
  }

  lemma {:induction false} SubseqTrim<T>(sub: seq<T>, s: seq<T>)
    requires sub != [] && IsSubseq(sub, s)
    ensures IsSubseq(sub[..|sub| - 1], s)
    decreases |s|, 0
  {
    var init, last := s[..|s| - 1], s[|s| - 1];
    assert init + [last] == s;
    var sinit := sub[..|sub| - 1];
    if sub[|sub| - 1] == last {
      SubseqDrop(sinit, init, last);
    } else {
      SubseqTrim(sub, init);
      SubseqDrop(sinit, init, last);
    }
  }

  /** A subsequence of a prefix is a subsequence of the whole. */
  lemma {:induction false} SubseqExtend<T>(sub: seq<T>, s: seq<T>, n: nat)
    requires n <= |s| && IsSubseq(sub, s[..n])
    ensures IsSubseq(sub, s)
    decreases |s| - n
  {
    if n < |s| {
      SubseqDrop(sub, s[..n], s[n]);
      assert s[..n] + [s[n]] == s[..n + 1];
      SubseqExtend(sub, s, n + 1);
    } else {
      assert s[..n] == s;
    }
  }

  /** Deduplicating by key twice changes nothing the second time. */
  lemma {:induction false} KeepFirstIdempotent<T, K>(s: seq<T>, key: T -> K)
    ensures KeepFirst(KeepFirst(s, key), key) == KeepFirst(s, key)
  {
    KeepFirstKeys(s, key);
    KeepFirstOfDistinct(KeepFirst(s, key), key);
  }

  lemma {:induction false} KeepFirstOfDistinct<T, K>(s: seq<T>, key: T -> K)
    requires KeysDistinct(s, key)
    ensures KeepFirst(s, key) == s
  {
    if s != [] {
      var init, x := s[..|s| - 1], s[|s| - 1];
      assert KeysDistinct(init, key);
      KeepFirstOfDistinct(init, key);
      assert init + [x] == s;
    }
  }

  /** One step of a "keep it if its key is new" loop over `s`. */
  lemma KeepFirstStep<T, K>(s: seq<T>, i: nat, key: T -> K)
    requires i < |s|
    ensures KeysOf(s[..i + 1], key) == KeysOf(s[..i], key) + {key(s[i])}
    ensures KeepFirst(s[..i + 1], key) ==
      if key(s[i]) in KeysOf(s[..i], key) then KeepFirst(s[..i], key) else KeepFirst(s[..i], key) + [s[i]]
  {
    assert s[..i + 1] == s[..i] + [s[i]];
    assert s[..i + 1][..i] == s[..i];
    KeysOfAppend(s[..i], s[i], key);
  }

  /** Everything KeepFirst promises, in one place. */
  lemma KeepFirstFacts<T, K>(s: seq<T>, key: T -> K)
    ensures IsSubseq(KeepFirst(s, key), s)
    ensures KeysDistinct(KeepFirst(s, key), key) && KeysOf(KeepFirst(s, key), key) == KeysOf(s, key)
    ensures forall i, j :: 0 <= i < |KeepFirst(s, key)| && 0 <= j < |s| && key(s[j]) == key(KeepFirst(s, key)[i]) ==>
      KeepFirst(s, key)[i] in s[..j + 1]
    ensures KeepFirst(KeepFirst(s, key), key) == KeepFirst(s, key)
  {
    KeepFirstSubseq(s, key);
    KeepFirstKeys(s, key);
    KeepFirstIdempotent(s, key);
    forall i, j | 0 <= i < |KeepFirst(s, key)| && 0 <= j < |s| && key(s[j]) == key(KeepFirst(s, key)[i])
      ensures KeepFirst(s, key)[i] in s[..j + 1]
    {
      KeepFirstEarliest(s, key, i, j);
    }
  }

  /** Every element of the input has a kept element with its key, at or before it. */
  lemma KeepFirstCovers<T, K>(s: seq<T>, key: T -> K, j: nat)
    requires j < |s|
    ensures exists i :: 0 <= i < |KeepFirst(s, key)| && key(KeepFirst(s, key)[i]) == key(s[j]) &&
                        KeepFirst(s, key)[i] in s[..j + 1]
  {
    var r := KeepFirst(s, key);
    KeepFirstKeys(s, key);
    assert s[j] in s;
    assert key(s[j]) in KeysOf(r, key);
    var x :| x in r && key(x) == key(s[j]);
    var i :| 0 <= i < |r| && r[i] == x;
    KeepFirstEarliest(s, key, i, j);
  }

  /** Each of the first `n` elements of `s` has, in `r`, an element with its key taken from no later in `s`. */
  ghost predicate Represented<T, K>(s: seq<T>, n: nat, key: T -> K, r: seq<T>)
    requires n <= |s|
  {
    forall j :: 0 <= j < n ==> exists i :: 0 <= i < |r| && key(r[i]) == key(s[j]) && r[i] in s[..j + 1]
  }

  /** What KeepFirst promises about a prefix `s[..n]`, stated against the whole of `s`. */
  lemma KeepFirstPrefix<T, K>(s: seq<T>, n: nat, key: T -> K)
    requires n <= |s|
    ensures IsSubseq(KeepFirst(s[..n], key), s)
    ensures KeysDistinct(KeepFirst(s[..n], key), key)
    ensures Represented(s, n, key, KeepFirst(s[..n], key))
  {
    var p := s[..n];
    KeepFirstSubseq(p, key);
    KeepFirstKeys(p, key);
    SubseqExtend(KeepFirst(p, key), s, n);
    forall j | 0 <= j < n
      ensures exists i :: 0 <= i < |KeepFirst(p, key)| && key(KeepFirst(p, key)[i]) == key(s[j]) &&
                          KeepFirst(p, key)[i] in s[..j + 1]
    {
      KeepFirstCovers(p, key, j);
      assert p[j] == s[j];
      assert p[..j + 1] == s[..j + 1];
    }
  }

  /** Lists a set in some order: a Python set is iterated in an order the model does not fix. */
  method Enumerate<T>(s: set<T>) returns (r: seq<T>)
    ensures Distinct(r) && Elems(r) == s
  {
    r := [];
    var rest := s;
    while rest != {}
      invariant Distinct(r) && Elems(r) + rest == s && Elems(r) !! rest
      decreases |rest|
    {
      var x :| x in rest;
      r := r + [x];
      rest := rest - {x};
    }
  }
}
