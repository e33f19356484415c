// Python's `itertools.permutations(xs)`: every ordering of the elements of
// `xs`, in lexicographic order of the positions taken from `xs` (for
// `(a, b, c)`: abc, acb, bac, bca, cab, cba).
module Itertools {
  import opened Seqs

  function RemoveAt<T>(xs: seq<T>, i: nat): (r: seq<T>)
    requires i < |xs|
    ensures |r| == |xs| - 1
    ensures multiset(r) == multiset(xs) - multiset{xs[i]}
  {
    assert xs == xs[..i] + [xs[i]] + xs[i + 1..];
    xs[..i] + xs[i + 1..]
  }

  /** Puts `x` in front of every list of `ps`. */
  function Prepend<T>(x: T, ps: seq<seq<T>>): (r: seq<seq<T>>)
    ensures |r| == |ps|
    ensures forall j :: 0 <= j < |r| ==> r[j] == [x] + ps[j]
  {
    if ps == [] then [] else [[x] + ps[0]] + Prepend(x, ps[1..])
  }

  function Permutations<T>(xs: seq<T>): seq<seq<T>>
    decreases |xs|, 1, 0
  {
    if xs == [] then [[]] else PermutationsFrom(xs, 0)
  }

  /** The orderings of `xs` that start with `xs[i]`, then `xs[i + 1]`, and so on. */
  function PermutationsFrom<T>(xs: seq<T>, i: nat): seq<seq<T>>
    requires i <= |xs|
    decreases |xs|, 0, |xs| - i
  {
    if i == |xs| then []
    else Prepend(xs[i], Permutations(RemoveAt(xs, i))) + PermutationsFrom(xs, i + 1)
  }

  function Factorial(n: nat): nat
  {
    if n == 0 then 1 else n * Factorial(n - 1)
  }

  /** There are n! orderings of n elements. */
  lemma {:induction false} PermutationsCount<T>(xs: seq<T>)
    ensures |Permutations(xs)| == Factorial(|xs|)
    decreases |xs|, 1, 0
  {
    if xs != [] {
      PermutationsFromCount(xs, 0);
      var n := |xs|;
      assert |PermutationsFrom(xs, 0)| == n * Factorial(n - 1);
      assert Factorial(n) == n * Factorial(n - 1);
    }
  }

  lemma {:induction false} PermutationsFromCount<T>(xs: seq<T>, i: nat)
    requires i <= |xs| && xs != []
    ensures |PermutationsFrom(xs, i)| == (|xs| - i) * Factorial(|xs| - 1)
    decreases |xs|, 0, |xs| - i
  {
    if i < |xs| {
      var rest := RemoveAt(xs, i);
      PermutationsCount(rest);
      PermutationsFromCount(xs, i + 1);
      var here := Prepend(xs[i], Permutations(rest));
      assert PermutationsFrom(xs, i) == here + PermutationsFrom(xs, i + 1);
      var f := Factorial(|xs| - 1);
      var a := |xs| - (i + 1);
      assert |here| == f;
      assert |PermutationsFrom(xs, i + 1)| == a * f;
      assert |PermutationsFrom(xs, i)| == f + a * f;
      MulStep(a, f);
      assert |xs| - i == a + 1;
    } else {
      assert PermutationsFrom(xs, i) == [];
    }
  }

  lemma MulStep(a: nat, f: nat)
    ensures (a + 1) * f == f + a * f
  {
  }

  /** Every list produced is an ordering of the input. */
  lemma {:induction false} PermutationsSound<T>(xs: seq<T>, p: seq<T>)
    requires p in Permutations(xs)
    ensures multiset(p) == multiset(xs)
    decreases |xs|, 1, 0
  {
    if xs != [] {
      PermutationsFromSound(xs, 0, p);
    }
  }

  lemma {:induction false} PermutationsFromSound<T>(xs: seq<T>, i: nat, p: seq<T>)
    requires i <= |xs| && p in PermutationsFrom(xs, i)
    ensures multiset(p) == multiset(xs)
    decreases |xs|, 0, |xs| - i
  {
    var here := Prepend(xs[i], Permutations(RemoveAt(xs, i)));
    if p in here {
      var j :| 0 <= j < |here| && here[j] == p;
      var q := Permutations(RemoveAt(xs, i))[j];
      assert q in Permutations(RemoveAt(xs, i));
      PermutationsSound(RemoveAt(xs, i), q);
      assert p == [xs[i]] + q;
    } else {
      PermutationsFromSound(xs, i + 1, p);
    }
  }

  lemma {:induction false} FromContains<T>(xs: seq<T>, j: nat, i: nat, q: seq<T>)
    requires j <= i < |xs| && q in Prepend(xs[i], Permutations(RemoveAt(xs, i)))
    ensures q in PermutationsFrom(xs, j)
    decreases i - j
  {
    if j < i {
      FromContains(xs, j + 1, i, q);
    }
  }

  /** Every ordering of the input is produced. */
  lemma {:induction false} PermutationsComplete<T>(xs: seq<T>, p: seq<T>)
    requires multiset(p) == multiset(xs)
    ensures p in Permutations(xs)
    decreases |xs|
  {
    if xs == [] {
      assert |p| == |multiset(p)| == 0;
    } else {
      assert |p| == |multiset(p)| == |xs|;
      assert p[0] in multiset(xs);
      var i :| 0 <= i < |xs| && xs[i] == p[0];
      var rest := RemoveAt(xs, i);
      assert p == [p[0]] + p[1..];
      assert multiset(p[1..]) == multiset(rest);
      PermutationsComplete(rest, p[1..]);
      var ps := Permutations(rest);
      var j :| 0 <= j < |ps| && ps[j] == p[1..];
      assert Prepend(xs[i], ps)[j] == p;
      FromContains(xs, 0, i, p);
    }
  }

  lemma {:induction false} PrependDistinct<T>(x: T, ps: seq<seq<T>>)
    requires Distinct(ps)
    ensures Distinct(Prepend(x, ps))
  {
    var r := Prepend(x, ps);
    forall a, b | 0 <= a < b < |r| ensures r[a] != r[b] {
      assert r[a][1..] == ps[a] && r[b][1..] == ps[b];
    }
  }

  /** Every ordering produced from `PermutationsFrom(xs, i)` starts with some `xs[j]`, `j >= i`. */
  lemma {:induction false} FromHeads<T>(xs: seq<T>, i: nat, p: seq<T>)
    requires i <= |xs| && p in PermutationsFrom(xs, i)
    ensures p != [] && exists j :: i <= j < |xs| && p[0] == xs[j]
    decreases |xs| - i
  {
    var here := Prepend(xs[i], Permutations(RemoveAt(xs, i)));
    if p in here {
      var j :| 0 <= j < |here| && here[j] == p;
      assert p[0] == xs[i];
    } else {
      FromHeads(xs, i + 1, p);
    }
  }

  /** The orderings of a list without repetitions are pairwise different. */
  lemma {:induction false} PermutationsDistinct<T>(xs: seq<T>)
    requires Distinct(xs)
    ensures Distinct(Permutations(xs))
    decreases |xs|, 1, 0
  {
    if xs != [] {
      PermutationsFromDistinct(xs, 0);
    }
  }

  lemma {:induction false} PermutationsFromDistinct<T>(xs: seq<T>, i: nat)
    requires Distinct(xs) && i <= |xs|
    ensures Distinct(PermutationsFrom(xs, i))
    decreases |xs|, 0, |xs| - i
  {
    if i < |xs| {
      var rest := RemoveAt(xs, i);
      RemoveAtDistinct(xs, i);
      PermutationsDistinct(rest);
      var here := Prepend(xs[i], Permutations(rest));
      PrependDistinct(xs[i], Permutations(rest));
      var later := PermutationsFrom(xs, i + 1);
      PermutationsFromDistinct(xs, i + 1);
      forall a, b | 0 <= a < |here| && 0 <= b < |later| ensures here[a] != later[b] {
        assert later[b] in later;
        FromHeads(xs, i + 1, later[b]);
        assert here[a][0] == xs[i];
      }
      DistinctConcat(here, later);
    }
  }

  /** Taking one element out of a list without repetitions leaves none. */
  lemma RemoveAtDistinct<T>(xs: seq<T>, i: nat)
    requires Distinct(xs) && i < |xs|
    ensures Distinct(RemoveAt(xs, i))
  {
    var rest := RemoveAt(xs, i);
    forall a, b | 0 <= a < b < |rest| ensures rest[a] != rest[b] {
      var a' := if a < i then a else a + 1;
      var b' := if b < i then b else b + 1;
      assert rest[a] == xs[a'] && rest[b] == xs[b'];
    }
  }

  lemma DistinctConcat<T>(a: seq<T>, b: seq<T>)
    requires Distinct(a) && Distinct(b)
    requires forall i, j :: 0 <= i < |a| && 0 <= j < |b| ==> a[i] != b[j]
    ensures Distinct(a + b)
  {
    var c := a + b;
    forall i, j | 0 <= i < j < |c| ensures c[i] != c[j] {
      if j < |a| {
        assert c[i] == a[i] && c[j] == a[j];
      } else if i < |a| {
        assert c[i] == a[i] && c[j] == b[j - |a|];
      } else {
        assert c[i] == b[i - |a|] && c[j] == b[j - |a|];
      }
    }
  }

  /** An ordering of a list without repetitions has the same members, each once. */
  lemma PermutationElems<T>(xs: seq<T>, p: seq<T>)
    requires Distinct(xs) && p in Permutations(xs)
    ensures Distinct(p) && Elems(p) == Elems(xs) && |p| == |xs|
  {
    PermutationsSound(xs, p);
    DistinctPermutation(xs, p);
    assert forall x :: x in p <==> x in multiset(p);
    assert forall x :: x in xs <==> x in multiset(xs);
    assert |p| == |multiset(p)| == |xs|;
  }
}
