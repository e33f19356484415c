// `get_k_best_unique_derivation`: walks the scored derivations of a sentence
// best first and keeps a derivation only when the node set of its final item
// (the item under the START slot), written as the nodes ordered by their
// number and joined by spaces, has not been kept before; it stops once `k`
// derivations are kept.  The function exists in two identical copies, one
// per pipeline.
module KBest {
  import opened Wrappers
  import opened Seqs
  import opened Strings
  import opened Sorting
  import opened Items
  import opened Parsing
  import opened Cky
  import opened Derivations

  datatype KBestError =
    | NoStartChild  // `derivation[1]["START"]` of something with no START child
    | NotAnItem     // `[0]` of a START child that is not a (head item, children) pair
    | BadNodeId     // `int(node[1:])` of a node id that is no number after its first character

  // ---------------------------------------------------------------------------
  // The signature of a derivation

  /** `children[slot]`: the subtree in the first child slot named `s`. */
  function SlotChild(kids: seq<(Slot, Tree)>, s: Slot): (r: Option<Tree>)
    ensures r.Some? ==> (s, r.value) in kids
    ensures r.None? ==> forall j :: 0 <= j < |kids| ==> kids[j].0 != s
  {
    if kids == [] then None
    else if kids[0].0 == s then Some(kids[0].1)
    else
      assert forall j :: 1 <= j < |kids| ==> kids[j] == kids[1..][j - 1];
      SlotChild(kids[1..], s)
  }

  /** `derivation[1]["START"][0]`: the head item of the START child of a START derivation. */
  function FinalItem(t: Tree): (r: Result<Item, KBestError>)
    ensures r.Ok? ==> t.Node? && exists j :: 0 <= j < |t.kids| && t.kids[j].0 == StartSlot &&
                                    t.kids[j].1.Node? && t.kids[j].1.head == ItemKey(r.value)
    ensures t.Node? && (forall j :: 0 <= j < |t.kids| ==> t.kids[j].0 != StartSlot) ==> r == Err(NoStartChild)
  {
    if t.Leaf? then Err(NoStartChild)
    else
      match SlotChild(t.kids, StartSlot)
      case None => Err(NoStartChild)
      case Some(c) => if c.Node? && c.head.ItemKey? then Ok(c.head.item) else Err(NotAnItem)
  }

  /** `int(node[1:])`: the number after a node id's first character. */
  function NodeNumber(n: string): Result<int, KBestError>
  {
    if |n| == 0 then Err(BadNodeId)
    else
      match ParseInt(n[1..])
      case None => Err(BadNodeId)
      case Some(v) => Ok(v)
  }

  /** The sort key, read as zero for an id with no number (never used then). */
  function Number(n: string): int
  {
    match NodeNumber(n)
    case Ok(v) => v
    case Err(_) => 0
  }

  /**
   * `sorted(list(nodeset), key=lambda node: int(node[1:]))`: every node once,
   * ordered by number; it fails when some node has no number.
   */
  function SortedNodes(s: set<string>): Result<seq<string>, KBestError>
  {
    if exists n :: n in s && NodeNumber(n).Err? then Err(BadNodeId)
    else Ok(SortBy(SortedSet(s), ByKey(Number)))
  }

  /**
   * The node list holds every node of the set, each once, ordered by number;
   * it fails exactly when some node has no number.
   */
  lemma SortedNodesMeaning(s: set<string>)
    ensures SortedNodes(s).Ok? <==> forall n :: n in s ==> NodeNumber(n).Ok?
    ensures SortedNodes(s).Ok? ==>
      var l := SortedNodes(s).value;
      Elems(l) == s && |l| == |s| &&
      forall i, j :: 0 <= i < j < |l| ==> Number(l[i]) <= Number(l[j])
  {
    if SortedNodes(s).Ok? {
      var l := SortedSet(s);
      SortByKeyOrdered(l, Number);
      ElemsCount(l);
    }
  }

  /** `" ".join(nodes)`. */
  function NodesKey(s: set<string>): Result<string, KBestError>
  {
    match SortedNodes(s)
    case Err(e) => Err(e)
    case Ok(l) => Ok(Join(" ", l))
  }

  /** The string a derivation is told apart by. */
  function Signature(t: Tree): Result<string, KBestError>
  {
    match FinalItem(t)
    case Err(e) => Err(e)
    case Ok(i) => NodesKey(i.nodeset)
  }

  function Key(e: Scored): Result<string, KBestError>
  {
    Signature(e.1)
  }

  /**
   * As long as no node id holds a space, two final items get the same
   * signature exactly when they cover the same nodes.
   */
  lemma NodesKeyInjective(a: set<string>, b: set<string>)
    requires NodesKey(a).Ok? && NodesKey(b).Ok?
    requires forall n :: (n in a || n in b) ==> ' ' !in n
    ensures NodesKey(a) == NodesKey(b) <==> a == b
  {
    SortedNodesMeaning(a);
    SortedNodesMeaning(b);
    var la := SortedNodes(a).value;
    var lb := SortedNodes(b).value;
    forall i | 0 <= i < |la| ensures ' ' !in la[i] && la[i] != [] {
      assert la[i] in Elems(la);
      NonEmptyId(la[i]);
    }
    forall i | 0 <= i < |lb| ensures ' ' !in lb[i] && lb[i] != [] {
      assert lb[i] in Elems(lb);
      NonEmptyId(lb[i]);
    }
    JoinInjective(la, lb, ' ');
  }

  lemma NonEmptyId(n: string)
    requires NodeNumber(n).Ok?
    ensures n != []
  {
  }

  // ---------------------------------------------------------------------------
  // The loop as written, for any signature function

  /**
   * The number of elements the loop looks at before it stops: the first
   * point at which `k` distinct signatures are kept, or all of them.
   */
  function Examined<T(==), K(==)>(s: seq<T>, key: T -> K, k: int, n: nat): (r: nat)
    requires n <= |s|
    ensures n <= r <= |s|
    ensures n < |s| ==> n < r
    decreases |s| - n
  {
    if n == |s| then n
    else if |KeepFirst(s[..n + 1], key)| >= k then n + 1
    else Examined(s, key, k, n + 1)
  }

  /** The loop stops at the first point where `k` are kept, and only there or at the end. */
  lemma {:induction false} ExaminedStops<T, K>(s: seq<T>, key: T -> K, k: int, n: nat)
    requires n <= |s|
    ensures forall m :: n < m < Examined(s, key, k, n) ==> |KeepFirst(s[..m], key)| < k
    ensures Examined(s, key, k, n) == |s| || |KeepFirst(s[..Examined(s, key, k, n)], key)| >= k
    decreases |s| - n
  {
    if n < |s| && |KeepFirst(s[..n + 1], key)| < k {
      ExaminedStops(s, key, k, n + 1);
    }
  }

  /** The error of the first element without a signature. */
  function FirstError<T, K, E>(s: seq<T>, key: T -> Result<K, E>): (r: Option<E>)
    ensures r.None? <==> forall j :: 0 <= j < |s| ==> key(s[j]).Ok?
  {
    if s == [] then None
    else if key(s[0]).Err? then Some(key(s[0]).error)
    else
      assert forall j :: 1 <= j < |s| ==> s[j] == s[1..][j - 1];
      FirstError(s[1..], key)
  }

  lemma {:induction false} FirstErrorAt<T, K, E>(s: seq<T>, key: T -> Result<K, E>, i: nat)
    requires i < |s| && key(s[i]).Err?
    requires forall j :: 0 <= j < i ==> key(s[j]).Ok?
    ensures FirstError(s, key) == Some(key(s[i]).error)
  {
    if i > 0 {
      assert forall j :: 0 <= j < i - 1 ==> s[1..][j] == s[j + 1];
      FirstErrorAt(s[1..], key, i - 1);
    }
  }

  /** What the loop returns for the signature function `key`, or the error it raises. */
  function Unique<T(==), K(==), E(==)>(s: seq<T>, k: int, key: T -> Result<K, E>): Result<seq<T>, E>
  {
    var n := Examined(s, key, k, 0);
    match FirstError(s[..n], key)
    case Some(e) => Err(e)
    case None => Ok(KeepFirst(s[..n], key))
  }

  /** The loop fails exactly when an element it reaches has no signature. */
  lemma UniqueFails<T, K, E>(s: seq<T>, k: int, key: T -> Result<K, E>)
    ensures Unique(s, k, key).Ok? <==> forall j :: 0 <= j < Examined(s, key, k, 0) ==> key(s[j]).Ok?
  {
    var n := Examined(s, key, k, 0);
    assert forall j :: 0 <= j < n ==> s[..n][j] == s[j];
  }

  /**
   * The kept elements are an order-preserving subsequence of the input with
   * pairwise distinct signatures, and an element the loop reaches is dropped
   * only for an earlier kept one with its signature.
   */
  lemma UniqueKept<T, K, E>(s: seq<T>, k: int, key: T -> Result<K, E>)
    ensures Unique(s, k, key).Ok? ==>
      var r := Unique(s, k, key).value;
      IsSubseq(r, s) && KeysDistinct(r, key) && Represented(s, Examined(s, key, k, 0), key, r)
  {
    var n := Examined(s, key, k, 0);
    if Unique(s, k, key).Ok? {
      UniqueValue(s, k, key);
      KeepFirstPrefix(s, n, key);
    }
  }

  lemma UniqueValue<T, K, E>(s: seq<T>, k: int, key: T -> Result<K, E>)
    requires Unique(s, k, key).Ok?
    ensures Unique(s, k, key).value == KeepFirst(s[..Examined(s, key, k, 0)], key)
  {
  }

  /**
   * The loop stops as soon as `k` are kept, and keeps fewer only when the
   * input holds no more distinct signatures.
   */
  lemma UniqueStops<T, K, E>(s: seq<T>, k: int, key: T -> Result<K, E>)
    ensures Unique(s, k, key).Ok? ==>
      var r := Unique(s, k, key).value;
      (Examined(s, key, k, 0) < |s| ==> |r| >= k) &&
      (|r| < k ==> r == KeepFirst(s, key))
  {
    var n := Examined(s, key, k, 0);
    ExaminedStops(s, key, k, 0);
    if n == |s| {
      assert s[..n] == s;
    }
  }

  function Max(a: int, b: int): int
  {
    if a < b then b else a
  }

  /** The loop keeps at most `k` elements, and at most one when `k` is not positive. */
  lemma UniqueBound<T, K, E>(s: seq<T>, k: int, key: T -> Result<K, E>)
    ensures Unique(s, k, key).Ok? ==> |Unique(s, k, key).value| <= Max(k, 1)
    ensures s == [] ==> Unique(s, k, key) == Ok([])
  {
    var n := Examined(s, key, k, 0);
    ExaminedStops(s, key, k, 0);
    if n >= 1 {
      KeepFirstStep(s, n - 1, key);
      if n >= 2 {
        assert |KeepFirst(s[..n - 1], key)| < k;
      } else {
        assert s[..0] == [];
      }
    }
  }

  /** Kept elements of an input sorted by `le` are sorted by `le`: the best-first order survives. */
  lemma UniqueSorted<T, K, E>(s: seq<T>, k: int, key: T -> Result<K, E>, le: (T, T) -> bool)
    requires SortedBy(s, le)
    ensures Unique(s, k, key).Ok? ==> SortedBy(Unique(s, k, key).value, le)
  {
    UniqueKept(s, k, key);
    if Unique(s, k, key).Ok? {
      SubseqSorted(Unique(s, k, key).value, s, le);
    }
  }

  /**
   * The bound is checked only after an element is looked at, so with `k` zero
   * or below the loop still keeps the first element.
   */
  lemma NonPositiveKeepsOne<T, K, E>(s: seq<T>, k: int, key: T -> Result<K, E>)
    requires k <= 0 && s != [] && key(s[0]).Ok?
    ensures Unique(s, k, key) == Ok([s[0]])
  {
    assert s[..1] == [s[0]] && s[..0] == [];
    assert KeysOf(s[..0], key) == {};
    KeepFirstStep(s, 0, key);
    assert KeepFirst(s[..1], key) == [s[0]];
    assert Examined(s, key, k, 0) == 1;
    assert FirstError(s[..1], key) == None;
  }

  lemma UniqueAtError<T, K, E>(s: seq<T>, k: int, key: T -> Result<K, E>, i: nat)
    requires i < |s| && key(s[i]).Err? && forall j :: 0 <= j < i ==> key(s[j]).Ok?
    requires Examined(s, key, k, 0) == Examined(s, key, k, i)
    ensures Unique(s, k, key) == Err(key(s[i]).error)
  {
    var n := Examined(s, key, k, 0);
    assert forall j :: 0 <= j <= i ==> s[..n][j] == s[j];
    FirstErrorAt(s[..n], key, i);
  }

  lemma UniqueAtStop<T, K, E>(s: seq<T>, k: int, key: T -> Result<K, E>, i: nat)
    requires i <= |s| && Examined(s, key, k, 0) == i && forall j :: 0 <= j < i ==> key(s[j]).Ok?
    ensures Unique(s, k, key) == Ok(KeepFirst(s[..i], key))
  {
    assert forall j :: 0 <= j < i ==> s[..i][j] == s[j];
  }

  lemma ExaminedNext<T, K>(s: seq<T>, key: T -> K, k: int, i: nat)
    requires i < |s|
    ensures |KeepFirst(s[..i + 1], key)| >= k ==> Examined(s, key, k, i) == i + 1
    ensures |KeepFirst(s[..i + 1], key)| < k ==> Examined(s, key, k, i) == Examined(s, key, k, i + 1)
  {
  }

  /** The loop's state after the first `i` elements, all with a signature. */
  ghost predicate Scanned<T, K, E>(s: seq<T>, key: T -> Result<K, E>, i: nat, kept: seq<T>, seen: set<K>)
  {
    i <= |s| && (forall j :: 0 <= j < i ==> key(s[j]).Ok?) &&
    kept == KeepFirst(s[..i], key) && seen == Seen(s[..i], key)
  }

  lemma ScanStep<T, K, E>(s: seq<T>, key: T -> Result<K, E>, i: nat, kept: seq<T>, seen: set<K>)
    requires Scanned(s, key, i, kept, seen) && i < |s| && key(s[i]).Ok?
    ensures var x := key(s[i]).value;
      Scanned(s, key, i + 1, if x in seen then kept else kept + [s[i]], seen + {x})
  {
    SeenStep(s, key, i, key(s[i]).value);
  }

  /** Where the loop stops, one element further on. */
  lemma ExaminedAfter<T, K>(s: seq<T>, key: T -> K, k: int, i: nat)
    requires i < |s|
    ensures Examined(s, key, k, 0) == Examined(s, key, k, i) ==>
      (|KeepFirst(s[..i + 1], key)| >= k ==> Examined(s, key, k, 0) == i + 1) &&
      (|KeepFirst(s[..i + 1], key)| < k ==> Examined(s, key, k, 0) == Examined(s, key, k, i + 1))
  {
    ExaminedNext(s, key, k, i);
  }

  /** The signature strings of the first elements (the `seen` set of the loop). */
  ghost function Seen<T, K, E>(s: seq<T>, key: T -> Result<K, E>): set<K>
  {
    set r | r in KeysOf(s, key) && r.Ok? :: r.value
  }

  /** One element of the loop: its signature is new exactly when it is not among those seen. */
  lemma SeenStep<T, K, E>(s: seq<T>, key: T -> Result<K, E>, i: nat, x: K)
    requires i < |s| && key(s[i]) == Ok(x)
    ensures x in Seen(s[..i], key) <==> key(s[i]) in KeysOf(s[..i], key)
    ensures Seen(s[..i + 1], key) == Seen(s[..i], key) + {x}
    ensures KeepFirst(s[..i + 1], key) ==
      if x in Seen(s[..i], key) then KeepFirst(s[..i], key) else KeepFirst(s[..i], key) + [s[i]]
  {
    KeepFirstStep(s, i, key);
  }

  /** As many signatures seen as elements kept: the assertion after the loop holds. */
  lemma {:induction false} SeenCount<T, K, E>(s: seq<T>, key: T -> Result<K, E>, i: nat)
    requires i <= |s| && forall j :: 0 <= j < i ==> key(s[j]).Ok?
    ensures |Seen(s[..i], key)| == |KeepFirst(s[..i], key)|
  {
    if i == 0 {
      assert s[..0] == [];
      assert Seen(s[..0], key) == {};
    } else {
      SeenCount(s, key, i - 1);
      SeenStep(s, key, i - 1, key(s[i - 1]).value);
    }
  }

  /**
   * The loop of `get_k_best_unique_derivation`, for the signature function
   * `key`.  The source's own assertion (as many signatures seen as elements
   * kept) holds at its place.
   */
  method KeepUnique<T(==), K(==), E(==)>(s: seq<T>, k: int, key: T -> Result<K, E>) returns (r: Result<seq<T>, E>)
    ensures r == Unique(s, k, key)
  {
    var seen: set<K> := {};
    var kept: seq<T> := [];
    var i := 0;
    assert s[..0] == [];
    var full := false;
    while i < |s| && !full
      invariant 0 <= i <= |s|
      invariant forall j :: 0 <= j < i ==> key(s[j]).Ok?
      invariant kept == KeepFirst(s[..i], key)
      invariant seen == Seen(s[..i], key)
      invariant full ==> Examined(s, key, k, 0) == i
      invariant !full ==> Examined(s, key, k, 0) == Examined(s, key, k, i) && (i == 0 || |kept| < k)
    {
      var sig := key(s[i]);
      if sig.Err? {
        UniqueAtError(s, k, key, i);
        return Err(sig.error);
      }
      SeenStep(s, key, i, sig.value);
      if sig.value !in seen {
        seen := seen + {sig.value};
        kept := kept + [s[i]];
      }
      ExaminedNext(s, key, k, i);
      i := i + 1;
      full := |kept| >= k;
    }
    assert Examined(s, key, k, 0) == i;
    SeenCount(s, key, i);
    assert |kept| == |seen|;
    UniqueAtStop(s, k, key, i);
    return Ok(kept);
  }

  /** `get_k_best_unique_derivation(chart, k)`: the loop with the final-item signature. */
  method GetKBestUnique(chart: seq<Scored>, k: int) returns (r: Result<seq<Scored>, KBestError>)
    ensures r == Unique(chart, k, Key)
  {
    r := KeepUnique(chart, k, Key);
  }

  // ---------------------------------------------------------------------------
  // The loop with the bound checked first

  /** At most `k` unique elements: none at all when `k` is not positive. */
  function UniqueBounded<T(==), K(==), E(==)>(s: seq<T>, k: int, key: T -> Result<K, E>): Result<seq<T>, E>
  {
    if k <= 0 then Ok([]) else Unique(s, k, key)
  }

  /**
   * The corrected loop never keeps more than `k`, and for a positive `k` it
   * returns what the loop as written returns.
   */
  lemma UniqueBoundedMeaning<T, K, E>(s: seq<T>, k: int, key: T -> Result<K, E>)
    ensures UniqueBounded(s, k, key).Ok? ==> |UniqueBounded(s, k, key).value| <= Max(k, 0)
    ensures k > 0 ==> UniqueBounded(s, k, key) == Unique(s, k, key)
  {
    UniqueBound(s, k, key);
  }

  /** The loop with the bound checked before each element. */
  method KeepUniqueBounded<T(==), K(==), E(==)>(s: seq<T>, k: int, key: T -> Result<K, E>) returns (r: Result<seq<T>, E>)
    ensures r == UniqueBounded(s, k, key)
  {
    var seen: set<K> := {};
    var kept: seq<T> := [];
    var i := 0;
    assert s[..0] == [];
    while i < |s| && |kept| < k
      invariant Scanned(s, key, i, kept, seen)
      invariant k > 0 && |kept| < k ==> Examined(s, key, k, 0) == Examined(s, key, k, i)
      invariant k > 0 && |kept| >= k ==> Examined(s, key, k, 0) == i
      invariant k <= 0 ==> i == 0
    {
      var sig := key(s[i]);
      if sig.Err? {
        UniqueAtError(s, k, key, i);
        return Err(sig.error);
      }
      ScanStep(s, key, i, kept, seen);
      if sig.value !in seen {
        seen := seen + {sig.value};
        kept := kept + [s[i]];
      }
      ExaminedAfter(s, key, k, i);
      i := i + 1;
    }
    if k > 0 {
      assert Examined(s, key, k, 0) == i;
      UniqueAtStop(s, k, key, i);
    } else {
      assert kept == [];
    }
    return Ok(kept);
  }

  /** `get_k_best_unique_derivation` with the bound checked before each derivation. */
  method GetKBestUniqueBounded(chart: seq<Scored>, k: int) returns (r: Result<seq<Scored>, KBestError>)
    ensures r == UniqueBounded(chart, k, Key)
  {
    r := KeepUniqueBounded(chart, k, Key);
  }
}
