// The derivation search over a CKY chart: the k-best search with a step
// budget (`Chart._derivations`), the first derivation (`_first_derivation`),
// the unbounded search of the bolinas copy (`Chart.derivations`), and
// `items_length`.
//
// A split maps each nonterminal slot to a child item; a child that is not a
// key of the chart is a leaf.  A derivation is a tree of chart keys whose
// every node follows one of its key's splits, and its score is the sum of
// the rule weights in it (START weighs 0.0).
module Derivations {
  import opened Wrappers
  import opened Seqs
  import opened Sorting
  import opened Items
  import opened Parsing
  import opened Cky

  /** `item` (a leaf) or `(key, {slot: subtree})`. */
  datatype Tree = Leaf(item: Item) | Node(head: ChartKey, kids: seq<(Slot, Tree)>)

  /** `(probability, tree)`. */
  type Scored = (real, Tree)

  datatype SearchError =
    | NoDerivation   // the first derivation of a START that is not in the chart is None
    | NoSplit        // `list(self[item])[0]` of a key without splits
    | EmptySplit     // `nts, children = zip(*{}.items())` has nothing to unpack
    | DepthExceeded  // the recursion went deeper than the fuel

  /** `rprob`: 0.0 for START, the rule weight of an item. */
  function HeadWeight(k: ChartKey): real
  {
    if k.ItemKey? then k.item.rule.weight else 0.0
  }

  /** `sum(ws)`, added up from the left. */
  function Total(ws: seq<real>): real
  {
    if ws == [] then 0.0 else Total(ws[..|ws| - 1]) + ws[|ws| - 1]
  }

  /** The score of a derivation: its kids' scores plus the weight of its head. */
  function Score(t: Tree): real
  {
    match t
    case Leaf(i) => i.rule.weight
    case Node(k, kids) => Total(seq(|kids|, i requires 0 <= i < |kids| => Score(kids[i].1))) + HeadWeight(k)
  }

  function MaxOf(s: seq<nat>): (m: nat)
    ensures forall i :: 0 <= i < |s| ==> s[i] <= m
  {
    if s == [] then 0
    else
      var m := MaxOf(s[..|s| - 1]);
      if s[|s| - 1] > m then s[|s| - 1] else m
  }

  /** The number of nested splits on the longest path of a derivation. */
  function Depth(t: Tree): nat
  {
    match t
    case Leaf(_) => 0
    case Node(_, kids) => 1 + MaxOf(seq(|kids|, i requires 0 <= i < |kids| => Depth(kids[i].1)))
  }

  lemma KidsShallower(t: Tree, i: nat)
    requires t.Node? && i < |t.kids|
    ensures Depth(t.kids[i].1) < Depth(t)
  {
    var ds := seq(|t.kids|, j requires 0 <= j < |t.kids| => Depth(t.kids[j].1));
    assert ds[i] == Depth(t.kids[i].1);
  }

  // ---------------------------------------------------------------------------
  // Derivations of a chart

  /** `t` derives key `k` of chart `c`. */
  ghost predicate Derives(c: CkyChart, k: ChartKey, t: Tree)
    decreases t, 1
  {
    if k !in c then k.ItemKey? && t == Leaf(k.item)
    else t.Node? && t.head == k && exists s :: s in c[k] && Fits(c, s, t)
  }

  /** The kids of `t` follow split `s`: the same slots, each kid deriving its child. */
  ghost predicate Fits(c: CkyChart, s: Split, t: Tree)
    decreases t, 0
  {
    t.Node? && |s| == |t.kids| &&
    forall i :: 0 <= i < |s| ==> t.kids[i].0 == s[i].0 && Derives(c, ItemKey(s[i].1), t.kids[i].1)
  }

  /** A scored derivation of `k` whose score is the tree's score. */
  ghost predicate Valid(c: CkyChart, k: ChartKey, e: Scored)
  {
    e.0 == Score(e.1) && Derives(c, k, e.1)
  }

  ghost predicate AllValid(c: CkyChart, k: ChartKey, s: seq<Scored>)
  {
    forall e :: e in s ==> Valid(c, k, e)
  }

  /** Every derivation of `k` no deeper than `depth` is listed in `s` with its score. */
  ghost predicate Complete(c: CkyChart, k: ChartKey, depth: nat, s: seq<Scored>)
  {
    forall t :: Derives(c, k, t) && Depth(t) <= depth ==> (Score(t), t) in s
  }

  // ---------------------------------------------------------------------------
  // Sorting and slicing the pool

  /** `key=lambda x: x[0], reverse=True`. */
  predicate AtLeast(a: Scored, b: Scored)
  {
    a.0 >= b.0
  }

  lemma AtLeastTotal()
    ensures TotalPreorder(AtLeast)
  {
  }

  /** `sorted(pool, key=lambda x: x[0], reverse=True)`: a stable sort, best score first. */
  function SortDesc(s: seq<Scored>): (r: seq<Scored>)
    ensures SortedBy(r, AtLeast)
    ensures multiset(r) == multiset(s)
    ensures forall e :: e in r <==> e in s
  {
    AtLeastTotal();
    SortBySorted(s, AtLeast);
    var r := SortBy(s, AtLeast);
    assert forall e :: e in r <==> e in multiset(r);
    r
  }

  /** Python's `s[:k]`: None keeps everything, a negative `k` drops the last `-k` elements. */
  function Take<T>(s: seq<T>, k: Option<int>): (r: seq<T>)
    ensures |r| <= |s| && r == s[..|r|]
    ensures k.None? ==> r == s
    ensures k.Some? && 0 <= k.value ==> |r| == if k.value < |s| then k.value else |s|
    ensures k.Some? && k.value < 0 ==> |r| == if |s| + k.value > 0 then |s| + k.value else 0
  {
    if k.None? then s
    else if 0 <= k.value then (if k.value < |s| then s[..k.value] else s)
    else if |s| + k.value > 0 then s[..|s| + k.value] else []
  }

  lemma TakeSorted(s: seq<Scored>, k: Option<int>)
    requires SortedBy(s, AtLeast)
    ensures SortedBy(Take(s, k), AtLeast)
    ensures forall e :: e in Take(s, k) ==> e in s
  {
    var r := Take(s, k);
    forall i, j | 0 <= i < j < |r|
      ensures AtLeast(r[i], r[j])
    {
      assert r[i] == s[i] && r[j] == s[j];
    }
  }

  // ---------------------------------------------------------------------------
  // `itertools.product` and building a node from one combination

  function Prefix(x: Scored, ps: seq<seq<Scored>>): (r: seq<seq<Scored>>)
    ensures forall q :: q in r <==> |q| > 0 && q[0] == x && q[1..] in ps
    ensures |r| == |ps|
  {
    var r := seq(|ps|, j requires 0 <= j < |ps| => [x] + ps[j]);
    forall q
      ensures q in r <==> |q| > 0 && q[0] == x && q[1..] in ps
    {
      if q in r {
        var j :| 0 <= j < |ps| && r[j] == q;
        assert q[1..] == ps[j];
      }
      if |q| > 0 && q[0] == x && q[1..] in ps {
        var j :| 0 <= j < |ps| && ps[j] == q[1..];
        assert r[j] == q;
      }
    }
    r
  }

  function Spread(xs: seq<Scored>, ps: seq<seq<Scored>>): (r: seq<seq<Scored>>)
    ensures forall q :: q in r <==> |q| > 0 && q[0] in xs && q[1..] in ps
  {
    if xs == [] then []
    else
      var r := Prefix(xs[0], ps) + Spread(xs[1..], ps);
      assert forall y :: y in xs <==> y == xs[0] || y in xs[1..];
      r
  }

  /** `itertools.product(*ls)`: every way of choosing one element of each list, the last list varying fastest. */
  function Product(ls: seq<seq<Scored>>): (r: seq<seq<Scored>>)
    ensures forall q :: q in r <==> |q| == |ls| && forall i :: 0 <= i < |ls| ==> q[i] in ls[i]
  {
    if ls == [] then [[]]
    else
      var rest := Product(ls[1..]);
      var r := Spread(ls[0], rest);
      forall q
        ensures q in r <==> |q| == |ls| && forall i :: 0 <= i < |ls| ==> q[i] in ls[i]
      {
        ChoiceCons(q, ls);
      }
      r
  }

  /** A choice of one element per list is a choice from the first list followed by a choice from the rest. */
  lemma ChoiceCons<T>(q: seq<T>, ls: seq<seq<T>>)
    requires ls != []
    ensures (|q| == |ls| && forall i :: 0 <= i < |ls| ==> q[i] in ls[i]) <==>
            (|q| > 0 && q[0] in ls[0] && |q[1..]| == |ls[1..]| && forall i :: 0 <= i < |ls[1..]| ==> q[1..][i] in ls[1..][i])
  {
    if |q| == |ls| && (forall i :: 0 <= i < |ls| ==> q[i] in ls[i]) {
      assert forall i :: 0 <= i < |ls| - 1 ==> q[1..][i] == q[i + 1] && ls[1..][i] == ls[i + 1];
    }
    if |q| > 0 && q[0] in ls[0] && |q[1..]| == |ls[1..]| && forall i :: 0 <= i < |ls[1..]| ==> q[1..][i] in ls[1..][i] {
      forall i | 0 <= i < |ls|
        ensures q[i] in ls[i]
      {
        if i > 0 {
          assert q[1..][i - 1] == q[i] && ls[1..][i - 1] == ls[i];
        }
      }
    }
  }

  /** `dict(zip(nts, trees))`. */
  function Slots(s: Split, p: seq<Scored>): seq<(Slot, Tree)>
    requires |p| == |s|
  {
    seq(|s|, i requires 0 <= i < |s| => (s[i].0, p[i].1))
  }

  function Weights(p: seq<Scored>): seq<real>
  {
    seq(|p|, i requires 0 <= i < |p| => p[i].0)
  }

  /** `(sum(weights) + rprob, (item, dict(zip(nts, trees))))` for one combination `p` of split `s`. */
  function Joined(k: ChartKey, s: Split, p: seq<Scored>): Scored
    requires |p| == |s|
  {
    (Total(Weights(p)) + HeadWeight(k), Node(k, Slots(s, p)))
  }

  /** A combination of valid child derivations makes a valid derivation of the key. */
  lemma JoinedValid(c: CkyChart, k: ChartKey, s: Split, ls: seq<seq<Scored>>, p: seq<Scored>)
    requires k in c && s in c[k] && |ls| == |s| && |p| == |s|
    requires forall i :: 0 <= i < |s| ==> p[i] in ls[i] && AllValid(c, ItemKey(s[i].1), ls[i])
    ensures Valid(c, k, Joined(k, s, p))
  {
    var t := Node(k, Slots(s, p));
    assert seq(|t.kids|, i requires 0 <= i < |t.kids| => Score(t.kids[i].1)) == Weights(p);
    assert Fits(c, s, t);
  }

  /** Every derivation through split `s` is the node built from the combination of its kids. */
  lemma JoinedOf(c: CkyChart, k: ChartKey, s: Split, t: Tree) returns (p: seq<Scored>)
    requires t.Node? && t.head == k && Fits(c, s, t)
    ensures |p| == |s| && Joined(k, s, p) == (Score(t), t)
    ensures forall i :: 0 <= i < |s| ==> p[i] == (Score(t.kids[i].1), t.kids[i].1)
  {
    p := seq(|s|, i requires 0 <= i < |s| => (Score(t.kids[i].1), t.kids[i].1));
    assert Slots(s, p) == t.kids;
    assert Weights(p) == seq(|t.kids|, i requires 0 <= i < |t.kids| => Score(t.kids[i].1));
  }

  // ---------------------------------------------------------------------------
  // The unbounded search of the bolinas copy

  /**
   * `Chart.derivations(item)`: every combination of the children's
   * derivations of every split, best score first.  The fuel bounds the
   * recursion depth.
   */
  method AllDerivations(c: CkyChart, k: ChartKey, fuel: nat) returns (r: Result<seq<Scored>, SearchError>)
    ensures k !in c ==> r == Ok(if k.StartKey? then [] else [(HeadWeight(k), Leaf(k.item))])
    ensures r.Ok? ==> AllValid(c, k, r.value) && SortedBy(r.value, AtLeast)
    ensures r.Ok? ==> Complete(c, k, fuel, r.value)
    decreases fuel, 1
  {
    if k !in c {
      return Ok(if k.StartKey? then [] else [(HeadWeight(k), Leaf(k.item))]);
    }
    if fuel == 0 {
      return Err(DepthExceeded);
    }
    var splits := c[k];
    var pool: seq<Scored> := [];
    for i := 0 to |splits|
      invariant AllValid(c, k, pool)
      invariant forall j :: 0 <= j < i ==> SplitComplete(c, k, splits[j], fuel - 1, pool)
    {
      var res := SplitAll(c, k, splits[i], fuel - 1);
      if res.Err? {
        return Err(res.error);
      }
      pool := pool + res.value;
    }
    PoolComplete(c, k, fuel, pool);
    return Ok(SortDesc(pool));
  }

  /** Every derivation of `k` through split `s` with kids no deeper than `depth` is in `pool`. */
  ghost predicate SplitComplete(c: CkyChart, k: ChartKey, s: Split, depth: nat, pool: seq<Scored>)
  {
    forall t: Tree :: t.Node? && t.head == k && Fits(c, s, t) && Depth(t) <= depth + 1 ==> (Score(t), t) in pool
  }

  lemma PoolComplete(c: CkyChart, k: ChartKey, fuel: nat, pool: seq<Scored>)
    requires k in c && fuel > 0
    requires forall j :: 0 <= j < |c[k]| ==> SplitComplete(c, k, c[k][j], fuel - 1, pool)
    ensures Complete(c, k, fuel, pool)
  {
    forall t | Derives(c, k, t) && Depth(t) <= fuel
      ensures (Score(t), t) in pool
    {
      var s :| s in c[k] && Fits(c, s, t);
      var j :| 0 <= j < |c[k]| && c[k][j] == s;
      assert SplitComplete(c, k, c[k][j], fuel - 1, pool);
    }
  }

  /** The child lists are valid derivations of the children of split `s`. */
  ghost predicate ChildrenValid(c: CkyChart, s: Split, lists: seq<seq<Scored>>)
  {
    |lists| == |s| && forall j :: 0 <= j < |s| ==> AllValid(c, ItemKey(s[j].1), lists[j])
  }

  /** The child lists hold every derivation of their child no deeper than `depth`. */
  ghost predicate ChildrenComplete(c: CkyChart, s: Split, depth: nat, lists: seq<seq<Scored>>)
  {
    |lists| == |s| && forall j :: 0 <= j < |s| ==> Complete(c, ItemKey(s[j].1), depth, lists[j])
  }

  /** One split of the bolinas search: every combination, in `itertools.product` order. */
  method SplitAll(c: CkyChart, k: ChartKey, s: Split, fuel: nat) returns (r: Result<seq<Scored>, SearchError>)
    requires k in c && s in c[k]
    ensures s == [] ==> r == Err(EmptySplit)
    ensures r.Ok? ==> AllValid(c, k, r.value) && SplitComplete(c, k, s, fuel, r.value)
    decreases fuel, 3
  {
    if s == [] {
      return Err(EmptySplit);
    }
    var res := ChildrenAll(c, s, fuel);
    if res.Err? {
      return Err(res.error);
    }
    var pool := PoolAll(c, k, s, res.value);
    CombosComplete(c, k, s, fuel, res.value, pool);
    return Ok(pool);
  }

  /** `[self.derivations(child) for child in children]`. */
  method ChildrenAll(c: CkyChart, s: Split, fuel: nat) returns (r: Result<seq<seq<Scored>>, SearchError>)
    ensures r.Ok? ==> ChildrenValid(c, s, r.value) && ChildrenComplete(c, s, fuel, r.value)
    decreases fuel, 2
  {
    var lists: seq<seq<Scored>> := [];
    for i := 0 to |s|
      invariant |lists| == i
      invariant forall j :: 0 <= j < i ==> AllValid(c, ItemKey(s[j].1), lists[j])
      invariant forall j :: 0 <= j < i ==> Complete(c, ItemKey(s[j].1), fuel, lists[j])
    {
      var res := AllDerivations(c, ItemKey(s[i].1), fuel);
      if res.Err? {
        return Err(res.error);
      }
      lists := lists + [res.value];
    }
    return Ok(lists);
  }

  /** The node of every combination of the child lists, in `itertools.product` order. */
  method PoolAll(c: CkyChart, k: ChartKey, s: Split, lists: seq<seq<Scored>>) returns (pool: seq<Scored>)
    requires k in c && s in c[k] && ChildrenValid(c, s, lists)
    ensures AllValid(c, k, pool)
    ensures forall q :: q in Product(lists) ==> |q| == |s| && Joined(k, s, q) in pool
    ensures |pool| == |Product(lists)|
  {
    var combos := Product(lists);
    pool := [];
    for j := 0 to |combos|
      invariant |pool| == j
      invariant AllValid(c, k, pool)
      invariant Pooled(k, s, combos[..j], pool)
    {
      ComboValid(c, k, s, lists, combos, j);
      var e := Joined(k, s, combos[j]);
      AllValidSnoc(c, k, pool, e);
      PooledStep(k, s, combos, j, pool, pool + [e]);
      pool := pool + [e];
    }
    assert combos[..|combos|] == combos;
  }

  /** Every combination of `qs` has one child per slot, and its node is in `pool`. */
  ghost predicate Pooled(k: ChartKey, s: Split, qs: seq<seq<Scored>>, pool: seq<Scored>)
  {
    forall q :: q in qs ==> |q| == |s| && Joined(k, s, q) in pool
  }

  lemma PooledStep(k: ChartKey, s: Split, combos: seq<seq<Scored>>, j: nat, pool: seq<Scored>, pool': seq<Scored>)
    requires j < |combos| && |combos[j]| == |s| && Pooled(k, s, combos[..j], pool)
    requires (forall e :: e in pool ==> e in pool') && Joined(k, s, combos[j]) in pool'
    ensures Pooled(k, s, combos[..j + 1], pool')
  {
    assert combos[..j + 1] == combos[..j] + [combos[j]];
  }

  /** Each combination of valid child lists makes a valid derivation of the key. */
  lemma ComboValid(c: CkyChart, k: ChartKey, s: Split, lists: seq<seq<Scored>>, combos: seq<seq<Scored>>, j: nat)
    requires k in c && s in c[k] && ChildrenValid(c, s, lists)
    requires combos == Product(lists) && j < |combos|
    ensures |combos[j]| == |s| && Valid(c, k, Joined(k, s, combos[j]))
  {
    assert combos[j] in combos;
    JoinedValid(c, k, s, lists, combos[j]);
  }

  lemma AllValidSnoc(c: CkyChart, k: ChartKey, xs: seq<Scored>, e: Scored)
    requires AllValid(c, k, xs) && Valid(c, k, e)
    ensures AllValid(c, k, xs + [e])
  {
  }

  lemma CombosComplete(c: CkyChart, k: ChartKey, s: Split, fuel: nat, lists: seq<seq<Scored>>, pool: seq<Scored>)
    requires ChildrenComplete(c, s, fuel, lists)
    requires forall q :: q in Product(lists) ==> |q| == |s| && Joined(k, s, q) in pool
    ensures SplitComplete(c, k, s, fuel, pool)
  {
    forall t: Tree | t.Node? && t.head == k && Fits(c, s, t) && Depth(t) <= fuel + 1
      ensures (Score(t), t) in pool
    {
      var p := JoinedOf(c, k, s, t);
      forall i | 0 <= i < |s|
        ensures p[i] in lists[i]
      {
        KidsShallower(t, i);
        assert Derives(c, ItemKey(s[i].1), t.kids[i].1);
      }
      assert p in Product(lists);
    }
  }

  // ---------------------------------------------------------------------------
  // The k-best search with a step budget

  /**
   * `Chart._derivations(item, done_steps, max_steps, k_best)`.  A split is
   * searched only while the steps so far stay below `max_steps`; its
   * children are searched with the same step count, and after each
   * combination the best `k_best` combinations so far are added to the pool.
   * The result is the best `k_best` entries of the pool and the number of
   * steps taken, counting this call as one.
   */
  method KBest(c: CkyChart, k: ChartKey, done: nat, maxSteps: Option<int>, kBest: Option<int>, fuel: nat)
    returns (r: Result<(seq<Scored>, nat), SearchError>)
    ensures k !in c ==> r == Ok((if k.StartKey? then [] else [(HeadWeight(k), Leaf(k.item))], 1))
    ensures k in c && maxSteps.Some? && done >= maxSteps.value && fuel > 0 ==> r == Ok(([], 1))
    ensures r.Ok? ==> AllValid(c, k, r.value.0) && SortedBy(r.value.0, AtLeast) && r.value.1 >= 1
    ensures r.Ok? && k in c && kBest.Some? && 0 <= kBest.value ==> |r.value.0| <= kBest.value
    ensures r.Ok? && kBest.None? && maxSteps.None? ==> Complete(c, k, fuel, r.value.0)
    decreases fuel, 1
  {
    if k !in c {
      return Ok((if k.StartKey? then [] else [(HeadWeight(k), Leaf(k.item))], 1));
    }
    if fuel == 0 {
      return Err(DepthExceeded);
    }
    var splits := c[k];
    var pool: seq<Scored> := [];
    var all := done;
    for i := 0 to |splits|
      invariant AllValid(c, k, pool) && all >= done
      invariant maxSteps.Some? && done >= maxSteps.value ==> pool == [] && all == done
      invariant kBest.None? && maxSteps.None? ==>
        forall j :: 0 <= j < i ==> SplitComplete(c, k, splits[j], fuel - 1, pool)
    {
      if maxSteps.None? || all < maxSteps.value {
        var res := SplitKBest(c, k, splits[i], all, maxSteps, kBest, fuel - 1);
        if res.Err? {
          return Err(res.error);
        }
        pool := pool + res.value.0;
        all := all + res.value.1;
      }
    }
    if kBest.None? && maxSteps.None? {
      PoolComplete(c, k, fuel, pool);
    }
    var sorted := SortDesc(pool);
    TakeSorted(sorted, kBest);
    return Ok((Take(sorted, kBest), all - done + 1));
  }

  /** One split of the k-best search: the entries it adds to the pool and the steps its children took. */
  method SplitKBest(c: CkyChart, k: ChartKey, s: Split, done: nat, maxSteps: Option<int>, kBest: Option<int>,
                    fuel: nat)
    returns (r: Result<(seq<Scored>, nat), SearchError>)
    requires k in c && s in c[k]
    ensures s == [] ==> r == Err(EmptySplit)
    ensures r.Ok? ==> AllValid(c, k, r.value.0)
    ensures r.Ok? && kBest.None? && maxSteps.None? ==> SplitComplete(c, k, s, fuel, r.value.0)
    decreases fuel, 3
  {
    if s == [] {
      return Err(EmptySplit);
    }
    var res := ChildrenKBest(c, s, done, maxSteps, kBest, fuel);
    if res.Err? {
      return Err(res.error);
    }
    var pool := PoolKBest(c, k, s, res.value.0, kBest);
    if kBest.None? && maxSteps.None? {
      CombosComplete(c, k, s, fuel, res.value.0, pool);
    }
    return Ok((pool, res.value.1));
  }

  /** The children's searches, all started from the same step count, and the sum of their steps. */
  method ChildrenKBest(c: CkyChart, s: Split, done: nat, maxSteps: Option<int>, kBest: Option<int>, fuel: nat)
    returns (r: Result<(seq<seq<Scored>>, nat), SearchError>)
    ensures r.Ok? ==> ChildrenValid(c, s, r.value.0)
    ensures r.Ok? && kBest.None? && maxSteps.None? ==> ChildrenComplete(c, s, fuel, r.value.0)
    decreases fuel, 2
  {
    var lists: seq<seq<Scored>> := [];
    var used: nat := 0;
    for i := 0 to |s|
      invariant |lists| == i
      invariant forall j :: 0 <= j < i ==> AllValid(c, ItemKey(s[j].1), lists[j])
      invariant kBest.None? && maxSteps.None? ==>
        forall j :: 0 <= j < i ==> Complete(c, ItemKey(s[j].1), fuel, lists[j])
    {
      var res := KBest(c, ItemKey(s[i].1), done, maxSteps, kBest, fuel);
      if res.Err? {
        return Err(res.error);
      }
      lists := lists + [res.value.0];
      used := used + res.value.1;
    }
    return Ok((lists, used));
  }

  /**
   * The combination loop of the k-best search: after each combination the
   * best `k_best` of the combinations so far are added to the pool.
   */
  method PoolKBest(c: CkyChart, k: ChartKey, s: Split, lists: seq<seq<Scored>>, kBest: Option<int>)
    returns (pool: seq<Scored>)
    requires k in c && s in c[k] && ChildrenValid(c, s, lists)
    ensures AllValid(c, k, pool)
    ensures kBest.None? ==> forall q :: q in Product(lists) ==> |q| == |s| && Joined(k, s, q) in pool
  {
    var combos := Product(lists);
    var sofar: seq<Scored> := [];
    pool := [];
    for j := 0 to |combos|
      invariant AllValid(c, k, sofar) && AllValid(c, k, pool)
      invariant Pooled(k, s, combos[..j], sofar)
      invariant kBest.None? ==> forall e :: e in sofar ==> e in pool
    {
      ComboValid(c, k, s, lists, combos, j);
      var e := Joined(k, s, combos[j]);
      AllValidSnoc(c, k, sofar, e);
      PooledStep(k, s, combos, j, sofar, sofar + [e]);
      sofar := sofar + [e];
      PushBest(c, k, sofar, pool, kBest);
      pool := pool + Take(SortDesc(sofar), kBest);
    }
    assert combos[..|combos|] == combos;
    if kBest.None? {
      PooledMore(k, s, combos, sofar, pool);
    }
  }

  lemma PooledMore(k: ChartKey, s: Split, qs: seq<seq<Scored>>, a: seq<Scored>, b: seq<Scored>)
    requires Pooled(k, s, qs, a) && forall e :: e in a ==> e in b
    ensures Pooled(k, s, qs, b)
  {
  }

  /** Adding the best `k_best` of valid combinations keeps the pool valid; with no bound it adds all of them. */
  lemma PushBest(c: CkyChart, k: ChartKey, sofar: seq<Scored>, pool: seq<Scored>, kBest: Option<int>)
    requires AllValid(c, k, sofar) && AllValid(c, k, pool)
    ensures AllValid(c, k, pool + Take(SortDesc(sofar), kBest))
    ensures kBest.None? ==> forall e :: e in sofar ==> e in pool + Take(SortDesc(sofar), kBest)
  {
    TakeSorted(SortDesc(sofar), kBest);
  }

  // ---------------------------------------------------------------------------
  // The first derivation

  /**
   * `Chart._first_derivation(item)`: follows the first split of every key,
   * and counts one step per key of the chart it passes plus one per leaf.
   */
  function FirstDerivation(c: CkyChart, k: ChartKey, fuel: nat): Result<(Scored, nat), SearchError>
    decreases fuel, 1, 0
  {
    if k !in c then (if k.StartKey? then Err(NoDerivation) else Ok(((HeadWeight(k), Leaf(k.item)), 1)))
    else if fuel == 0 then Err(DepthExceeded)
    else if c[k] == [] then Err(NoSplit)
    else if c[k][0] == [] then Err(EmptySplit)
    else
      match FirstKids(c, c[k][0], fuel - 1)
      case Err(e) => Err(e)
      case Ok((p, steps)) => Ok((Joined(k, c[k][0], p), steps + 1))
  }

  /** The first derivations of the children of a split, left to right, and their total steps. */
  function FirstKids(c: CkyChart, s: Split, fuel: nat): (r: Result<(seq<Scored>, nat), SearchError>)
    ensures r.Ok? ==> |r.value.0| == |s|
    decreases fuel, 2, |s|
  {
    if s == [] then Ok(([], 0))
    else
      match FirstDerivation(c, ItemKey(s[0].1), fuel)
      case Err(e) => Err(e)
      case Ok((x, n)) =>
        match FirstKids(c, s[1..], fuel)
        case Err(e) => Err(e)
        case Ok((p, m)) => Ok(([x] + p, n + m))
  }

  /** `t` derives `k` by the first split of every key it passes. */
  ghost predicate FirstTree(c: CkyChart, k: ChartKey, t: Tree)
    decreases t
  {
    if k !in c then k.ItemKey? && t == Leaf(k.item)
    else
      c[k] != [] && t.Node? && t.head == k && |c[k][0]| == |t.kids| &&
      forall i :: 0 <= i < |t.kids| ==>
        t.kids[i].0 == c[k][0][i].0 && FirstTree(c, ItemKey(c[k][0][i].1), t.kids[i].1)
  }

  lemma {:induction false} FirstTreeDerives(c: CkyChart, k: ChartKey, t: Tree)
    requires FirstTree(c, k, t)
    ensures Derives(c, k, t)
    decreases t
  {
    if k in c {
      var s := c[k][0];
      forall i | 0 <= i < |s|
        ensures Derives(c, ItemKey(s[i].1), t.kids[i].1)
      {
        FirstTreeDerives(c, ItemKey(s[i].1), t.kids[i].1);
      }
      assert Fits(c, s, t);
    }
  }

  /** The first derivation is a derivation of `k` by first splits, scored by its rule weights, no deeper than the fuel. */
  lemma {:induction false} FirstDerivationSound(c: CkyChart, k: ChartKey, fuel: nat)
    ensures FirstDerivation(c, k, fuel).Ok? ==>
      var e := FirstDerivation(c, k, fuel).value.0;
      Valid(c, k, e) && FirstTree(c, k, e.1) && Depth(e.1) <= fuel
    decreases fuel, 1, 0
  {
    var r := FirstDerivation(c, k, fuel);
    if k in c && fuel > 0 && c[k] != [] && c[k][0] != [] && r.Ok? {
      var s := c[k][0];
      FirstKidsSound(c, s, fuel - 1);
      var p := FirstKids(c, s, fuel - 1).value.0;
      assert r.value.0 == Joined(k, s, p);
      FirstNodeSound(c, k, s, p, fuel);
    }
  }

  /** The node built from the first derivations of the children of the first split. */
  lemma FirstNodeSound(c: CkyChart, k: ChartKey, s: Split, p: seq<Scored>, fuel: nat)
    requires k in c && fuel > 0 && c[k] != [] && s == c[k][0] && |p| == |s|
    requires forall i :: 0 <= i < |s| ==>
      Valid(c, ItemKey(s[i].1), p[i]) && FirstTree(c, ItemKey(s[i].1), p[i].1) && Depth(p[i].1) <= fuel - 1
    ensures Valid(c, k, Joined(k, s, p)) && FirstTree(c, k, Joined(k, s, p).1) && Depth(Joined(k, s, p).1) <= fuel
  {
    var t := Node(k, Slots(s, p));
    assert seq(|t.kids|, i requires 0 <= i < |t.kids| => Score(t.kids[i].1)) == Weights(p);
    var ds := seq(|t.kids|, i requires 0 <= i < |t.kids| => Depth(t.kids[i].1));
    assert forall i :: 0 <= i < |ds| ==> ds[i] <= fuel - 1;
    MaxOfBound(ds, fuel - 1);
    FirstTreeDerives(c, k, t);
  }

  lemma MaxOfBound(s: seq<nat>, b: nat)
    requires forall i :: 0 <= i < |s| ==> s[i] <= b
    ensures MaxOf(s) <= b
  {
    if s != [] {
      MaxOfBound(s[..|s| - 1], b);
    }
  }

  lemma {:induction false} FirstKidsSound(c: CkyChart, s: Split, fuel: nat)
    ensures FirstKids(c, s, fuel).Ok? ==>
      var p := FirstKids(c, s, fuel).value.0;
      forall i :: 0 <= i < |s| ==>
        Valid(c, ItemKey(s[i].1), p[i]) && FirstTree(c, ItemKey(s[i].1), p[i].1) && Depth(p[i].1) <= fuel
    decreases fuel, 2, |s|
  {
    if s != [] && FirstKids(c, s, fuel).Ok? {
      FirstDerivationSound(c, ItemKey(s[0].1), fuel);
      FirstKidsSound(c, s[1..], fuel);
      var p := FirstKids(c, s, fuel).value.0;
      var x := FirstDerivation(c, ItemKey(s[0].1), fuel).value.0;
      var q := FirstKids(c, s[1..], fuel).value.0;
      assert p == [x] + q;
      forall i | 1 <= i < |s|
        ensures s[i] == s[1..][i - 1] && p[i] == q[i - 1]
      {
      }
    }
  }

  // ---------------------------------------------------------------------------
  // The entry point

  /**
   * `Chart.derivations(item, only_first, max_steps, k_best)`: the first
   * derivation as a one-element list, or the k-best search from no steps.
   */
  method Derivations(c: CkyChart, k: ChartKey, onlyFirst: bool, maxSteps: Option<int>, kBest: Option<int>,
                     fuel: nat)
    returns (r: Result<(seq<Scored>, nat), SearchError>)
    ensures r.Ok? ==> AllValid(c, k, r.value.0) && r.value.1 >= 1
    ensures onlyFirst ==> (r.Ok? <==> FirstDerivation(c, k, fuel).Ok?)
    ensures onlyFirst && r.Ok? ==> |r.value.0| == 1 && FirstTree(c, k, r.value.0[0].1)
    ensures !onlyFirst && r.Ok? ==> SortedBy(r.value.0, AtLeast)
    ensures !onlyFirst && r.Ok? && k in c && kBest.Some? && 0 <= kBest.value ==> |r.value.0| <= kBest.value
    ensures onlyFirst && k == StartKey && StartKey !in c ==> r == Err(NoDerivation)
  {
    if onlyFirst {
      var f := FirstDerivation(c, k, fuel);
      if f.Err? {
        return Err(f.error);
      }
      FirstDerivationSound(c, k, fuel);
      return Ok(([f.value.0], f.value.1));
    }
    r := KBest(c, k, 0, maxSteps, kBest, fuel);
  }

  // ---------------------------------------------------------------------------
  // `items_length`

  /** `len(item_dict.values())`: the number of distinct slots of a split. */
  function SlotCount(s: Split): nat
  {
    |KeysOf(s, (x: (Slot, Item)) => x.0)|
  }

  /** The slots of the splits of the keys `ks`, added up. */
  function SizeOver(c: CkyChart, ks: seq<ChartKey>): nat
    requires Elems(ks) <= c.Keys
  {
    if ks == [] then 0
    else
      assert ks[|ks| - 1] in Elems(ks);
      SizeOver(c, ks[..|ks| - 1]) + SplitsSize(c[ks[|ks| - 1]])
  }

  function SplitsSize(ss: seq<Split>): nat
  {
    if ss == [] then 0 else SplitsSize(ss[..|ss| - 1]) + SlotCount(ss[|ss| - 1])
  }

  /** The total does not depend on the order the keys are visited in. */
  lemma {:induction false} SizeOverOrder(c: CkyChart, a: seq<ChartKey>, b: seq<ChartKey>)
    requires Distinct(a) && Distinct(b) && Elems(a) == Elems(b) && Elems(a) <= c.Keys
    ensures SizeOver(c, a) == SizeOver(c, b)
    decreases |a|
  {
    if a != [] {
      var x := a[|a| - 1];
      assert x in Elems(b);
      var j :| 0 <= j < |b| && b[j] == x;
      var b' := b[..j] + b[j + 1..];
      assert b == b[..j] + [x] + b[j + 1..];
      SizeOverRemove(c, b[..j], x, b[j + 1..]);
      DistinctRemove(a, b, j);
      SizeOverOrder(c, a[..|a| - 1], b');
      assert SizeOver(c, a) == SizeOver(c, a[..|a| - 1]) + SplitsSize(c[x]);
    } else {
      ElemsCount(b);
    }
  }

  lemma DistinctRemove(a: seq<ChartKey>, b: seq<ChartKey>, j: nat)
    requires a != [] && Distinct(a) && Distinct(b) && Elems(a) == Elems(b) && j < |b| && b[j] == a[|a| - 1]
    ensures Distinct(a[..|a| - 1]) && Distinct(b[..j] + b[j + 1..])
    ensures Elems(a[..|a| - 1]) == Elems(b[..j] + b[j + 1..]) == Elems(a) - {a[|a| - 1]}
  {
    var x := a[|a| - 1];
    var a' := a[..|a| - 1];
    var b' := b[..j] + b[j + 1..];
    assert a == a' + [x];
    assert b == b[..j] + [x] + b[j + 1..];
    assert Elems(a') == Elems(a) - {x} by {
      assert forall y :: y in a <==> y in a' || y == x;
      assert x !in a';
    }
    assert Elems(b') == Elems(b) - {x} by {
      assert forall y :: y in b <==> y in b' || y == x;
      assert forall i :: 0 <= i < |b'| ==> b'[i] == (if i < j then b[i] else b[i + 1]);
    }
    assert forall i :: 0 <= i < |b'| ==> b'[i] == (if i < j then b[i] else b[i + 1]);
  }

  lemma {:induction false} SizeOverRemove(c: CkyChart, u: seq<ChartKey>, x: ChartKey, v: seq<ChartKey>)
    requires Elems(u + [x] + v) <= c.Keys
    ensures Elems(u + v) <= c.Keys && x in c
    ensures SizeOver(c, u + [x] + v) == SizeOver(c, u + v) + SplitsSize(c[x])
    decreases |v|
  {
    assert x in Elems(u + [x] + v);
    assert forall y :: y in u + v ==> y in u + [x] + v;
    if v == [] {
      assert u + [x] + v == u + [x];
      assert (u + [x])[..|u + [x]| - 1] == u;
      assert u + v == u;
    } else {
      var y, v' := v[|v| - 1], v[..|v| - 1];
      var w, w' := u + [x] + v, u + [x] + v';
      var z, z' := u + v, u + v';
      assert v == v' + [y];
      ConcatAssoc(u + [x], v', [y]);
      ConcatAssoc(u, v', [y]);
      assert w[..|w| - 1] == w' && w[|w| - 1] == y;
      assert z[..|z| - 1] == z' && z[|z| - 1] == y;
      assert Elems(w') <= Elems(w);
      SizeOverRemove(c, u, x, v');
    }
  }

  /** `Chart.items_length()`: the number of slots over all splits of all keys, whatever order the keys come in. */
  method ItemsLength(c: CkyChart) returns (n: nat)
    ensures forall ks :: Distinct(ks) && Elems(ks) == c.Keys ==> n == SizeOver(c, ks)
  {
    var keys := Enumerate(c.Keys);
    n := 0;
    for i := 0 to |keys|
      invariant Elems(keys[..i]) <= c.Keys
      invariant n == SizeOver(c, keys[..i])
    {
      assert keys[..i + 1][..i] == keys[..i];
      assert keys[i] in Elems(keys);
      var splits := c[keys[i]];
      var m := 0;
      for j := 0 to |splits|
        invariant m == SplitsSize(splits[..j])
      {
        assert splits[..j + 1][..j] == splits[..j];
        m := m + SlotCount(splits[j]);
      }
      assert splits[..|splits|] == splits;
      n := n + m;
    }
    assert keys[..|keys|] == keys;
    forall ks | Distinct(ks) && Elems(ks) == c.Keys
      ensures n == SizeOver(c, ks)
    {
      SizeOverOrder(c, keys, ks);
    }
  }
}
