// The structural queries of the Hgraph class, stated over the list of triples
// that `triples()` returns: which labels are terminals and which nonterminals,
// the numbering of nodes by first appearance, the leaves and the re-entrant
// nodes.  Each query runs the counting loops of the source; its contract
// characterises the result without reference to the loops.
module GraphQueries {
  import opened Wrappers
  import opened Seqs
  import opened Sorting
  import opened Labels
  import opened Graphs

  /** Every node a listing mentions, triple by triple: the parent, then the tails. */
  function NodeStream(ts: seq<Triple>): seq<Node>
  {
    if ts == [] then [] else NodeStream(ts[..|ts| - 1]) + ([ts[|ts| - 1].src] + ts[|ts| - 1].tails)
  }

  /** The tails of a listing, triple by triple. */
  function TailsOf(ts: seq<Triple>): seq<Node>
  {
    if ts == [] then [] else TailsOf(ts[..|ts| - 1]) + ts[|ts| - 1].tails
  }

  /** The nodes of a listing in order of first appearance. */
  function FirstSeen(ts: seq<Triple>): seq<Node>
  {
    Dedup(NodeStream(ts))
  }

  /** The parents of a listing, triple by triple. */
  function Sources(ts: seq<Triple>): seq<Node>
  {
    if ts == [] then [] else Sources(ts[..|ts| - 1]) + [ts[|ts| - 1].src]
  }

  /** The number of triples of the listing whose parent is `n`. */
  function OutDegree(ts: seq<Triple>, n: Node): nat
  {
    multiset(Sources(ts))[n]
  }

  function InDegree(ts: seq<Triple>, n: Node): nat
  {
    multiset(TailsOf(ts))[n]
  }

  lemma NodeStreamSnoc(ts: seq<Triple>, i: nat)
    requires i < |ts|
    ensures NodeStream(ts[..i + 1]) == NodeStream(ts[..i]) + ([ts[i].src] + ts[i].tails)
    ensures TailsOf(ts[..i + 1]) == TailsOf(ts[..i]) + ts[i].tails
    ensures Sources(ts[..i + 1]) == Sources(ts[..i]) + [ts[i].src]
  {
    assert ts[..i + 1][..i] == ts[..i];
  }

  lemma {:induction false} TailsInStream(ts: seq<Triple>)
    ensures forall n :: n in TailsOf(ts) ==> n in NodeStream(ts)
  {
    if ts != [] {
      TailsInStream(ts[..|ts| - 1]);
    }
  }

  lemma {:induction false} SourcesInStream(ts: seq<Triple>)
    ensures forall n :: n in Sources(ts) ==> n in NodeStream(ts)
  {
    if ts != [] {
      SourcesInStream(ts[..|ts| - 1]);
    }
  }

  /** A listed triple's parent and tails are mentioned by the listing. */
  lemma {:induction false} TripleInStream(ts: seq<Triple>, t: Triple)
    requires t in ts
    ensures t.src in NodeStream(ts)
    ensures forall c :: c in t.tails ==> c in NodeStream(ts)
  {
    var init := ts[..|ts| - 1];
    assert ts == init + [ts[|ts| - 1]];
    if t in init {
      TripleInStream(init, t);
    }
  }

  /** A node has out-degree 0 exactly when no triple of the listing starts at it. */
  lemma {:induction false} OutDegreeZero(ts: seq<Triple>, n: Node)
    ensures OutDegree(ts, n) == 0 <==> forall t :: t in ts ==> t.src != n
  {
    if ts != [] {
      var init := ts[..|ts| - 1];
      OutDegreeZero(init, n);
      assert ts == init + [ts[|ts| - 1]];
    }
  }

  /**
   * One node met by a loop that numbers nodes in first-appearance order: it
   * gets the next number exactly when it has not been met before.
   */
  lemma NumberStep(s: seq<Node>, x: Node)
    ensures x in Positions(Dedup(s)) <==> x in s
    ensures x in s ==> Dedup(s + [x]) == Dedup(s)
    ensures x !in s ==> Positions(Dedup(s + [x])) == Positions(Dedup(s))[x := |Dedup(s)|]
    ensures |Dedup(s + [x])| == |Dedup(s)| + (if x in s then 0 else 1)
  {
    DedupSnoc(s, x);
    if x !in s {
      PositionsSnoc(Dedup(s), x);
    }
  }

  lemma NumberNext(order: map<Node, nat>, count: nat, seen: seq<Node>, xs: seq<Node>, j: nat)
    requires j < |xs|
    requires order == Positions(Dedup(seen + xs[..j])) && count == |Dedup(seen + xs[..j])|
    ensures xs[j] in order ==> order == Positions(Dedup(seen + xs[..j + 1])) && count == |Dedup(seen + xs[..j + 1])|
    ensures xs[j] !in order ==> order[xs[j] := count] == Positions(Dedup(seen + xs[..j + 1])) && count + 1 == |Dedup(seen + xs[..j + 1])|
  {
    assert seen + xs[..j + 1] == (seen + xs[..j]) + [xs[j]];
    NumberStep(seen + xs[..j], xs[j]);
  }

  /** Numbers each of `xs` not met before with the next free number (`if not c in order`). */
  method NumberAll(order: map<Node, nat>, count: nat, ghost seen: seq<Node>, xs: seq<Node>)
    returns (order': map<Node, nat>, count': nat)
    requires order == Positions(Dedup(seen)) && count == |Dedup(seen)|
    ensures order' == Positions(Dedup(seen + xs)) && count' == |Dedup(seen + xs)|
  {
    order', count' := order, count;
    assert seen + xs[..0] == seen;
    for j := 0 to |xs|
      invariant order' == Positions(Dedup(seen + xs[..j]))
      invariant count' == |Dedup(seen + xs[..j])|
    {
      var c := xs[j];
      NumberNext(order', count', seen, xs, j);
      if c !in order' {
        order' := order'[c := count'];
        count' := count' + 1;
      }
    }
    assert xs[..|xs|] == xs;
  }

  /**
   * `get_ordered_nodes()`: walks the triples, numbering each parent and then
   * each tail the first time it is met.
   */
  method OrderedNodes(ts: seq<Triple>) returns (order: map<Node, nat>)
    ensures order == Positions(FirstSeen(ts))
  {
    order := map[];
    var count := 0;
    for i := 0 to |ts|
      invariant order == Positions(Dedup(NodeStream(ts[..i])))
      invariant count == |Dedup(NodeStream(ts[..i]))|
    {
      var t := ts[i];
      NodeStreamSnoc(ts, i);
      order, count := NumberAll(order, count, NodeStream(ts[..i]), [t.src] + t.tails);
    }
    assert ts[..|ts|] == ts;
  }

  /** Dedup keeps elements in the order of their first occurrence. */
  lemma {:induction false} DedupOrder(s: seq<Node>, a: Node, b: Node)
    requires a in s && b in s
    ensures IndexIn(Dedup(s), a) < IndexIn(Dedup(s), b) <==> IndexIn(s, a) < IndexIn(s, b)
  {
    var init, x := s[..|s| - 1], s[|s| - 1];
    assert s == init + [x];
    DedupSnoc(init, x);
    if a in init && b in init {
      DedupOrder(init, a, b);
      IndexInPrefix(init, [x], a);
      IndexInPrefix(init, [x], b);
      IndexInPrefix(Dedup(init), [x], a);
      IndexInPrefix(Dedup(init), [x], b);
    } else if a in init {
      IndexInPrefix(init, [x], a);
      IndexInPrefix(Dedup(init), [x], a);
      LastIndex(init, b);
      LastIndex(Dedup(init), b);
    } else if b in init {
      IndexInPrefix(init, [x], b);
      IndexInPrefix(Dedup(init), [x], b);
      LastIndex(init, a);
      LastIndex(Dedup(init), a);
    }
  }

  lemma LastIndex(s: seq<Node>, x: Node)
    requires x !in s
    ensures x in s + [x] && IndexIn(s + [x], x) == |s|
  {
    assert forall k :: 0 <= k < |s| ==> (s + [x])[k] == s[k];
  }

  /**
   * The numbering is a bijection from the nodes of the listing onto
   * `0..n-1`, and it orders nodes by their first appearance.
   */
  lemma OrderedNodesBijective(ts: seq<Triple>)
    ensures Positions(FirstSeen(ts)).Keys == Elems(NodeStream(ts))
    ensures forall a, b :: (a in Positions(FirstSeen(ts)) && b in Positions(FirstSeen(ts)) &&
              Positions(FirstSeen(ts))[a] == Positions(FirstSeen(ts))[b]) ==> a == b
    ensures forall n :: n in Positions(FirstSeen(ts)) ==> Positions(FirstSeen(ts))[n] < |FirstSeen(ts)|
    ensures forall i :: 0 <= i < |FirstSeen(ts)| ==> Positions(FirstSeen(ts))[FirstSeen(ts)[i]] == i
    ensures forall a, b :: a in NodeStream(ts) && b in NodeStream(ts) ==>
              (Positions(FirstSeen(ts))[a] < Positions(FirstSeen(ts))[b] <==>
               IndexIn(NodeStream(ts), a) < IndexIn(NodeStream(ts), b))
  {
    var fs := FirstSeen(ts);
    PositionsInverse(fs);
    forall a, b | a in NodeStream(ts) && b in NodeStream(ts)
      ensures Positions(fs)[a] < Positions(fs)[b] <==> IndexIn(NodeStream(ts), a) < IndexIn(NodeStream(ts), b)
    {
      DedupOrder(NodeStream(ts), a, b);
    }
  }

  /** The sort key of `find_leaves` and `get_reentrant_nodes`: `order[x]`. */
  function OrderKey(order: map<Node, nat>): Node -> int
  {
    (n: Node) => if n in order then order[n] else 0
  }

  /** The numbering tells apart every pair of nodes of the listing. */
  lemma OrderKeyInjective(ts: seq<Triple>, s: seq<Node>)
    requires forall n :: n in s ==> n in NodeStream(ts)
    ensures forall a, b :: a in s && b in s && OrderKey(Positions(FirstSeen(ts)))(a) == OrderKey(Positions(FirstSeen(ts)))(b) ==> a == b
  {
    OrderedNodesBijective(ts);
  }

  /**
   * Sorting distinct nodes of the listing by their number keeps exactly those
   * nodes, each once, in strictly increasing number order.
   */
  lemma SortByNumbering(ts: seq<Triple>, s: seq<Node>)
    requires Distinct(s) && forall n :: n in s ==> n in NodeStream(ts)
    ensures var r := SortBy(s, ByKey(OrderKey(Positions(FirstSeen(ts)))));
      Distinct(r) && (forall n :: n in r <==> n in s) &&
      (forall n :: n in r ==> n in Positions(FirstSeen(ts))) &&
      forall i, j :: 0 <= i < j < |r| ==> Positions(FirstSeen(ts))[r[i]] < Positions(FirstSeen(ts))[r[j]]
  {
    var pos := Positions(FirstSeen(ts));
    OrderKeyInjective(ts, s);
    SortByKeyStrict(s, OrderKey(pos));
    OrderedNodesBijective(ts);
    var r := SortBy(s, ByKey(OrderKey(pos)));
    forall i, j | 0 <= i < j < |r| ensures pos[r[i]] < pos[r[j]] {
      assert OrderKey(pos)(r[i]) < OrderKey(pos)(r[j]);
    }
  }

  /** `count` is `before` with some new keys, each counted 0. */
  ghost predicate Registered<T>(before: map<T, nat>, count: map<T, nat>)
  {
    (forall n :: n in before ==> n in count && count[n] == before[n]) &&
    (forall n :: n in count && n !in before ==> count[n] == 0)
  }

  lemma RegisteredTrans<T>(a: map<T, nat>, b: map<T, nat>, c: map<T, nat>)
    requires Registered(a, b) && Registered(b, c)
    ensures Registered(a, c)
  {
  }

  /** Every counted node is counted as often as it occurs in `srcs`. */
  ghost predicate Counted<T>(count: map<T, nat>, srcs: seq<T>)
  {
    forall n :: n in count ==> count[n] == multiset(srcs)[n]
  }

  /** Registers `c` with a count of 0 unless it is counted already. */
  method RegisterOne<T(==,!new)>(keys: seq<T>, count: map<T, nat>, ghost s: seq<T>, c: T)
    returns (keys': seq<T>, count': map<T, nat>)
    requires keys == Dedup(s) && count.Keys == Elems(keys)
    ensures keys' == Dedup(s + [c]) && count'.Keys == Elems(keys')
    ensures Registered(count, count')
  {
    DedupSnoc(s, c);
    if c in count {
      keys', count' := keys, count;
    } else {
      keys', count' := keys + [c], count[c := 0];
    }
  }

  /** Registers each of `xs` not counted yet with a count of 0 (`if not c in out_count`). */
  method Register<T(==,!new)>(keys: seq<T>, count: map<T, nat>, ghost seen: seq<T>, xs: seq<T>)
    returns (keys': seq<T>, count': map<T, nat>)
    requires keys == Dedup(seen) && count.Keys == Elems(keys)
    ensures keys' == Dedup(seen + xs) && count'.Keys == Elems(keys')
    ensures Registered(count, count')
  {
    keys', count' := keys, count;
    assert seen + xs[..0] == seen;
    for j := 0 to |xs|
      invariant keys' == Dedup(seen + xs[..j]) && count'.Keys == Elems(keys')
      invariant Registered(count, count')
    {
      ghost var before := count';
      assert xs[..j + 1] == xs[..j] + [xs[j]];
      ConcatAssoc(seen, xs[..j], [xs[j]]);
      keys', count' := RegisterOne(keys', count', seen + xs[..j], xs[j]);
      RegisteredTrans(count, before, count');
    }
    assert xs[..|xs|] == xs;
  }

  /** Adds one to the count of each of `xs` (`in_count[c] += 1` on a defaultdict). */
  method Tally<T(==,!new)>(keys: seq<T>, count: map<T, nat>, ghost seen: seq<T>, xs: seq<T>)
    returns (keys': seq<T>, count': map<T, nat>)
    requires keys == Dedup(seen) && count.Keys == Elems(keys)
    requires Counted(count, seen)
    ensures keys' == Dedup(seen + xs) && count'.Keys == Elems(keys')
    ensures Counted(count', seen + xs)
  {
    keys', count' := keys, count;
    assert seen + xs[..0] == seen;
    for j := 0 to |xs|
      invariant keys' == Dedup(seen + xs[..j]) && count'.Keys == Elems(keys')
      invariant Counted(count', seen + xs[..j])
    {
      assert seen + xs[..j + 1] == (seen + xs[..j]) + [xs[j]];
      keys', count' := CountParent(keys', count', seen + xs[..j], seen + xs[..j], xs[j]);
    }
    assert xs[..|xs|] == xs;
  }

  /** `out_count[par] += 1` on a defaultdict: the parent is counted once more, registered if new. */
  method CountParent<T(==,!new)>(keys: seq<T>, count: map<T, nat>, ghost seen: seq<T>, ghost srcs: seq<T>, x: T)
    returns (keys': seq<T>, count': map<T, nat>)
    requires keys == Dedup(seen) && count.Keys == Elems(keys)
    requires Counted(count, srcs)
    requires forall n :: n in srcs ==> n in seen
    ensures keys' == Dedup(seen + [x]) && count'.Keys == Elems(keys')
    ensures Counted(count', srcs + [x])
  {
    DedupSnoc(seen, x);
    if x in count {
      keys', count' := keys, count[x := count[x] + 1];
    } else {
      keys', count' := keys + [x], count[x := 1];
    }
  }

  /** The out-degree loop of `find_leaves()`: every node met, in order, with its number of out-edges. */
  method OutCounts(ts: seq<Triple>) returns (keys: seq<Node>, outCount: map<Node, nat>)
    ensures keys == FirstSeen(ts) && outCount.Keys == Elems(keys)
    ensures forall n :: n in outCount ==> outCount[n] == OutDegree(ts, n)
  {
    outCount := map[];
    keys := [];
    for i := 0 to |ts|
      invariant keys == Dedup(NodeStream(ts[..i]))
      invariant outCount.Keys == Elems(keys)
      invariant Counted(outCount, Sources(ts[..i]))
    {
      keys, outCount := OutCountStep(ts, i, keys, outCount);
    }
    assert ts[..|ts|] == ts;
  }

  /** One triple of the out-degree loop: count its parent, register its tails. */
  method OutCountStep(ts: seq<Triple>, i: nat, keys: seq<Node>, outCount: map<Node, nat>)
    returns (keys': seq<Node>, outCount': map<Node, nat>)
    requires i < |ts|
    requires keys == Dedup(NodeStream(ts[..i])) && outCount.Keys == Elems(keys)
    requires Counted(outCount, Sources(ts[..i]))
    ensures keys' == Dedup(NodeStream(ts[..i + 1])) && outCount'.Keys == Elems(keys')
    ensures Counted(outCount', Sources(ts[..i + 1]))
  {
    var t := ts[i];
    ghost var seen := NodeStream(ts[..i]);
    NodeStreamSnoc(ts, i);
    SourcesInStream(ts[..i]);
    var k1, c1 := CountParent(keys, outCount, seen, Sources(ts[..i]), t.src);
    keys', outCount' := Register(k1, c1, seen + [t.src], t.tails);
    RegisteredCounted(c1, outCount', seen + [t.src], Sources(ts[..i]) + [t.src]);
    assert (seen + [t.src]) + t.tails == NodeStream(ts[..i + 1]);
  }

  /** Registering new keys with 0 keeps a count of `srcs` whose keys cover `srcs`. */
  lemma RegisteredCounted<T(!new)>(a: map<T, nat>, b: map<T, nat>, seen: seq<T>, srcs: seq<T>)
    requires a.Keys == Elems(Dedup(seen)) && forall n :: n in srcs ==> n in seen
    requires Counted(a, srcs) && Registered(a, b)
    ensures Counted(b, srcs)
  {
    forall n | n in b && n !in a
      ensures multiset(srcs)[n] == 0
    {
      assert n !in seen;
    }
  }

  /** The in-degree loop of `get_reentrant_nodes()`: every tail met, in order, with its number of occurrences. */
  method InCounts(ts: seq<Triple>) returns (keys: seq<Node>, inCount: map<Node, nat>)
    ensures keys == Dedup(TailsOf(ts)) && inCount.Keys == Elems(keys)
    ensures forall n :: n in inCount ==> inCount[n] == InDegree(ts, n)
  {
    inCount := map[];
    keys := [];
    for i := 0 to |ts|
      invariant keys == Dedup(TailsOf(ts[..i]))
      invariant inCount.Keys == Elems(keys)
      invariant Counted(inCount, TailsOf(ts[..i]))
    {
      NodeStreamSnoc(ts, i);
      keys, inCount := Tally(keys, inCount, TailsOf(ts[..i]), ts[i].tails);
    }
    assert ts[..|ts|] == ts;
  }

  /** `[n for n in count if keep(count[n])]`: the counted nodes whose count passes, in insertion order. */
  method Select(keys: seq<Node>, count: map<Node, nat>, keep: nat -> bool) returns (r: seq<Node>)
    requires Elems(keys) <= count.Keys
    ensures forall n :: n in r <==> n in keys && keep(count[n])
    ensures Distinct(keys) ==> Distinct(r)
  {
    ghost var p := (n: Node) => n in count && keep(count[n]);
    r := [];
    for k := 0 to |keys|
      invariant r == Filter(keys[..k], p)
    {
      assert keys[..k + 1][..k] == keys[..k];
      r := r + (if keep(count[keys[k]]) then [keys[k]] else []);
    }
    assert keys[..|keys|] == keys;
    if Distinct(keys) {
      FilterDistinct(keys, p);
    }
  }

  /**
   * `find_leaves()`: counts the out-edges of every node met (tails with a
   * count of 0), keeps the nodes whose count is 0, and sorts them by
   * `get_ordered_nodes()`.  The result is exactly the nodes of the listing
   * without an outgoing triple, each once, in numbering order.
   */
  method FindLeaves(ts: seq<Triple>) returns (leaves: seq<Node>)
    ensures forall n :: n in leaves <==> n in NodeStream(ts) && forall t :: t in ts ==> t.src != n
    ensures Distinct(leaves)
    ensures forall n :: n in leaves ==> n in Positions(FirstSeen(ts))
    ensures forall i, j :: 0 <= i < j < |leaves| ==>
              Positions(FirstSeen(ts))[leaves[i]] < Positions(FirstSeen(ts))[leaves[j]]
  {
    var keys, outCount := OutCounts(ts);
    var result := Select(keys, outCount, (c: nat) => c == 0);
    var order := OrderedNodes(ts);
    OrderedNodesBijective(ts);
    SortByNumbering(ts, result);
    SinksOfCount(ts, outCount, result);
    leaves := SortBy(result, ByKey(OrderKey(order)));
  }

  /** The nodes counted with no out-edge are the listed nodes no triple leaves. */
  lemma SinksOfCount(ts: seq<Triple>, outCount: map<Node, nat>, result: seq<Node>)
    requires outCount.Keys == Elems(NodeStream(ts))
    requires forall n :: n in outCount ==> outCount[n] == OutDegree(ts, n)
    requires forall n :: n in result <==> n in FirstSeen(ts) && outCount[n] == 0
    ensures forall n :: n in result <==> n in NodeStream(ts) && forall t :: t in ts ==> t.src != n
  {
    forall n ensures n in result <==> n in NodeStream(ts) && forall t :: t in ts ==> t.src != n {
      OutDegreeZero(ts, n);
    }
  }

  /**
   * `get_reentrant_nodes()`: counts how often every node occurs as a tail,
   * keeps the nodes counted more than once, and sorts them by
   * `get_ordered_nodes()`.
   */
  method ReentrantNodes(ts: seq<Triple>) returns (nodes: seq<Node>)
    ensures forall n :: n in nodes <==> InDegree(ts, n) > 1
    ensures Distinct(nodes)
    ensures forall n :: n in nodes ==> n in Positions(FirstSeen(ts))
    ensures forall i, j :: 0 <= i < j < |nodes| ==>
              Positions(FirstSeen(ts))[nodes[i]] < Positions(FirstSeen(ts))[nodes[j]]
  {
    var keys, inCount := InCounts(ts);
    var result := Select(keys, inCount, (c: nat) => c > 1);
    var order := OrderedNodes(ts);
    TailsInStream(ts);
    SortByNumbering(ts, result);
    nodes := SortBy(result, ByKey(OrderKey(order)));
  }

  /** `nonterminal_edges()`: the triples whose label is a NonterminalLabel, in listing order. */
  function NonterminalEdges(ts: seq<Triple>): (r: seq<Triple>)
    ensures forall t :: t in r <==> t in ts && t.rel.Nt?
    ensures IsSubseq(r, ts)
  {
    FilterSubseq(ts, (t: Triple) => t.rel.Nt?);
    Filter(ts, (t: Triple) => t.rel.Nt?)
  }

  // ---------------------------------------------------------------------------
  // get_terminals_and_nonterminals

  /** What a terminal edge contributes: its label, or with `nodelabels` the concepts around it too. */
  datatype TerminalKey =
    | PlainLabel(rel: Label)
    | ConceptTriple(parent: string, rel: Label, children: seq<string>)

  datatype GraphError = KeyError

  /** Every endpoint of `t` has a concept. */
  predicate Known(t: Triple, concepts: map<Node, string>)
  {
    t.src in concepts && forall c :: c in t.tails ==> c in concepts
  }

  function TermKey(t: Triple, nodelabels: bool, concepts: map<Node, string>): TerminalKey
    requires nodelabels ==> Known(t, concepts)
  {
    if nodelabels then
      ConceptTriple(concepts[t.src], t.rel, seq(|t.tails|, (i: int) requires 0 <= i < |t.tails| && Known(t, concepts) => concepts[t.tails[i]]))
    else PlainLabel(t.rel)
  }

  /**
   * `get_terminals_and_nonterminals(nodelabels)`: a nonterminal edge adds its
   * symbol to the second set; a terminal edge adds its label, or with
   * `nodelabels` the triple of concepts around it, to the first.  A terminal
   * edge with an endpoint missing from `node_to_concepts` raises KeyError.
   */
  method TerminalsAndNonterminals(ts: seq<Triple>, nodelabels: bool, concepts: map<Node, string>)
    returns (r: Result<(set<TerminalKey>, set<string>), GraphError>)
    ensures r.Err? <==> nodelabels && exists t :: t in ts && t.rel.Terminal? && !Known(t, concepts)
    ensures r.Ok? ==> r.value.1 == set t | t in ts && t.rel.Nt? :: t.rel.nt.symbol
    ensures r.Ok? ==> r.value.0 == set t | t in ts && t.rel.Terminal? && (nodelabels ==> Known(t, concepts)) :: TermKey(t, nodelabels, concepts)
  {
    var terminals: set<TerminalKey> := {};
    var nonterminals: set<string> := {};
    for i := 0 to |ts|
      invariant forall k :: 0 <= k < i ==> (nodelabels && ts[k].rel.Terminal? ==> Known(ts[k], concepts))
      invariant nonterminals == set t | t in ts[..i] && t.rel.Nt? :: t.rel.nt.symbol
      invariant terminals == set t | t in ts[..i] && t.rel.Terminal? && (nodelabels ==> Known(t, concepts)) :: TermKey(t, nodelabels, concepts)
    {
      var t := ts[i];
      assert ts[..i + 1] == ts[..i] + [t];
      if t.rel.Nt? {
        nonterminals := nonterminals + {t.rel.nt.symbol};
      } else if nodelabels {
        if t.src !in concepts {
          return Err(KeyError);
        }
        var cs: seq<string> := [];
        for j := 0 to |t.tails|
          invariant |cs| == j && forall k :: 0 <= k < j ==> t.tails[k] in concepts && cs[k] == concepts[t.tails[k]]
        {
          if t.tails[j] !in concepts {
            return Err(KeyError);
          }
          cs := cs + [concepts[t.tails[j]]];
        }
        assert Known(t, concepts);
        assert cs == seq(|t.tails|, (k: int) requires 0 <= k < |t.tails| && Known(t, concepts) => concepts[t.tails[k]]);
        terminals := terminals + {ConceptTriple(concepts[t.src], t.rel, cs)};
      } else {
        terminals := terminals + {PlainLabel(t.rel)};
      }
    }
    assert ts[..|ts|] == ts;
    return Ok((terminals, nonterminals));
  }
}
