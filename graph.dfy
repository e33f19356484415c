// The hypergraph seen through its edges.  A node's out-edges are the
// (label, tails) pairs of its ListMap, in `items()` order; `triples()` lists
// them breadth first from a list of start nodes, expanding every node at most
// once and visiting a node's edges sorted by `str(label)`.  This module gives
// that listing as a reference function over the out-edge lists and proves
// what it promises; the Hgraph class runs the loop itself.
module Graphs {
  import opened Wrappers
  import opened Seqs
  import opened Strings
  import opened Sorting
  import opened Labels

  type Node = string

  /** One entry of a node's ListMap: an edge label and the tuple of tail nodes. */
  type Edge = (Label, seq<Node>)

  /** An edge as `triples()` reports it: `(parent, label, tails)`. */
  datatype Triple = Triple(src: Node, rel: Label, tails: seq<Node>)

  /** Every node's out-edges; a node absent from the map has none. */
  type Graph = map<Node, seq<Edge>>

  function Out(g: Graph, n: Node): seq<Edge>
  {
    if n in g then g[n] else []
  }

  /** The sort key of `triples()`: `str(label)`, compared as Python compares strings. */
  predicate EdgeLe(a: Edge, b: Edge)
  {
    StrLe(LabelString(a.0), LabelString(b.0))
  }

  lemma EdgeLeTotalPreorder()
    ensures TotalPreorder(EdgeLe)
  {
    forall a: Edge, b: Edge ensures EdgeLe(a, b) || EdgeLe(b, a) {
      StrLeTotal(LabelString(a.0), LabelString(b.0));
    }
    forall a: Edge, b: Edge, c: Edge | EdgeLe(a, b) && EdgeLe(b, c) ensures EdgeLe(a, c) {
      StrLeTrans(LabelString(a.0), LabelString(b.0), LabelString(c.0));
    }
  }

  /** `sorted(self[node].items(), key=lambda x: str(x[0]))`. */
  function SortedOut(g: Graph, n: Node): seq<Edge>
  {
    SortBy(Out(g, n), EdgeLe)
  }

  function EdgeTriples(n: Node, es: seq<Edge>): (r: seq<Triple>)
    ensures |r| == |es| && forall i :: 0 <= i < |es| ==> r[i] == Triple(n, es[i].0, es[i].1)
  {
    if es == [] then [] else EdgeTriples(n, es[..|es| - 1]) + [Triple(n, es[|es| - 1].0, es[|es| - 1].1)]
  }

  /** The tails of a list of edges, one after the other. */
  function EdgeTails(es: seq<Edge>): seq<Node>
  {
    if es == [] then [] else EdgeTails(es[..|es| - 1]) + es[|es| - 1].1
  }

  /** The triples one expanded node contributes. */
  function Block(g: Graph, n: Node): seq<Triple>
  {
    EdgeTriples(n, SortedOut(g, n))
  }

  /** The triples of the expanded nodes, node after node. */
  function Blocks(g: Graph, order: seq<Node>): seq<Triple>
  {
    if order == [] then [] else Blocks(g, order[..|order| - 1]) + Block(g, order[|order| - 1])
  }

  /** The nodes pushed on the queue while expanding `order`, in push order (before filtering). */
  function TailStream(g: Graph, order: seq<Node>): seq<Node>
  {
    if order == [] then [] else TailStream(g, order[..|order| - 1]) + EdgeTails(SortedOut(g, order[|order| - 1]))
  }

  /** Every node that occurs as a tail somewhere in the graph. */
  function AllTails(g: Graph): set<Node>
  {
    set n, i, c | n in g && 0 <= i < |g[n]| && c in g[n][i].1 :: c
  }

  lemma {:induction false} EdgeTailsMember(es: seq<Edge>, c: Node)
    requires c in EdgeTails(es)
    ensures exists i :: 0 <= i < |es| && c in es[i].1
  {
    var init := es[..|es| - 1];
    if c in EdgeTails(init) {
      EdgeTailsMember(init, c);
      var i :| 0 <= i < |init| && c in init[i].1;
      assert es[i] == init[i];
    } else {
      assert c in es[|es| - 1].1;
    }
  }

  lemma SortedOutTails(g: Graph, n: Node)
    ensures Elems(EdgeTails(SortedOut(g, n))) <= AllTails(g)
  {
    forall c | c in EdgeTails(SortedOut(g, n)) ensures c in AllTails(g) {
      EdgeTailsMember(SortedOut(g, n), c);
      var i :| 0 <= i < |SortedOut(g, n)| && c in SortedOut(g, n)[i].1;
      var e := SortedOut(g, n)[i];
      assert e in multiset(Out(g, n));
      var j :| 0 <= j < |g[n]| && g[n][j] == e;
      assert c in g[n][j].1;
    }
  }

  /**
   * The breadth-first loop of `triples()` as a function: pop the front of the
   * queue; a node not yet in `tabu` is expanded, and the tails of its sorted
   * edges that are not in `tabu` are pushed.  `U` bounds every node that can
   * reach the queue; the result is the list of expanded nodes.
   */
  function Expand(g: Graph, U: set<Node>, queue: seq<Node>, tabu: set<Node>): seq<Node>
    requires AllTails(g) <= U && Elems(queue) <= U
    decreases |U - tabu|, |queue|
  {
    if queue == [] then []
    else
      var x := queue[0];
      if x in tabu then Expand(g, U, queue[1..], tabu)
      else
        var tabu' := tabu + {x};
        SortedOutTails(g, x);
        assert U - tabu' == (U - tabu) - {x} && x in U - tabu;
        [x] + Expand(g, U, queue[1..] + Without(EdgeTails(SortedOut(g, x)), tabu'), tabu')
  }

  /** The order in which `triples()` expands nodes, starting from `starts`. */
  function BfsOrder(g: Graph, starts: seq<Node>): seq<Node>
  {
    Expand(g, AllTails(g) + Elems(starts), starts, {})
  }

  /** What `triples()` returns when it walks the graph from `starts`. */
  function BfsTriples(g: Graph, starts: seq<Node>): seq<Triple>
  {
    Blocks(g, BfsOrder(g, starts))
  }

  // ---------------------------------------------------------------------------
  // What the listing is: a characterisation independent of the queue

  /**
   * `order` lists, without repetition, the start nodes and the tails of
   * expanded nodes in the order they are first met, and each expanded node was
   * met before it was expanded: a start node or a tail of an earlier one.
   */
  ghost predicate IsBfsOrder(g: Graph, starts: seq<Node>, order: seq<Node>)
  {
    Distinct(order) &&
    order == Dedup(starts + TailStream(g, order)) &&
    Discovered(g, starts, order)
  }

  /** Each node of `order` is a start node or a tail of a node expanded before it. */
  ghost predicate Discovered(g: Graph, starts: seq<Node>, order: seq<Node>)
  {
    order == [] ||
    (Discovered(g, starts, order[..|order| - 1]) &&
     order[|order| - 1] in starts + TailStream(g, order[..|order| - 1]))
  }

  ghost predicate ExpandState(g: Graph, starts: seq<Node>, order: seq<Node>, queue: seq<Node>, tabu: set<Node>)
  {
    tabu == Elems(order) && Distinct(order) &&
    Dedup(starts + TailStream(g, order)) == order + Dedup(Without(queue, tabu)) &&
    Discovered(g, starts, order)
  }

  lemma TailStreamSnoc(g: Graph, order: seq<Node>, x: Node)
    ensures TailStream(g, order + [x]) == TailStream(g, order) + EdgeTails(SortedOut(g, x))
  {
    assert (order + [x])[..|order + [x]| - 1] == order;
  }

  lemma {:induction false} ExpandStateElems(g: Graph, starts: seq<Node>, order: seq<Node>, queue: seq<Node>, tabu: set<Node>)
    requires ExpandState(g, starts, order, queue, tabu)
    ensures Elems(starts + TailStream(g, order)) == tabu + Elems(queue)
  {
    DedupStateElems(starts + TailStream(g, order), order, queue, tabu);
  }

  lemma DedupStateElems(s: seq<Node>, order: seq<Node>, queue: seq<Node>, tabu: set<Node>)
    requires tabu == Elems(order) && Dedup(s) == order + Dedup(Without(queue, tabu))
    ensures Elems(s) == tabu + Elems(queue)
  {
    var d := Dedup(Without(queue, tabu));
    ElemsConcat(order, d);
    assert Elems(Dedup(s)) == Elems(s);
    assert Elems(d) == Elems(queue) - tabu;
  }

  lemma SeqAssoc(a: seq<Node>, b: seq<Node>, c: seq<Node>, d: seq<Node>)
    ensures (a + (b + c)) + d == (a + b) + (c + d)
  {
  }

  /** Popping a fresh front node off the (filtered, deduplicated) queue. */
  lemma PopFresh(queue: seq<Node>, tabu: set<Node>)
    requires queue != [] && queue[0] !in tabu
    ensures Dedup(Without(queue, tabu)) == [queue[0]] + Dedup(Without(queue[1..], tabu + {queue[0]}))
  {
    var x, rest := queue[0], queue[1..];
    assert queue == [x] + rest;
    assert Without(queue, tabu) == [x] + Without(rest, tabu);
    DedupSingle(x, Without(rest, tabu));
    WithoutWithout(rest, tabu, {x});
  }

  /** Pushing the unvisited tails behind the rest of the queue. */
  lemma PushTails(rest: seq<Node>, tx: seq<Node>, tabu: set<Node>, E: set<Node>)
    requires E == tabu + Elems(Without(rest, tabu))
    ensures Dedup(Without(rest + Without(tx, tabu), tabu)) ==
            Dedup(Without(rest, tabu)) + Dedup(Without(tx, E))
  {
    var A := Without(rest, tabu);
    WithoutAppend(rest, Without(tx, tabu), tabu);
    WithoutWithout(tx, tabu, tabu);
    assert tabu + tabu == tabu;
    assert Without(rest + Without(tx, tabu), tabu) == A + Without(tx, tabu);
    DedupAppend(A, Without(tx, tabu));
    WithoutWithout(tx, tabu, Elems(A));
  }

  lemma DiscoveredSnoc(g: Graph, starts: seq<Node>, order: seq<Node>, x: Node)
    requires Discovered(g, starts, order)
    requires x in starts + TailStream(g, order)
    ensures Discovered(g, starts, order + [x])
  {
    assert (order + [x])[..|order + [x]| - 1] == order;
  }

  /** The deduplicated stream after expanding the fresh front node of the queue. */
  lemma DedupAfterExpand(pre: seq<Node>, order: seq<Node>, queue: seq<Node>, tabu: set<Node>, tx: seq<Node>)
    requires queue != [] && queue[0] !in tabu
    requires Dedup(pre) == order + Dedup(Without(queue, tabu))
    requires Elems(pre) == tabu + Elems(queue)
    ensures Dedup(pre + tx) ==
            (order + [queue[0]]) + Dedup(Without(queue[1..] + Without(tx, tabu + {queue[0]}), tabu + {queue[0]}))
  {
    var x, rest := queue[0], queue[1..];
    var tabu' := tabu + {x};
    var E := Elems(pre);
    var A := Without(rest, tabu');
    assert queue == [x] + rest;
    assert E == tabu' + Elems(A);
    DedupAppend(pre, tx);
    PopFresh(queue, tabu);
    PushTails(rest, tx, tabu', E);
    var dA, dT := Dedup(A), Dedup(Without(tx, E));
    calc {
      Dedup(pre + tx);
      Dedup(pre) + dT;
      (order + Dedup(Without(queue, tabu))) + dT;
      (order + ([x] + dA)) + dT;
      { SeqAssoc(order, [x], dA, dT); }
      (order + [x]) + (dA + dT);
      (order + [x]) + Dedup(Without(rest + Without(tx, tabu'), tabu'));
    }
  }

  /** Expanding the front node `x` keeps the state invariant. */
  lemma {:induction false} ExpandStep(g: Graph, starts: seq<Node>, order: seq<Node>, queue: seq<Node>, tabu: set<Node>)
    requires ExpandState(g, starts, order, queue, tabu)
    requires queue != [] && queue[0] !in tabu
    ensures ExpandState(g, starts, order + [queue[0]], queue[1..] + Without(EdgeTails(SortedOut(g, queue[0])), tabu + {queue[0]}), tabu + {queue[0]})
  {
    var x := queue[0];
    var tx := EdgeTails(SortedOut(g, x));
    var pre := starts + TailStream(g, order);
    ExpandStateElems(g, starts, order, queue, tabu);
    StreamSnoc(g, starts, order, x);
    DedupAfterExpand(pre, order, queue, tabu, tx);
    assert x in pre;
    DiscoveredSnoc(g, starts, order, x);
    DistinctSnoc(order, x);
  }

  lemma StreamSnoc(g: Graph, starts: seq<Node>, order: seq<Node>, x: Node)
    ensures starts + TailStream(g, order + [x]) == (starts + TailStream(g, order)) + EdgeTails(SortedOut(g, x))
  {
    TailStreamSnoc(g, order, x);
    ConcatAssoc(starts, TailStream(g, order), EdgeTails(SortedOut(g, x)));
  }

  lemma DistinctSnoc(s: seq<Node>, x: Node)
    requires Distinct(s) && x !in s
    ensures Distinct(s + [x]) && Elems(s + [x]) == Elems(s) + {x}
  {
  }

  /** Expand's recursion when the front node is fresh. */
  lemma ExpandFresh(g: Graph, U: set<Node>, queue: seq<Node>, tabu: set<Node>)
    requires AllTails(g) <= U && Elems(queue) <= U
    requires queue != [] && queue[0] !in tabu
    ensures Elems(queue[1..] + Without(EdgeTails(SortedOut(g, queue[0])), tabu + {queue[0]})) <= U
    ensures Expand(g, U, queue, tabu) ==
            [queue[0]] + Expand(g, U, queue[1..] + Without(EdgeTails(SortedOut(g, queue[0])), tabu + {queue[0]}), tabu + {queue[0]})
  {
    SortedOutTails(g, queue[0]);
  }

  lemma {:induction false} ExpandRuns(g: Graph, U: set<Node>, starts: seq<Node>, order: seq<Node>, queue: seq<Node>, tabu: set<Node>)
    requires AllTails(g) <= U && Elems(queue) <= U
    requires ExpandState(g, starts, order, queue, tabu)
    ensures IsBfsOrder(g, starts, order + Expand(g, U, queue, tabu))
    decreases |U - tabu|, |queue|, 1
  {
    if queue == [] {
      assert order + [] == order;
    } else if queue[0] in tabu {
      ExpandRunsSkip(g, U, starts, order, queue, tabu);
    } else {
      ExpandRunsFresh(g, U, starts, order, queue, tabu);
    }
  }

  lemma SkipState(g: Graph, starts: seq<Node>, order: seq<Node>, queue: seq<Node>, tabu: set<Node>)
    requires ExpandState(g, starts, order, queue, tabu)
    requires queue != [] && queue[0] in tabu
    ensures ExpandState(g, starts, order, queue[1..], tabu)
  {
    WithoutSkip(queue, tabu);
  }

  lemma WithoutSkip(queue: seq<Node>, tabu: set<Node>)
    requires queue != [] && queue[0] in tabu
    ensures Without(queue, tabu) == Without(queue[1..], tabu)
  {
    assert Without(queue, tabu) == [] + Without(queue[1..], tabu);
  }

  lemma ExpandSkip(g: Graph, U: set<Node>, queue: seq<Node>, tabu: set<Node>)
    requires AllTails(g) <= U && Elems(queue) <= U
    requires queue != [] && queue[0] in tabu
    ensures Elems(queue[1..]) <= U
    ensures Expand(g, U, queue, tabu) == Expand(g, U, queue[1..], tabu)
  {
  }

  lemma {:induction false} ExpandRunsSkip(g: Graph, U: set<Node>, starts: seq<Node>, order: seq<Node>, queue: seq<Node>, tabu: set<Node>)
    requires AllTails(g) <= U && Elems(queue) <= U
    requires ExpandState(g, starts, order, queue, tabu)
    requires queue != [] && queue[0] in tabu
    ensures IsBfsOrder(g, starts, order + Expand(g, U, queue, tabu))
    decreases |U - tabu|, |queue|, 0
  {
    SkipState(g, starts, order, queue, tabu);
    ExpandSkip(g, U, queue, tabu);
    ExpandRuns(g, U, starts, order, queue[1..], tabu);
  }

  lemma {:induction false} ExpandRunsFresh(g: Graph, U: set<Node>, starts: seq<Node>, order: seq<Node>, queue: seq<Node>, tabu: set<Node>)
    requires AllTails(g) <= U && Elems(queue) <= U
    requires ExpandState(g, starts, order, queue, tabu)
    requires queue != [] && queue[0] !in tabu
    ensures IsBfsOrder(g, starts, order + Expand(g, U, queue, tabu))
    decreases |U - tabu|, |queue|, 0
  {
    var x := queue[0];
    var tabu' := tabu + {x};
    var queue' := queue[1..] + Without(EdgeTails(SortedOut(g, x)), tabu');
    ExpandFresh(g, U, queue, tabu);
    ExpandStep(g, starts, order, queue, tabu);
    assert U - tabu' == (U - tabu) - {x} && x in U - tabu;
    ExpandRuns(g, U, starts, order + [x], queue', tabu');
    ConsAssoc(order, x, Expand(g, U, queue', tabu'));
  }

  lemma ConsAssoc(a: seq<Node>, x: Node, b: seq<Node>)
    ensures a + ([x] + b) == (a + [x]) + b
  {
  }

  /** `triples()` expands nodes in breadth-first order. */
  lemma BfsOrderIsBfs(g: Graph, starts: seq<Node>)
    ensures IsBfsOrder(g, starts, BfsOrder(g, starts))
  {
    InitialState(g, starts);
    ExpandRuns(g, AllTails(g) + Elems(starts), starts, [], starts, {});
    EmptyConcat(BfsOrder(g, starts));
  }

  lemma InitialState(g: Graph, starts: seq<Node>)
    ensures ExpandState(g, starts, [], starts, {})
  {
    WithoutNothing(starts, {});
    assert starts + TailStream(g, []) == starts;
  }

  lemma EmptyConcat(s: seq<Node>)
    ensures [] + s == s
  {
  }

  /** Every start node is expanded. */
  lemma BfsCoversStarts(g: Graph, starts: seq<Node>)
    ensures Elems(starts) <= Elems(BfsOrder(g, starts))
  {
    BfsOrderIsBfs(g, starts);
  }

  lemma {:induction false} BlocksTails(g: Graph, order: seq<Node>, t: Triple, c: Node)
    requires t in Blocks(g, order) && c in t.tails
    ensures c in TailStream(g, order)
  {
    var init, x := order[..|order| - 1], order[|order| - 1];
    if t in Blocks(g, init) {
      BlocksTails(g, init, t, c);
    } else {
      var es := SortedOut(g, x);
      var i :| 0 <= i < |Block(g, x)| && Block(g, x)[i] == t;
      EdgeTailsHas(es, i, c);
    }
  }

  lemma {:induction false} EdgeTailsHas(es: seq<Edge>, i: nat, c: Node)
    requires i < |es| && c in es[i].1
    ensures c in EdgeTails(es)
  {
    if i < |es| - 1 {
      assert es[..|es| - 1][i] == es[i];
      EdgeTailsHas(es[..|es| - 1], i, c);
    }
  }

  /** The listing is closed: every tail of a listed edge is itself expanded. */
  lemma BfsClosed(g: Graph, starts: seq<Node>, t: Triple, c: Node)
    requires t in BfsTriples(g, starts) && c in t.tails
    ensures c in BfsOrder(g, starts)
  {
    BfsOrderIsBfs(g, starts);
    BlocksTails(g, BfsOrder(g, starts), t, c);
  }

  // ---------------------------------------------------------------------------
  // Each node's edges appear once, as one block sorted by label

  /** The triples of `ts` whose source is `n`, in order. */
  function TriplesFrom(ts: seq<Triple>, n: Node): seq<Triple>
  {
    if ts == [] then [] else TriplesFrom(ts[..|ts| - 1], n) + (if ts[|ts| - 1].src == n then [ts[|ts| - 1]] else [])
  }

  lemma {:induction false} TriplesFromMember(ts: seq<Triple>, n: Node, t: Triple)
    requires t in TriplesFrom(ts, n)
    ensures t in ts && t.src == n
  {
    var init := ts[..|ts| - 1];
    if t in TriplesFrom(init, n) {
      TriplesFromMember(init, n, t);
      assert init <= ts;
    }
  }

  lemma {:induction false} TriplesFromConcat(a: seq<Triple>, b: seq<Triple>, n: Node)
    ensures TriplesFrom(a + b, n) == TriplesFrom(a, n) + TriplesFrom(b, n)
  {
    if b == [] {
      assert a + b == a;
    } else {
      assert (a + b)[..|a + b| - 1] == a + b[..|b| - 1];
      TriplesFromConcat(a, b[..|b| - 1], n);
    }
  }

  lemma {:induction false} TriplesFromEdges(m: Node, es: seq<Edge>, n: Node)
    ensures TriplesFrom(EdgeTriples(m, es), n) == if m == n then EdgeTriples(m, es) else []
  {
    if es != [] {
      var r := EdgeTriples(m, es);
      assert r[..|r| - 1] == EdgeTriples(m, es[..|es| - 1]);
      TriplesFromEdges(m, es[..|es| - 1], n);
    }
  }

  lemma {:induction false} TriplesFromBlocks(g: Graph, order: seq<Node>, n: Node)
    requires Distinct(order)
    ensures TriplesFrom(Blocks(g, order), n) == if n in order then Block(g, n) else []
  {
    if order != [] {
      var init, x := order[..|order| - 1], order[|order| - 1];
      InitDistinct(order);
      TriplesFromBlocks(g, init, n);
      TriplesFromConcat(Blocks(g, init), Block(g, x), n);
      TriplesFromEdges(x, SortedOut(g, x), n);
    }
  }

  lemma InitDistinct(order: seq<Node>)
    requires Distinct(order) && order != []
    ensures Distinct(order[..|order| - 1])
    ensures order[|order| - 1] !in order[..|order| - 1]
    ensures forall n :: n in order <==> n in order[..|order| - 1] || n == order[|order| - 1]
  {
    var init, x := order[..|order| - 1], order[|order| - 1];
    assert order == init + [x];
    forall i | 0 <= i < |init| ensures init[i] != x {
      assert order[i] == init[i];
    }
  }

  /**
   * In the listing from `starts`, the edges of a node form one contiguous-order
   * block: none when the node is not expanded, otherwise all of its out-edges
   * (a permutation of its `items()`) sorted by `str(label)`, with edges of equal
   * label text kept in `items()` order.
   */
  lemma BfsNodeEdges(g: Graph, starts: seq<Node>, n: Node)
    ensures TriplesFrom(BfsTriples(g, starts), n) ==
            if n in BfsOrder(g, starts) then EdgeTriples(n, SortedOut(g, n)) else []
    ensures SortedBy(SortedOut(g, n), EdgeLe)
    ensures multiset(SortedOut(g, n)) == multiset(Out(g, n))
    ensures forall e :: KeyClass(SortedOut(g, n), EdgeLe, e) == KeyClass(Out(g, n), EdgeLe, e)
  {
    BfsOrderIsBfs(g, starts);
    TriplesFromBlocks(g, BfsOrder(g, starts), n);
    EdgeLeTotalPreorder();
    SortBySorted(Out(g, n), EdgeLe);
    forall e ensures KeyClass(SortedOut(g, n), EdgeLe, e) == KeyClass(Out(g, n), EdgeLe, e) {
      SortByStable(Out(g, n), EdgeLe, e);
    }
  }
}
