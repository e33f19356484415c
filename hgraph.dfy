// The Hgraph object: a `defaultdict(ListMap)` from a node to the ListMap of
// its out-edges (edge label -> list of tail tuples), plus the list of roots,
// the node-to-concept map and the memoised result of `triples()`.
//
// Reading a missing node through `self[node]` inserts an empty ListMap (the
// defaultdict's `__missing__`); such entries hold no edge, so the graph the
// edges describe (View) does not change.  The memoised listing is a field:
// `None` and `[]` are both falsy in the source and both read as "no cache"
// here.
module Hypergraphs {
  import opened Wrappers
  import opened Seqs
  import opened Sorting
  import opened Labels
  import opened ListMaps
  import opened Graphs
  import opened GraphQueries

  type Adjacency = map<Node, Store<Label, seq<Node>>>

  ghost predicate AdjValid(adj: Adjacency)
  {
    forall n :: n in adj ==> Valid(adj[n])
  }

  /** The ListMap holds no label with an empty list of tail tuples. */
  ghost predicate NonEmptyLists(m: Store<Label, seq<Node>>)
  {
    forall k :: k in m.vals ==> m.vals[k] != []
  }

  ghost predicate NoEmptyLists(adj: Adjacency)
  {
    forall n :: n in adj ==> NonEmptyLists(adj[n])
  }

  /** `b` is `a` with some nodes added, each holding an empty ListMap. */
  ghost predicate Extends(a: Adjacency, b: Adjacency)
  {
    (forall n :: n in a ==> n in b && b[n] == a[n]) &&
    (forall n :: n in b && n !in a ==> b[n] == Empty())
  }

  /** The graph the edges describe: every node with at least one out-edge, with its `items()`. */
  function View(adj: Adjacency): Graph
    requires AdjValid(adj)
  {
    map n | n in adj && Items(adj[n]) != [] :: Items(adj[n])
  }

  lemma OutView(adj: Adjacency, n: Node)
    requires AdjValid(adj)
    ensures Out(View(adj), n) == if n in adj then Items(adj[n]) else []
  {
  }

  /** `self[n]`: a missing node is inserted with an empty ListMap. */
  function Materialize(adj: Adjacency, n: Node): (r: Adjacency)
    requires AdjValid(adj)
    ensures AdjValid(r) && n in r && View(r) == View(adj)
    ensures Extends(adj, r) && (NoEmptyLists(adj) ==> NoEmptyLists(r))
    ensures forall m :: m in r <==> m in adj || m == n
    ensures forall m :: m in adj ==> r[m] == adj[m]
    ensures n !in adj ==> r[n] == Empty()
  {
    if n in adj then adj
    else
      InsertEmptyView(adj, n);
      adj[n := Empty()]
  }

  /** A node holding an empty ListMap adds no edge. */
  lemma InsertEmptyView(adj: Adjacency, n: Node)
    requires AdjValid(adj) && n !in adj
    ensures AdjValid(adj[n := Empty()]) && View(adj[n := Empty()]) == View(adj)
  {
    var r := adj[n := Empty()];
    assert Items(Empty<Label, seq<Node>>()) == [];
    assert View(r) == View(adj);
  }

  /** The tail argument of `_add_triple`: a tuple, or a single node that is wrapped into one. */
  datatype Child = One(node: Node) | Many(nodes: seq<Node>)

  function TailTuple(c: Child): (t: seq<Node>)
    ensures c.One? ==> t == [c.node]
    ensures c.Many? ==> t == c.nodes
  {
    match c
    case One(n) => [n]
    case Many(ns) => ns
  }

  function MaterializeAll(adj: Adjacency, ns: seq<Node>): (r: Adjacency)
    requires AdjValid(adj)
    decreases |ns|
    ensures AdjValid(r) && View(r) == View(adj)
    ensures forall m :: m in r <==> m in adj || m in ns
    ensures forall m :: m in adj ==> r[m] == adj[m]
    ensures forall m :: m in r && m !in adj ==> r[m] == Empty()
    ensures Extends(adj, r) && (NoEmptyLists(adj) ==> NoEmptyLists(r))
  {
    if ns == [] then adj else Materialize(MaterializeAll(adj, ns[..|ns| - 1]), ns[|ns| - 1])
  }

  /**
   * `_add_triple(parent, relation, child)`: every tail node and the parent
   * are read through `self[...]` (inserting empty ListMaps), then
   * `(relation, tails)` is appended to the parent's ListMap.
   */
  function AddTripleTo(adj: Adjacency, parent: Node, relation: Label, child: Child): (r: Adjacency)
    requires AdjValid(adj)
    ensures AdjValid(r)
  {
    var a := Materialize(MaterializeAll(adj, TailTuple(child)), parent);
    a[parent := Append(a[parent], relation, TailTuple(child))]
  }

  /** The ListMap `self[n]` reads: the stored one, or a fresh empty one. */
  function StoreAt(adj: Adjacency, n: Node): (m: Store<Label, seq<Node>>)
    requires AdjValid(adj)
    ensures Valid(m)
  {
    if n in adj then adj[n] else Empty()
  }

  /**
   * Adding a triple adds exactly one out-edge, `(relation, tails)`, to the
   * parent: it is the last of the parent's tuples under that label, every
   * other node keeps its edges, and the parent and every tail become nodes.
   */
  lemma AddTripleEffect(adj: Adjacency, parent: Node, relation: Label, child: Child)
    requires AdjValid(adj)
    ensures parent in AddTripleTo(adj, parent, relation, child)
    ensures forall c :: c in TailTuple(child) ==> c in AddTripleTo(adj, parent, relation, child)
    ensures Lookup(AddTripleTo(adj, parent, relation, child)[parent], relation) ==
            Lookup(StoreAt(adj, parent), relation) + [TailTuple(child)]
    ensures multiset(Out(View(AddTripleTo(adj, parent, relation, child)), parent)) ==
            multiset(Out(View(adj), parent)) + multiset{(relation, TailTuple(child))}
    ensures forall n :: n != parent ==> Out(View(AddTripleTo(adj, parent, relation, child)), n) == Out(View(adj), n)
  {
    var tails := TailTuple(child);
    var a := Materialize(MaterializeAll(adj, tails), parent);
    var r := AddTripleTo(adj, parent, relation, child);
    assert a[parent] == StoreAt(adj, parent);
    AppendThenGetAll(a[parent], relation, tails, relation);
    AppendItems(a[parent], relation, tails);
    OutView(a, parent);
    OutView(adj, parent);
    OutView(r, parent);
    forall n | n != parent ensures Out(View(r), n) == Out(View(adj), n) {
      OutView(r, n);
      OutView(a, n);
    }
  }

  /** Whether `start_node` is truthy: given and not the empty string. */
  predicate Truthy(start: Option<Node>)
  {
    start.Some? && start.value != ""
  }

  function StartsOf(start: Option<Node>, roots: seq<Node>): seq<Node>
  {
    if Truthy(start) then [start.value] else roots
  }

  /** The nodes mentioned by the listing from `r`: what `find_roots` marks as found. */
  function Reached(g: Graph, r: Node): set<Node>
  {
    Elems(NodeStream(BfsTriples(g, [r])))
  }

  /** The nodes mentioned by the listings from each of `rs`. */
  ghost function ReachedAll(g: Graph, rs: seq<Node>): set<Node>
  {
    set r, n | r in rs && n in Reached(g, r) :: n
  }

  /** Every tail tuple stored for a node of `S`, flattened. */
  ghost function TailsAt(g: Graph, S: set<Node>): set<Node>
  {
    set n, i, c | n in S && n in g && 0 <= i < |g[n]| && c in g[n][i].1 :: c
  }

  ghost function EdgeSet(es: seq<Edge>): set<Node>
  {
    set i, c | 0 <= i < |es| && c in es[i].1 :: c
  }

  ghost function ValueSet(vs: seq<seq<Node>>): set<Node>
  {
    set i, c | 0 <= i < |vs| && c in vs[i] :: c
  }

  // ---------------------------------------------------------------------------
  // The loops of `triples()` for one expanded node

  /** Pushes the tails not in `tabu`, in order (`if not c in tabu: queue.append(...)`). */
  method PushTails(tails: seq<Node>, tabu: set<Node>, queue: seq<Node>) returns (queue': seq<Node>)
    ensures queue' == queue + Without(tails, tabu)
  {
    queue' := queue;
    for j := 0 to |tails|
      invariant queue' == queue + Without(tails[..j], tabu)
    {
      WithoutAppend(tails[..j], [tails[j]], tabu);
      assert tails[..j + 1] == tails[..j] + [tails[j]];
      if tails[j] !in tabu {
        queue' := queue' + [tails[j]];
      }
    }
    assert tails[..|tails|] == tails;
  }

  /** Lists the sorted edges of `x` and queues their unvisited tails. */
  method ExpandEdges(x: Node, es: seq<Edge>, tabu: set<Node>, queue: seq<Node>, ts: seq<Triple>)
    returns (queue': seq<Node>, ts': seq<Triple>)
    ensures queue' == queue + Without(EdgeTails(es), tabu)
    ensures ts' == ts + EdgeTriples(x, es)
  {
    queue', ts' := queue, ts;
    for k := 0 to |es|
      invariant queue' == queue + Without(EdgeTails(es[..k]), tabu)
      invariant ts' == ts + EdgeTriples(x, es[..k])
    {
      EdgeStep(x, es, k, tabu, queue, ts);
      ts' := ts' + [Triple(x, es[k].0, es[k].1)];
      queue' := PushTails(es[k].1, tabu, queue');
    }
    assert es[..|es|] == es;
  }

  lemma EdgeStep(x: Node, es: seq<Edge>, k: nat, tabu: set<Node>, queue: seq<Node>, ts: seq<Triple>)
    requires k < |es|
    ensures queue + Without(EdgeTails(es[..k + 1]), tabu) == (queue + Without(EdgeTails(es[..k]), tabu)) + Without(es[k].1, tabu)
    ensures ts + EdgeTriples(x, es[..k + 1]) == (ts + EdgeTriples(x, es[..k])) + [Triple(x, es[k].0, es[k].1)]
  {
    EdgeTailsSnoc(es, k);
    EdgeTriplesSnoc(x, es, k);
    QueueStep(queue, EdgeTails(es[..k]), es[k].1, tabu);
  }

  lemma QueueStep(queue: seq<Node>, a: seq<Node>, b: seq<Node>, tabu: set<Node>)
    ensures queue + Without(a + b, tabu) == (queue + Without(a, tabu)) + Without(b, tabu)
  {
    WithoutAppend(a, b, tabu);
  }

  lemma EdgeTailsSnoc(es: seq<Edge>, k: nat)
    requires k < |es|
    ensures EdgeTails(es[..k + 1]) == EdgeTails(es[..k]) + es[k].1
  {
    var p := es[..k + 1];
    assert p[..|p| - 1] == es[..k] && p[|p| - 1] == es[k];
  }

  lemma EdgeTriplesSnoc(x: Node, es: seq<Edge>, k: nat)
    requires k < |es|
    ensures EdgeTriples(x, es[..k + 1]) == EdgeTriples(x, es[..k]) + [Triple(x, es[k].0, es[k].1)]
  {
    var p := es[..k + 1];
    assert p[..|p| - 1] == es[..k] && p[|p| - 1] == es[k];
  }

  /** Removes from `notFound` the parent and the tails of every listed triple. */
  method Discard(notFound: set<Node>, ts: seq<Triple>) returns (r: set<Node>)
    ensures r == notFound - Elems(NodeStream(ts))
  {
    r := notFound;
    for k := 0 to |ts|
      invariant r == notFound - Elems(NodeStream(ts[..k]))
    {
      NodeStreamSnoc(ts, k);
      r := r - {ts[k].src} - Elems(ts[k].tails);
    }
    assert ts[..|ts|] == ts;
  }

  /** `children.update(v)` for every value `v` of one ListMap. */
  method UnionValues(vs: seq<seq<Node>>, children: set<Node>) returns (r: set<Node>)
    ensures r == children + ValueSet(vs)
  {
    r := children;
    for j := 0 to |vs|
      invariant r == children + ValueSet(vs[..j])
    {
      ValueSetSnoc(vs, j);
      r := r + Elems(vs[j]);
    }
    assert vs[..|vs|] == vs;
  }

  class Hgraph {
    var adj: Adjacency
    var roots: seq<Node>
    var concepts: map<Node, string>
    var cached: seq<Triple>

    ghost predicate Inv()
      reads this
    {
      AdjValid(adj) && NoEmptyLists(adj)
    }

    constructor ()
      ensures Inv() && adj == map[] && roots == [] && concepts == map[] && cached == []
    {
      adj := map[];
      roots := [];
      concepts := map[];
      cached := [];
    }

    function Edges(): Graph
      requires Inv()
      reads this
    {
      View(adj)
    }

    /** `_add_triple`: the warnings about self-edges and cycles never stop the insertion. */
    method AddTriple(parent: Node, relation: Label, child: Child)
      requires Inv()
      modifies this
      ensures Inv()
      ensures adj == AddTripleTo(old(adj), parent, relation, child)
      ensures roots == old(roots) && concepts == old(concepts) && cached == old(cached)
    {
      var tails := TailTuple(child);
      MaterializeTails(tails);
      adj := Materialize(adj, parent);
      AppendKeepsLists(adj, parent, relation, tails);
      adj := adj[parent := Append(adj[parent], relation, tails)];
    }

    /** `self[c]` for every tail node `c`, in order. */
    method MaterializeTails(tails: seq<Node>)
      requires Inv()
      modifies this
      ensures Inv() && adj == MaterializeAll(old(adj), tails)
      ensures roots == old(roots) && concepts == old(concepts) && cached == old(cached)
    {
      ghost var a0 := adj;
      for j := 0 to |tails|
        invariant adj == MaterializeAll(a0, tails[..j])
        invariant AdjValid(adj) && NoEmptyLists(adj)
        invariant roots == old(roots) && concepts == old(concepts) && cached == old(cached)
      {
        assert tails[..j + 1] == tails[..j] + [tails[j]];
        MaterializeSnoc(a0, tails[..j], tails[j]);
        adj := Materialize(adj, tails[j]);
      }
      assert tails[..|tails|] == tails;
    }

    /**
     * `triples(start_node, refresh)`: the memoised listing is returned when
     * neither `refresh` nor a truthy `start_node` is given and it is non-empty;
     * otherwise the breadth-first loop runs from `start_node` or the roots,
     * and its result is memoised unless a start node was given.
     */
    method Triples(start: Option<Node>, refresh: bool) returns (ts: seq<Triple>)
      requires Inv()
      modifies this
      ensures Inv() && View(adj) == View(old(adj)) && Extends(old(adj), adj)
      ensures roots == old(roots) && concepts == old(concepts)
      ensures !refresh && !Truthy(start) && old(cached) != [] ==> ts == old(cached)
      ensures refresh || Truthy(start) || old(cached) == [] ==>
                ts == BfsTriples(View(old(adj)), StartsOf(start, old(roots)))
      ensures cached == if Truthy(start) then old(cached) else ts
    {
      if !refresh && !Truthy(start) && cached != [] {
        return cached;
      }
      ts := Walk(StartsOf(start, roots));
      if !Truthy(start) {
        cached := ts;
      }
    }

    /** The breadth-first loop of `triples()` from `starts`. */
    method Walk(starts: seq<Node>) returns (ts: seq<Triple>)
      requires Inv()
      modifies this
      ensures Inv() && View(adj) == View(old(adj)) && Extends(old(adj), adj)
      ensures roots == old(roots) && concepts == old(concepts) && cached == old(cached)
      ensures ts == BfsTriples(View(old(adj)), starts)
    {
      ghost var a0 := adj;
      ghost var g := View(adj);
      ghost var U := AllTails(g) + Elems(starts);
      ghost var order: seq<Node> := [];
      var queue := starts;
      var tabu: set<Node> := {};
      ts := [];
      BfsStart(g, starts);
      while queue != []
        invariant adj == MaterializeAll(a0, order)
        invariant roots == old(roots) && concepts == old(concepts) && cached == old(cached)
        invariant BfsState(g, U, starts, order, queue, tabu, ts)
        decreases |U - tabu|, |queue|
      {
        var x := queue[0];
        if x in tabu {
          SkipStep(g, U, starts, order, queue, tabu, ts);
          queue := queue[1..];
        } else {
          FreshStep(g, U, starts, order, queue, tabu, ts);
          TabuGrows(U, tabu, x);
          tabu := tabu + {x};
          MaterializeSnoc(a0, order, x);
          queue, ts := ExpandNode(x, tabu, queue[1..], ts);
          order := order + [x];
        }
      }
      BfsDone(g, U, starts, order, tabu, ts);
    }

    /** One expansion: `self[x]` is read, and its edges, sorted by label, are listed and queued. */
    method ExpandNode(x: Node, tabu: set<Node>, queue: seq<Node>, ts: seq<Triple>) returns (queue': seq<Node>, ts': seq<Triple>)
      requires Inv()
      modifies this
      ensures Inv() && adj == Materialize(old(adj), x)
      ensures roots == old(roots) && concepts == old(concepts) && cached == old(cached)
      ensures queue' == queue + Without(EdgeTails(SortedOut(View(old(adj)), x)), tabu)
      ensures ts' == ts + EdgeTriples(x, SortedOut(View(old(adj)), x))
    {
      adj := Materialize(adj, x);
      OutView(adj, x);
      var es := SortBy(Items(adj[x]), EdgeLe);
      queue', ts' := ExpandEdges(x, es, tabu, queue, ts);
    }

    /** `children` of `find_roots`: every node stored in a tail tuple. */
    method Children() returns (children: set<Node>)
      requires Inv()
      ensures children == AllTails(View(adj))
    {
      var parents := Enumerate(adj.Keys);
      children := {};
      for i := 0 to |parents|
        invariant children == TailsAt(View(adj), Elems(parents[..i]))
      {
        var p := parents[i];
        assert Elems(parents[..i + 1]) == Elems(parents[..i]) + {p} by {
          assert parents[..i + 1] == parents[..i] + [p];
        }
        TailsAtAdd(View(adj), Elems(parents[..i]), p);
        OutView(adj, p);
        ValuesEdgeSet(adj[p]);
        children := UnionValues(Values(adj[p]), children);
      }
      assert parents[..|parents|] == parents;
      TailsAtAll(View(adj), adj.Keys);
    }

    /** The first loop of `find_roots`: the nodes mentioned by the listing from each root are found. */
    method DiscardReached(rs: seq<Node>, notFound: set<Node>) returns (nf: set<Node>)
      requires Inv() && forall r :: r in rs ==> r != ""
      modifies this
      ensures Inv() && View(adj) == View(old(adj)) && Extends(old(adj), adj)
      ensures roots == old(roots) && concepts == old(concepts) && cached == old(cached)
      ensures nf == notFound - ReachedAll(View(old(adj)), rs)
    {
      nf := notFound;
      for i := 0 to |rs|
        invariant Inv() && View(adj) == View(old(adj)) && Extends(old(adj), adj)
        invariant roots == old(roots) && concepts == old(concepts) && cached == old(cached)
        invariant nf == notFound - ReachedAll(View(old(adj)), rs[..i])
      {
        ghost var before := adj;
        assert rs[i] in rs && rs[..i + 1] == rs[..i] + [rs[i]];
        var ts := Triples(Some(rs[i]), false);
        ExtendsTrans(old(adj), before, adj);
        nf := Discard(nf, ts);
        ReachedAllSnoc(View(old(adj)), rs, i);
      }
      assert rs[..|rs|] == rs;
    }

    /** `[x for x in not_found if self[x]]`: each node is read through `self[x]`. */
    method Candidates(nf: seq<Node>) returns (cands: seq<Node>)
      requires Inv()
      modifies this
      ensures Inv() && View(adj) == View(old(adj)) && Extends(old(adj), adj)
      ensures roots == old(roots) && concepts == old(concepts) && cached == old(cached)
      ensures forall x :: x in cands <==> x in nf && x in old(adj) && old(adj)[x].keys != []
    {
      cands := [];
      for i := 0 to |nf|
        invariant Inv() && View(adj) == View(old(adj)) && Extends(old(adj), adj)
        invariant roots == old(roots) && concepts == old(concepts) && cached == old(cached)
        invariant forall x :: x in cands <==> x in nf[..i] && x in old(adj) && old(adj)[x].keys != []
      {
        assert nf[..i + 1] == nf[..i] + [nf[i]];
        ghost var before := adj;
        adj := Materialize(adj, nf[i]);
        ExtendsTrans(old(adj), before, adj);
        if adj[nf[i]].keys != [] {
          cands := cands + [nf[i]];
        }
      }
      assert nf[..|nf|] == nf;
    }

    /** `len(self.triples(start_node=a))` for each candidate. */
    method Lengths(cands: seq<Node>) returns (lens: map<Node, int>)
      requires Inv() && forall c :: c in cands ==> c != ""
      modifies this
      ensures Inv() && View(adj) == View(old(adj)) && Extends(old(adj), adj)
      ensures roots == old(roots) && concepts == old(concepts) && cached == old(cached)
      ensures forall c :: c in cands ==> c in lens && lens[c] == |BfsTriples(View(old(adj)), [c])|
    {
      lens := map[];
      for i := 0 to |cands|
        invariant Inv() && View(adj) == View(old(adj)) && Extends(old(adj), adj)
        invariant roots == old(roots) && concepts == old(concepts) && cached == old(cached)
        invariant forall c :: c in cands[..i] ==> c in lens && lens[c] == |BfsTriples(View(old(adj)), [c])|
      {
        assert cands[..i + 1] == cands[..i] + [cands[i]];
        ghost var before := adj;
        assert cands[i] in cands;
        var ts := Triples(Some(cands[i]), false);
        ExtendsTrans(old(adj), before, adj);
        lens := lens[cands[i] := |ts|];
      }
      assert cands[..|cands|] == cands;
    }

    /**
     * `sorted(candidates, key=len(triples(start_node=a))).pop()`: a candidate
     * whose listing is longest.
     */
    method PickRoot(cands: seq<Node>) returns (newRoot: Node)
      requires Inv() && cands != [] && forall c :: c in cands ==> c != ""
      modifies this
      ensures Inv() && View(adj) == View(old(adj)) && Extends(old(adj), adj)
      ensures roots == old(roots) && concepts == old(concepts) && cached == old(cached)
      ensures newRoot in cands
      ensures forall c :: c in cands ==> |BfsTriples(View(old(adj)), [c])| <= |BfsTriples(View(old(adj)), [newRoot])|
    {
      var lens := Lengths(cands);
      var key := (n: Node) => if n in lens then lens[n] else 0;
      SortByKeyLastMax(cands, key);
      var sorted := SortBy(cands, ByKey(key));
      newRoot := sorted[|sorted| - 1];
    }

    /**
     * One round of the `while not_found` loop of `find_roots`, up to the
     * choice: no choice when no unfound node has edges, otherwise an unfound
     * node with edges whose listing is longest.
     */
    method NextRoot(notFound: set<Node>) returns (next: Option<Node>, nf: seq<Node>)
      requires Inv() && forall x :: x in adj && adj[x].keys != [] ==> x != ""
      modifies this
      ensures Inv() && View(adj) == View(old(adj)) && Extends(old(adj), adj)
      ensures roots == old(roots) && concepts == old(concepts) && cached == old(cached)
      ensures Distinct(nf) && Elems(nf) == notFound
      ensures next.None? <==> forall x :: x in notFound && x in old(adj) ==> old(adj)[x].keys == []
      ensures next.Some? ==> next.value in notFound && next.value in old(adj) && old(adj)[next.value].keys != []
      ensures next.Some? ==> forall x :: x in notFound && x in old(adj) && old(adj)[x].keys != [] ==>
                |BfsTriples(View(old(adj)), [x])| <= |BfsTriples(View(old(adj)), [next.value])|
    {
      nf := Enumerate(notFound);
      var cands := Candidates(nf);
      if cands == [] {
        return None, nf;
      }
      assert cands[0] in cands;
      ghost var before := adj;
      var newRoot := PickRoot(cands);
      ExtendsTrans(old(adj), before, adj);
      next := Some(newRoot);
    }

    /**
     * The first part of `find_roots()`: the parents that are nobody's child
     * are roots, and the listing from each root marks nodes as found.
     */
    method FirstRoots() returns (rs: seq<Node>, notFound: set<Node>)
      requires Inv() && "" !in adj
      modifies this
      ensures Inv() && View(adj) == View(old(adj)) && Extends(old(adj), adj)
      ensures roots == old(roots) && concepts == old(concepts) && cached == old(cached)
      ensures RootsState(View(old(adj)), old(adj).Keys + AllTails(View(old(adj))),
                         old(adj).Keys - AllTails(View(old(adj))), rs, notFound)
    {
      var parents := adj.Keys;
      var children := Children();
      rs := Enumerate(parents - children);
      assert "" !in parents - children;
      assert forall r :: r in rs ==> r in Elems(rs) && r != "";
      notFound := DiscardReached(rs, parents + children);
      RootsStart(View(old(adj)), parents + children, parents - children, rs);
    }

    /**
     * `find_roots()`: after the first roots, while some node is not found,
     * the unfound node with edges whose listing is longest becomes a root;
     * when no unfound node has edges, all of them are appended as roots.
     */
    method FindRoots() returns (rs: seq<Node>)
      requires Inv() && "" !in adj
      modifies this
      ensures Inv() && View(adj) == View(old(adj)) && Extends(old(adj), adj)
      ensures roots == old(roots) && concepts == old(concepts) && cached == old(cached)
      ensures old(adj).Keys - AllTails(View(old(adj))) <= Elems(rs)
      ensures Elems(rs) <= old(adj).Keys + AllTails(View(old(adj)))
      ensures old(adj).Keys + AllTails(View(old(adj))) <= Elems(rs) + ReachedAll(View(old(adj)), rs)
    {
      ghost var g := View(adj);
      ghost var a0 := adj;
      ghost var N := adj.Keys + AllTails(g);
      ghost var P := adj.Keys - AllTails(g);
      var notFound;
      rs, notFound := FirstRoots();
      while notFound != {}
        invariant Inv() && View(adj) == g && Extends(a0, adj)
        invariant roots == old(roots) && concepts == old(concepts) && cached == old(cached)
        invariant RootsState(g, N, P, rs, notFound)
        decreases |notFound|
      {
        var stop;
        rs, notFound, stop := NewRoot(a0, N, P, rs, notFound);
        if stop {
          return;
        }
      }
      RootsDone(g, N, P, rs, []);
      assert rs + [] == rs;
    }

    /**
     * One round of the `while not_found` loop of `find_roots`: either every
     * unfound node is appended as a root and the loop stops, or the chosen
     * node becomes a root and its listing marks nodes as found.
     */
    method NewRoot(ghost a0: Adjacency, ghost N: set<Node>, ghost P: set<Node>, rs: seq<Node>, notFound: set<Node>)
      returns (rs': seq<Node>, notFound': set<Node>, stop: bool)
      requires Inv() && AdjValid(a0) && NoEmptyLists(a0) && "" !in a0
      requires View(adj) == View(a0) && Extends(a0, adj)
      requires RootsState(View(a0), N, P, rs, notFound) && notFound != {}
      modifies this
      ensures Inv() && View(adj) == View(a0) && Extends(a0, adj)
      ensures roots == old(roots) && concepts == old(concepts) && cached == old(cached)
      ensures stop ==> Finished(View(a0), N, P, rs')
      ensures !stop ==> RootsState(View(a0), N, P, rs', notFound') && |notFound'| < |notFound|
    {
      ghost var g := View(a0);
      ghost var before := adj;
      NoEmptyKey(a0, adj);
      var next, nf := NextRoot(notFound);
      ExtendsTrans(a0, before, adj);
      if next.None? {
        RootsDone(g, N, P, rs, nf);
        return rs + nf, {}, true;
      }
      rs', notFound' := AddRoot(a0, N, P, rs, notFound, next.value);
      stop := false;
    }

    /** The chosen node becomes a root, and the nodes its listing mentions are found. */
    method AddRoot(ghost a0: Adjacency, ghost N: set<Node>, ghost P: set<Node>, rs: seq<Node>, notFound: set<Node>, newRoot: Node)
      returns (rs': seq<Node>, notFound': set<Node>)
      requires Inv() && AdjValid(a0) && NoEmptyLists(a0)
      requires View(adj) == View(a0) && Extends(a0, adj)
      requires RootsState(View(a0), N, P, rs, notFound)
      requires newRoot in notFound && newRoot in a0 && a0[newRoot].keys != [] && newRoot != ""
      modifies this
      ensures Inv() && View(adj) == View(a0) && Extends(a0, adj)
      ensures roots == old(roots) && concepts == old(concepts) && cached == old(cached)
      ensures RootsState(View(a0), N, P, rs', notFound') && |notFound'| < |notFound|
    {
      ghost var before := adj;
      var ts := Triples(Some(newRoot), false);
      ExtendsTrans(a0, before, adj);
      assert Valid(a0[newRoot]) && NonEmptyLists(a0[newRoot]);
      HasEdges(a0[newRoot]);
      OutView(a0, newRoot);
      RootStep(View(a0), N, P, rs, notFound, newRoot);
      notFound' := Discard(notFound, ts);
      rs' := rs + [newRoot];
    }

    /** The listing from the roots, as `triples()` with no arguments returns it. */
    method Listing() returns (ts: seq<Triple>)
      requires Inv()
      modifies this
      ensures Inv() && View(adj) == View(old(adj)) && roots == old(roots) && concepts == old(concepts)
      ensures forall n :: n in old(adj) ==> n in adj && adj[n] == old(adj)[n]
      ensures forall n :: n in adj && n !in old(adj) ==> adj[n] == Empty()
      ensures old(cached) != [] ==> ts == old(cached)
      ensures old(cached) == [] ==> ts == BfsTriples(View(old(adj)), old(roots))
      ensures cached == ts
    {
      ts := Triples(None, false);
    }

    /**
     * A second `triples()` call returns the same list as the first: the first
     * memoised its result, or the result was empty and is recomputed from an
     * unchanged graph.
     */
    method ListingTwice() returns (ts: seq<Triple>, again: seq<Triple>)
      requires Inv()
      modifies this
      ensures Inv() && View(adj) == View(old(adj)) && roots == old(roots)
      ensures again == ts
      ensures cached == ts
    {
      ts := Listing();
      again := Listing();
    }

    /** `get_ordered_nodes()`. */
    method GetOrderedNodes() returns (order: map<Node, nat>)
      requires Inv()
      modifies this
      ensures Inv() && View(adj) == View(old(adj)) && roots == old(roots)
      ensures order == Positions(FirstSeen(cached))
    {
      var ts := Listing();
      order := OrderedNodes(ts);
    }

    /** `find_leaves()`: the listing is computed once more inside `get_ordered_nodes()` and is the same. */
    method FindLeaves() returns (leaves: seq<Node>)
      requires Inv()
      modifies this
      ensures Inv() && View(adj) == View(old(adj)) && roots == old(roots)
      ensures forall n :: n in leaves <==> n in NodeStream(cached) && forall t :: t in cached ==> t.src != n
      ensures Distinct(leaves)
      ensures forall n :: n in leaves ==> n in Positions(FirstSeen(cached))
      ensures forall i, j :: 0 <= i < j < |leaves| ==>
                Positions(FirstSeen(cached))[leaves[i]] < Positions(FirstSeen(cached))[leaves[j]]
    {
      var ts, again := ListingTwice();
      leaves := GraphQueries.FindLeaves(ts);
    }

    /** `get_reentrant_nodes()`. */
    method GetReentrantNodes() returns (nodes: seq<Node>)
      requires Inv()
      modifies this
      ensures Inv() && View(adj) == View(old(adj)) && roots == old(roots)
      ensures forall n :: n in nodes <==> InDegree(cached, n) > 1
      ensures Distinct(nodes)
      ensures forall n :: n in nodes ==> n in Positions(FirstSeen(cached))
      ensures forall i, j :: 0 <= i < j < |nodes| ==>
                Positions(FirstSeen(cached))[nodes[i]] < Positions(FirstSeen(cached))[nodes[j]]
    {
      var ts, again := ListingTwice();
      nodes := ReentrantNodes(ts);
    }

    /** `nonterminal_edges()`. */
    method GetNonterminalEdges() returns (r: seq<Triple>)
      requires Inv()
      modifies this
      ensures Inv() && View(adj) == View(old(adj)) && roots == old(roots)
      ensures r == NonterminalEdges(cached)
    {
      var ts := Listing();
      r := NonterminalEdges(ts);
    }

    /** `get_terminals_and_nonterminals(nodelabels)`. */
    method GetTerminalsAndNonterminals(nodelabels: bool) returns (r: Result<(set<TerminalKey>, set<string>), GraphError>)
      requires Inv()
      modifies this
      ensures Inv() && View(adj) == View(old(adj)) && roots == old(roots) && concepts == old(concepts)
      ensures r.Err? <==> nodelabels && exists t :: t in cached && t.rel.Terminal? && !Known(t, concepts)
      ensures r.Ok? ==> r.value.1 == set t | t in cached && t.rel.Nt? :: t.rel.nt.symbol
      ensures r.Ok? ==> r.value.0 == set t | t in cached && t.rel.Terminal? && (nodelabels ==> Known(t, concepts)) :: TermKey(t, nodelabels, concepts)
    {
      var ts := Listing();
      r := TerminalsAndNonterminals(ts, nodelabels, concepts);
    }
  }

  lemma ValueSetSnoc(vs: seq<seq<Node>>, j: nat)
    requires j < |vs|
    ensures ValueSet(vs[..j + 1]) == ValueSet(vs[..j]) + Elems(vs[j])
  {
    var a, b := vs[..j + 1], vs[..j];
    assert a[j] == vs[j];
    forall c | c in ValueSet(a) ensures c in ValueSet(b) + Elems(vs[j]) {
      var i :| 0 <= i < |a| && c in a[i];
      if i < j {
        assert a[i] == b[i];
      }
    }
    forall c | c in ValueSet(b) ensures c in ValueSet(a) {
      var i :| 0 <= i < |b| && c in b[i];
      assert a[i] == b[i];
    }
  }

  lemma ValuesEdgeSet(m: Store<Label, seq<Node>>)
    requires Valid(m)
    ensures ValueSet(Values(m)) == EdgeSet(Items(m))
  {
    var vs, es := Values(m), Items(m);
    forall c | c in ValueSet(vs) ensures c in EdgeSet(es) {
      var i :| 0 <= i < |vs| && c in vs[i];
      assert c in es[i].1;
    }
    forall c | c in EdgeSet(es) ensures c in ValueSet(vs) {
      var i :| 0 <= i < |es| && c in es[i].1;
      assert c in vs[i];
    }
  }

  lemma TailsAtAdd(g: Graph, S: set<Node>, p: Node)
    ensures TailsAt(g, S + {p}) == TailsAt(g, S) + EdgeSet(Out(g, p))
  {
    forall c | c in TailsAt(g, S + {p}) ensures c in TailsAt(g, S) + EdgeSet(Out(g, p)) {
      var n, i :| n in S + {p} && n in g && 0 <= i < |g[n]| && c in g[n][i].1;
      if n !in S {
        assert c in Out(g, p)[i].1;
      }
    }
    forall c | c in EdgeSet(Out(g, p)) ensures c in TailsAt(g, S + {p}) {
      var i :| 0 <= i < |Out(g, p)| && c in Out(g, p)[i].1;
      assert p in g && c in g[p][i].1;
    }
  }

  lemma TailsAtAll(g: Graph, S: set<Node>)
    requires g.Keys <= S
    ensures TailsAt(g, S) == AllTails(g)
  {
  }

  lemma ReachedAllSnoc(g: Graph, rs: seq<Node>, i: nat)
    requires i < |rs|
    ensures ReachedAll(g, rs[..i + 1]) == ReachedAll(g, rs[..i]) + Reached(g, rs[i])
  {
    assert rs[..i + 1] == rs[..i] + [rs[i]];
  }

  lemma ReachedAllGrows(g: Graph, rs: seq<Node>, xs: seq<Node>)
    ensures ReachedAll(g, rs) <= ReachedAll(g, rs + xs)
    ensures forall x :: x in xs ==> Reached(g, x) <= ReachedAll(g, rs + xs)
  {
  }

  /** A node with out-edges is its own listing's first parent. */
  lemma RootReached(g: Graph, r: Node)
    requires Out(g, r) != []
    ensures r in Reached(g, r)
  {
    BfsCoversStarts(g, [r]);
    BfsNodeEdges(g, [r], r);
    var ts := BfsTriples(g, [r]);
    var es := EdgeTriples(r, SortedOut(g, r));
    assert |es| == |Out(g, r)| > 0;
    TriplesFromMember(ts, r, es[0]);
    TripleInStream(ts, es[0]);
  }

  /** A ListMap with a key holds an item, as no list is empty. */
  lemma HasEdges(m: Store<Label, seq<Node>>)
    requires Valid(m) && NonEmptyLists(m) && m.keys != []
    ensures Items(m) != []
  {
    assert m.keys[0] in m.vals;
    assert |Pairs(m.keys[0], m.vals[m.keys[0]])| > 0;
  }

  lemma ExtendsTrans(a: Adjacency, b: Adjacency, c: Adjacency)
    requires Extends(a, b) && Extends(b, c)
    ensures Extends(a, c)
  {
  }

  /** What the loops of `find_roots` keep: `P` are roots, and each found node of `N` is a root or reached by one. */
  ghost predicate RootsState(g: Graph, N: set<Node>, P: set<Node>, rs: seq<Node>, notFound: set<Node>)
  {
    P <= Elems(rs) && Elems(rs) <= N && notFound <= N && N - notFound <= Elems(rs) + ReachedAll(g, rs)
  }

  lemma RootsStart(g: Graph, N: set<Node>, P: set<Node>, rs: seq<Node>)
    requires P <= N && Elems(rs) == P
    ensures RootsState(g, N, P, rs, N - ReachedAll(g, rs))
  {
  }

  lemma RootStep(g: Graph, N: set<Node>, P: set<Node>, rs: seq<Node>, notFound: set<Node>, x: Node)
    requires RootsState(g, N, P, rs, notFound) && x in notFound && Out(g, x) != []
    ensures RootsState(g, N, P, rs + [x], notFound - Elems(NodeStream(BfsTriples(g, [x]))))
    ensures |notFound - Elems(NodeStream(BfsTriples(g, [x])))| < |notFound|
  {
    RootReached(g, x);
    ReachedAllGrows(g, rs, [x]);
    ElemsConcat(rs, [x]);
    CoverStep(N, notFound, Elems(rs), ReachedAll(g, rs), ReachedAll(g, rs + [x]), Reached(g, x), x);
  }

  /** The set algebra of one round of `find_roots`. */
  lemma CoverStep(N: set<Node>, nf: set<Node>, E: set<Node>, A: set<Node>, A': set<Node>, R: set<Node>, x: Node)
    requires nf <= N && N - nf <= E + A && A <= A' && R <= A' && x in nf && x in R
    ensures N - (nf - R) <= (E + {x}) + A'
    ensures |nf - R| < |nf|
  {
    forall n | n in N - (nf - R) ensures n in (E + {x}) + A' {
      if n !in nf {
        assert n in N - nf;
      }
    }
    SubsetCard(nf - R, nf - {x});
  }

  lemma SubsetCard(a: set<Node>, b: set<Node>)
    requires a <= b
    ensures |a| <= |b|
    decreases |b|
  {
    if a != {} {
      var y :| y in a;
      SubsetCard(a - {y}, b - {y});
    }
  }

  /** What `find_roots` promises on return: every node of `N` is a root or reached by one. */
  ghost predicate Finished(g: Graph, N: set<Node>, P: set<Node>, rs: seq<Node>)
  {
    P <= Elems(rs) && Elems(rs) <= N && N <= Elems(rs) + ReachedAll(g, rs)
  }

  lemma RootsDone(g: Graph, N: set<Node>, P: set<Node>, rs: seq<Node>, nf: seq<Node>)
    requires RootsState(g, N, P, rs, Elems(nf))
    ensures Finished(g, N, P, rs + nf)
  {
    ReachedAllGrows(g, rs, nf);
    ElemsConcat(rs, nf);
    CoverDone(N, Elems(nf), Elems(rs), ReachedAll(g, rs), ReachedAll(g, rs + nf));
  }

  lemma CoverDone(N: set<Node>, nf: set<Node>, E: set<Node>, A: set<Node>, A': set<Node>)
    requires nf <= N && N - nf <= E + A && A <= A'
    ensures N <= (E + nf) + A'
  {
    forall n | n in N ensures n in (E + nf) + A' {
      if n !in nf {
        assert n in N - nf;
      }
    }
  }

  /** Only nodes that were there before can have edges: the empty string is never a start node. */
  lemma NoEmptyKey(a: Adjacency, b: Adjacency)
    requires Extends(a, b) && "" !in a
    ensures forall x :: x in b && b[x].keys != [] ==> x != ""
  {
    assert Empty<Label, seq<Node>>().keys == [];
  }

  lemma MaterializeSnoc(adj: Adjacency, ns: seq<Node>, n: Node)
    requires AdjValid(adj)
    ensures MaterializeAll(adj, ns + [n]) == Materialize(MaterializeAll(adj, ns), n)
  {
    assert (ns + [n])[..|ns|] == ns;
  }

  lemma AppendKeepsLists(adj: Adjacency, n: Node, rel: Label, tails: seq<Node>)
    requires AdjValid(adj) && NoEmptyLists(adj) && n in adj
    ensures AdjValid(adj[n := Append(adj[n], rel, tails)])
    ensures NoEmptyLists(adj[n := Append(adj[n], rel, tails)])
  {
    var m := adj[n];
    assert NonEmptyLists(m);
    var t := Touch(m, rel);
    assert forall k :: k in t.vals && k != rel ==> k in m.vals && t.vals[k] == m.vals[k];
  }

  /** The state of the breadth-first loop of `triples()`: what remains to be expanded, and what is listed. */
  ghost predicate BfsState(g: Graph, U: set<Node>, starts: seq<Node>, order: seq<Node>, queue: seq<Node>, tabu: set<Node>, ts: seq<Triple>)
  {
    AllTails(g) <= U && Elems(queue) <= U &&
    order + Expand(g, U, queue, tabu) == BfsOrder(g, starts) &&
    ts == Blocks(g, order)
  }

  lemma BfsStart(g: Graph, starts: seq<Node>)
    ensures BfsState(g, AllTails(g) + Elems(starts), starts, [], starts, {}, [])
  {
    assert [] + BfsOrder(g, starts) == BfsOrder(g, starts);
  }

  lemma SkipStep(g: Graph, U: set<Node>, starts: seq<Node>, order: seq<Node>, queue: seq<Node>, tabu: set<Node>, ts: seq<Triple>)
    requires BfsState(g, U, starts, order, queue, tabu, ts) && queue != [] && queue[0] in tabu
    ensures BfsState(g, U, starts, order, queue[1..], tabu, ts)
  {
    ExpandSkip(g, U, queue, tabu);
  }

  lemma FreshStep(g: Graph, U: set<Node>, starts: seq<Node>, order: seq<Node>, queue: seq<Node>, tabu: set<Node>, ts: seq<Triple>)
    requires BfsState(g, U, starts, order, queue, tabu, ts) && queue != [] && queue[0] !in tabu
    ensures BfsState(g, U, starts, order + [queue[0]],
                     queue[1..] + Without(EdgeTails(SortedOut(g, queue[0])), tabu + {queue[0]}), tabu + {queue[0]},
                     ts + EdgeTriples(queue[0], SortedOut(g, queue[0])))
  {
    var x := queue[0];
    var q' := queue[1..] + Without(EdgeTails(SortedOut(g, x)), tabu + {x});
    ExpandFresh(g, U, queue, tabu);
    assert (order + [x]) + Expand(g, U, q', tabu + {x}) == BfsOrder(g, starts) by {
      ConsAssoc(order, x, Expand(g, U, q', tabu + {x}));
    }
    BlocksSnoc(g, order, x);
  }

  lemma TabuGrows(U: set<Node>, tabu: set<Node>, x: Node)
    requires x in U && x !in tabu
    ensures |U - (tabu + {x})| < |U - tabu|
  {
    assert U - (tabu + {x}) == (U - tabu) - {x} && x in U - tabu;
  }

  lemma BfsDone(g: Graph, U: set<Node>, starts: seq<Node>, order: seq<Node>, tabu: set<Node>, ts: seq<Triple>)
    requires BfsState(g, U, starts, order, [], tabu, ts)
    ensures ts == BfsTriples(g, starts)
  {
    assert order + [] == order;
  }

  lemma BlocksSnoc(g: Graph, order: seq<Node>, x: Node)
    ensures Blocks(g, order + [x]) == Blocks(g, order) + EdgeTriples(x, SortedOut(g, x))
  {
    assert (order + [x])[..|order + [x]| - 1] == order;
  }
}
