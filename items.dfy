// Chart items of the hypergraph parser (HergItem): an item is a rule, the
// number of its first-side edges already visited, the graph edges consumed so
// far and the mapping from rule nodes to graph nodes. Items are values: shift
// and complete build new ones.
module Items {
  import opened Wrappers
  import opened Seqs
  import opened Labels
  import opened Graphs
  import opened Rules

  /** A rule an item can be built over: a graph first side with one root, visited in a fixed order of its edges. */
  predicate ItemRule(r: VoRule)
  {
    r.rhs1.GraphRhs? && |r.rhs1.graph.roots| == 1 &&
    |r.rhs1VisitOrder| == |r.rhs1.graph.triples| &&
    forall i :: 0 <= i < |r.rhs1VisitOrder| ==> 0 <= r.rhs1VisitOrder[i] < |r.rhs1.graph.triples|
  }

  /** Rules built without an explicit visit order, over a one-root graph, are item rules. */
  lemma DefaultRuleFits(ruleId: int, symbol: string, weight: real, g: RuleGraph, rhs2: Option<Rhs>,
                        vo2: Option<seq<int>>, nodelabels: bool, logprob: bool)
    requires |g.roots| == 1
    ensures MakeRule(ruleId, symbol, weight, GraphRhs(g), rhs2, None, vo2, None, nodelabels, logprob).Ok?
    ensures ItemRule(MakeRule(ruleId, symbol, weight, GraphRhs(g), rhs2, None, vo2, None, nodelabels, logprob).value)
  {
  }

  function RuleTriples(r: VoRule): seq<Triple>
    requires r.rhs1.GraphRhs?
  {
    r.rhs1.graph.triples
  }

  /** The single root of a rule's first side. */
  function Root(r: VoRule): Node
    requires ItemRule(r)
  {
    r.rhs1.graph.roots[0]
  }

  /** External node `i` of a rule's first side. */
  function Externals(r: VoRule): seq<Node>
    requires r.rhs1.GraphRhs?
  {
    r.rhs1.graph.externals
  }

  datatype Item = Item(rule: VoRule, size: nat, shifted: set<Triple>, mapping: map<Node, Node>, nodeset: set<Node>)

  /** The item with nothing consumed. */
  function Axiom(r: VoRule): (a: Item)
    ensures a.size == 0 && a.shifted == {} && a.mapping == map[] && NodesetOk(a)
  {
    Item(r, 0, {}, map[], {})
  }

  /** Nothing left to visit. */
  predicate Closed(item: Item)
    requires item.rule.rhs1.GraphRhs?
  {
    item.size >= |RuleTriples(item.rule)|
  }

  /** The rule edge the item visits next: none for a closed item. */
  function Outside(item: Item): (o: Option<Triple>)
    requires ItemRule(item.rule)
    ensures o.None? <==> Closed(item)
    ensures o.Some? ==> o.value in RuleTriples(item.rule)
    ensures o.Some? ==> o.value == RuleTriples(item.rule)[item.rule.rhs1VisitOrder[item.size]]
  {
    if Closed(item) then None
    else Some(RuleTriples(item.rule)[item.rule.rhs1VisitOrder[item.size]])
  }

  /** The next rule edge is a nonterminal edge. */
  predicate OutsideIsNonterminal(item: Item)
    requires ItemRule(item.rule)
  {
    Outside(item).Some? && Outside(item).value.rel.Nt?
  }

  /** The nonterminal symbol of the outside edge, if it has one. */
  function OutsideSymbol(item: Item): (s: Option<string>)
    requires ItemRule(item.rule)
    ensures s.Some? <==> OutsideIsNonterminal(item)
    ensures s.Some? ==> s.value == Outside(item).value.rel.nt.symbol
  {
    if OutsideIsNonterminal(item) then Some(Outside(item).value.rel.nt.symbol) else None
  }

  /** The graph nodes touched by a set of edges. */
  function Endpoints(s: set<Triple>): set<Node>
  {
    set t, n | t in s && n in [t.src] + t.tails :: n
  }

  /** `nodeset` holds exactly the endpoints of the consumed edges. */
  ghost predicate NodesetOk(item: Item)
  {
    item.nodeset == Endpoints(item.shifted)
  }

  // ---------------------------------------------------------------------------
  // Equality and hashing

  /** `__eq__`: the rule (by id), size, consumed edges and mapping; `nodeset` is not compared. */
  predicate SameItem(a: Item, b: Item)
  {
    SameRule(a.rule, b.rule) && a.size == b.size && a.shifted == b.shifted && a.mapping == b.mapping
  }

  /** `__hash__`, given a hash of edge sets. */
  function ItemHash(item: Item, setHash: set<Triple> -> int): int
  {
    2 * RuleHash(item.rule) + 3 * item.size + 5 * setHash(item.shifted)
  }

  /**
   * Equal items hash alike; and, since `nodeset` is determined by the consumed
   * edges, two items over the same rule are equal exactly when they are the
   * same value.
   */
  lemma SameItemHash(a: Item, b: Item, setHash: set<Triple> -> int)
    ensures SameItem(a, b) ==> ItemHash(a, setHash) == ItemHash(b, setHash)
    ensures NodesetOk(a) && NodesetOk(b) && a.rule == b.rule ==> (SameItem(a, b) <==> a == b)
  {
  }

  // ---------------------------------------------------------------------------
  // Mapping updates

  /** Writes `ks[i] := vs[i]` into `m` for each `i` in order; a later write to the same key wins. */
  function Assign(m: map<Node, Node>, ks: seq<Node>, vs: seq<Node>): map<Node, Node>
    requires |ks| == |vs|
    decreases |ks|
  {
    if ks == [] then m else Assign(m[ks[0] := vs[0]], ks[1..], vs[1..])
  }

  /** The keys after the writes, and keys that are not written keep their values. */
  lemma {:induction false} AssignKeys(m: map<Node, Node>, ks: seq<Node>, vs: seq<Node>)
    requires |ks| == |vs|
    ensures Assign(m, ks, vs).Keys == m.Keys + Elems(ks)
    ensures forall k :: k in m && k !in ks ==> Assign(m, ks, vs)[k] == m[k]
    decreases |ks|
  {
    if ks != [] {
      AssignKeys(m[ks[0] := vs[0]], ks[1..], vs[1..]);
      assert ks == [ks[0]] + ks[1..];
    }
  }

  /** A key whose every write repeats its value keeps it. */
  lemma {:induction false} AssignAgrees(m: map<Node, Node>, ks: seq<Node>, vs: seq<Node>, k: Node)
    requires |ks| == |vs| && k in m
    requires forall i :: 0 <= i < |ks| && ks[i] == k ==> vs[i] == m[k]
    ensures k in Assign(m, ks, vs) && Assign(m, ks, vs)[k] == m[k]
    decreases |ks|
  {
    if ks != [] {
      var m' := m[ks[0] := vs[0]];
      forall i | 0 <= i < |ks[1..]| && ks[1..][i] == k
        ensures vs[1..][i] == m'[k]
      {
        assert ks[i + 1] == k;
      }
      AssignAgrees(m', ks[1..], vs[1..], k);
    }
  }

  /** The last write to a key decides its value. */
  lemma {:induction false} AssignLast(m: map<Node, Node>, ks: seq<Node>, vs: seq<Node>, i: nat)
    requires |ks| == |vs| && i < |ks|
    requires forall j :: i < j < |ks| ==> ks[j] != ks[i]
    ensures ks[i] in Assign(m, ks, vs) && Assign(m, ks, vs)[ks[i]] == vs[i]
    decreases |ks|
  {
    var m' := m[ks[0] := vs[0]];
    if i == 0 {
      forall j | 0 <= j < |ks[1..]|
        ensures ks[1..][j] != ks[0]
      {
        assert ks[1..][j] == ks[j + 1];
      }
      AssignAgrees(m', ks[1..], vs[1..], ks[0]);
    } else {
      forall j | i - 1 < j < |ks[1..]|
        ensures ks[1..][j] != ks[1..][i - 1]
      {
        assert ks[1..][j] == ks[j + 1];
      }
      AssignLast(m', ks[1..], vs[1..], i - 1);
    }
  }

  // ---------------------------------------------------------------------------
  // Shift

  /**
   * A rule node and the graph node it would map to agree with the item: a rule
   * node already mapped maps there, and a graph node already covered must be
   * the image of some rule node.
   */
  predicate Agrees(item: Item, ruleNode: Node, graphNode: Node)
  {
    (ruleNode in item.mapping ==> item.mapping[ruleNode] == graphNode) &&
    (graphNode in item.nodeset ==> graphNode in item.mapping.Values)
  }

  /** `can_shift`: the item is open and `e` is a new edge matching its outside edge label, arity and mapping. */
  predicate CanShift(item: Item, e: Triple)
    requires ItemRule(item.rule)
  {
    match Outside(item)
    case None => false
    case Some(o) =>
      e !in item.shifted && o.rel == e.rel && Agrees(item, o.src, e.src) &&
      |o.tails| == |e.tails| &&
      forall i :: 0 <= i < |o.tails| ==> Agrees(item, o.tails[i], e.tails[i])
  }

  /** `shift`: consumes `e` for the outside edge. */
  function Shift(item: Item, e: Triple): Item
    requires ItemRule(item.rule) && Outside(item).Some? && |Outside(item).value.tails| == |e.tails|
  {
    var o := Outside(item).value;
    Item(item.rule, item.size + 1, item.shifted + {e},
         Assign(item.mapping[o.src := e.src], o.tails, e.tails),
         item.nodeset + Elems(e.tails) + {e.src})
  }

  /**
   * What a shift produces: one more edge visited and consumed; the outside
   * edge's nodes join the mapping, each tail going to the matching tail of
   * `e` (the last write winning for a rule node named twice) and the source to
   * `e`'s source unless it is also a tail; `nodeset` gains `e`'s endpoints.
   */
  lemma ShiftEffect(item: Item, e: Triple)
    requires ItemRule(item.rule) && Outside(item).Some? && |Outside(item).value.tails| == |e.tails|
    ensures Shift(item, e).rule == item.rule && Shift(item, e).size == item.size + 1
    ensures Shift(item, e).shifted == item.shifted + {e}
    ensures Shift(item, e).mapping.Keys == item.mapping.Keys + {Outside(item).value.src} + Elems(Outside(item).value.tails)
    ensures Outside(item).value.src !in Outside(item).value.tails ==>
      Shift(item, e).mapping[Outside(item).value.src] == e.src
    ensures forall i :: 0 <= i < |e.tails| && (forall j :: i < j < |e.tails| ==> Outside(item).value.tails[j] != Outside(item).value.tails[i]) ==>
      Shift(item, e).mapping[Outside(item).value.tails[i]] == e.tails[i]
    ensures Shift(item, e).nodeset == item.nodeset + {e.src} + Elems(e.tails)
  {
    var o := Outside(item).value;
    var m := item.mapping[o.src := e.src];
    AssignKeys(m, o.tails, e.tails);
    forall i | 0 <= i < |e.tails| && (forall j :: i < j < |e.tails| ==> o.tails[j] != o.tails[i])
      ensures Assign(m, o.tails, e.tails)[o.tails[i]] == e.tails[i]
    {
      AssignLast(m, o.tails, e.tails, i);
    }
  }

  /** A shift allowed by `can_shift` keeps every existing rule-node mapping and consumes one new edge. */
  lemma ShiftExtends(item: Item, e: Triple)
    requires ItemRule(item.rule) && CanShift(item, e)
    ensures |Outside(item).value.tails| == |e.tails|
    ensures forall k :: k in item.mapping ==> k in Shift(item, e).mapping && Shift(item, e).mapping[k] == item.mapping[k]
    ensures |Shift(item, e).shifted| == |item.shifted| + 1
  {
    var o := Outside(item).value;
    var m := item.mapping[o.src := e.src];
    forall k | k in item.mapping
      ensures k in Assign(m, o.tails, e.tails) && Assign(m, o.tails, e.tails)[k] == item.mapping[k]
    {
      assert m[k] == item.mapping[k];
      forall i | 0 <= i < |o.tails| && o.tails[i] == k
        ensures e.tails[i] == m[k]
      {
        assert Agrees(item, o.tails[i], e.tails[i]);
      }
      AssignAgrees(m, o.tails, e.tails, k);
    }
  }

  lemma EndpointsUnion(a: set<Triple>, b: set<Triple>)
    ensures Endpoints(a + b) == Endpoints(a) + Endpoints(b)
  {
  }

  lemma EndpointsOne(e: Triple)
    ensures Endpoints({e}) == {e.src} + Elems(e.tails)
  {
    forall n | n in {e.src} + Elems(e.tails)
      ensures n in Endpoints({e})
    {
      assert n in [e.src] + e.tails;
    }
  }

  /** Shifting keeps `nodeset` equal to the endpoints of the consumed edges. */
  lemma ShiftNodeset(item: Item, e: Triple)
    requires ItemRule(item.rule) && Outside(item).Some? && |Outside(item).value.tails| == |e.tails|
    requires NodesetOk(item)
    ensures NodesetOk(Shift(item, e))
  {
    EndpointsUnion(item.shifted, {e});
    EndpointsOne(e);
  }

  // ---------------------------------------------------------------------------
  // Complete

  datatype ItemError = KeyError

  /**
   * The tails loop of `can_complete` from index `i`: a tail already mapped must
   * map where `other` maps the matching external node; looking up an external
   * node `other` does not map fails.
   */
  function TailsAgree(item: Item, other: Item, tails: seq<Node>, exts: seq<Node>, i: nat): (r: Result<bool, ItemError>)
    requires |tails| == |exts| && i <= |tails|
    ensures r == Ok(true) ==> forall j :: i <= j < |tails| && tails[j] in item.mapping ==>
      exts[j] in other.mapping && item.mapping[tails[j]] == other.mapping[exts[j]]
    decreases |tails| - i
  {
    if i == |tails| then Ok(true)
    else if tails[i] in item.mapping && exts[i] !in other.mapping then Err(KeyError)
    else if tails[i] in item.mapping && item.mapping[tails[i]] != other.mapping[exts[i]] then Ok(false)
    else TailsAgree(item, other, tails, exts, i + 1)
  }

  /** A graph node `other` maps that the item already reaches only through the outside edge's own nodes. */
  predicate NoForeignReuse(item: Item, other: Item, o: Triple)
  {
    forall n, k :: n in other.mapping.Values && k in item.mapping && item.mapping[k] == n ==>
      k == o.src || k in o.tails
  }

  /** `can_complete`: whether the closed item `other` can fill the item's nonterminal outside edge. */
  function CanComplete(item: Item, other: Item): Result<bool, ItemError>
    requires ItemRule(item.rule) && ItemRule(other.rule)
  {
    if Closed(item) || !Closed(other) || !OutsideIsNonterminal(item) then Ok(false)
    else if item.shifted * other.shifted != {} then Ok(false)
    else
      var o := Outside(item).value;
      var exts := Externals(other.rule);
      var root := Root(other.rule);
      if |o.tails| != |exts| then Ok(false)
      else if o.src in item.mapping && root !in other.mapping then Err(KeyError)
      else if o.src in item.mapping && item.mapping[o.src] != other.mapping[root] then Ok(false)
      else match TailsAgree(item, other, o.tails, exts, 0)
        case Err(e) => Err(e)
        case Ok(false) => Ok(false)
        case Ok(true) => Ok(NoForeignReuse(item, other, o))
  }

  /**
   * What `can_complete` demands: an open item whose outside edge is a
   * nonterminal, a closed other item, no edge consumed by both, as many tails
   * as the other rule has external nodes, mappings that agree on the outside
   * edge's nodes, and no other rule node of the item already using a graph node
   * of the other item.
   */
  lemma CanCompleteMeans(item: Item, other: Item)
    requires ItemRule(item.rule) && ItemRule(other.rule)
    requires CanComplete(item, other) == Ok(true)
    ensures !Closed(item) && Closed(other) && OutsideIsNonterminal(item)
    ensures item.shifted * other.shifted == {}
    ensures |Outside(item).value.tails| == |Externals(other.rule)|
    ensures Outside(item).value.src in item.mapping ==> (Root(other.rule) in other.mapping &&
      item.mapping[Outside(item).value.src] == other.mapping[Root(other.rule)])
    ensures forall j :: 0 <= j < |Outside(item).value.tails| && Outside(item).value.tails[j] in item.mapping ==>
      Externals(other.rule)[j] in other.mapping &&
      item.mapping[Outside(item).value.tails[j]] == other.mapping[Externals(other.rule)[j]]
    ensures NoForeignReuse(item, other, Outside(item).value)
  {
  }

  /** The images in `m` of the nodes `ns`, or KeyError for one it does not map. */
  function Images(m: map<Node, Node>, ns: seq<Node>): (r: Result<seq<Node>, ItemError>)
    ensures r.Ok? <==> forall i :: 0 <= i < |ns| ==> ns[i] in m
    ensures r.Ok? ==> |r.value| == |ns| && forall i :: 0 <= i < |ns| ==> r.value[i] == m[ns[i]]
    ensures r.Err? ==> r.error == KeyError
  {
    if ns == [] then Ok([])
    else if ns[0] !in m then Err(KeyError)
    else match Images(m, ns[1..])
      case Err(e) => Err(e)
      case Ok(rest) => Ok([m[ns[0]]] + rest)
  }

  /** `complete`: `other` fills the outside edge; its root and external nodes give the edge's images. */
  function Complete(item: Item, other: Item): Result<Item, ItemError>
    requires ItemRule(item.rule) && ItemRule(other.rule) && Outside(item).Some?
  {
    var o := Outside(item).value;
    var root := Root(other.rule);
    if root !in other.mapping || |o.tails| > |Externals(other.rule)| then Err(KeyError)
    else match Images(other.mapping, Externals(other.rule)[..|o.tails|])
      case Err(e) => Err(e)
      case Ok(images) =>
        Ok(Item(item.rule, item.size + 1, item.shifted + other.shifted,
                Assign(item.mapping[o.src := other.mapping[root]], o.tails, images),
                item.nodeset + other.nodeset))
  }

  /**
   * After a completion allowed by `can_complete` that finds its lookups: one
   * more edge visited, the consumed edges the disjoint union of both items'
   * (so their sizes add up), every existing rule-node mapping kept, and the
   * outside edge's nodes mapped to the other item's root and external nodes.
   */
  lemma CompleteEffect(item: Item, other: Item)
    requires ItemRule(item.rule) && ItemRule(other.rule)
    requires CanComplete(item, other) == Ok(true) && Complete(item, other).Ok?
    ensures Complete(item, other).value.rule == item.rule
    ensures Complete(item, other).value.size == item.size + 1
    ensures Complete(item, other).value.shifted == item.shifted + other.shifted
    ensures |Complete(item, other).value.shifted| == |item.shifted| + |other.shifted|
    ensures forall k :: k in item.mapping ==>
      k in Complete(item, other).value.mapping && Complete(item, other).value.mapping[k] == item.mapping[k]
    ensures Complete(item, other).value.mapping.Keys ==
      item.mapping.Keys + {Outside(item).value.src} + Elems(Outside(item).value.tails)
    ensures Outside(item).value.src !in Outside(item).value.tails ==>
      Complete(item, other).value.mapping[Outside(item).value.src] == other.mapping[Root(other.rule)]
    ensures forall i :: (0 <= i < |Outside(item).value.tails| &&
      forall j :: i < j < |Outside(item).value.tails| ==> Outside(item).value.tails[j] != Outside(item).value.tails[i]) ==>
      Complete(item, other).value.mapping[Outside(item).value.tails[i]] == other.mapping[Externals(other.rule)[i]]
  {
    CanCompleteMeans(item, other);
    var o := Outside(item).value;
    var exts := Externals(other.rule);
    var root := Root(other.rule);
    assert exts[..|o.tails|] == exts;
    var images := Images(other.mapping, exts).value;
    var m := item.mapping[o.src := other.mapping[root]];
    assert Complete(item, other).value.mapping == Assign(m, o.tails, images);
    DisjointUnionSize(item.shifted, other.shifted);
    AssignKeys(m, o.tails, images);
    forall k | k in item.mapping
      ensures k in Assign(m, o.tails, images) && Assign(m, o.tails, images)[k] == item.mapping[k]
    {
      assert m[k] == item.mapping[k];
      AssignAgrees(m, o.tails, images, k);
    }
    forall i | 0 <= i < |o.tails| && (forall j :: i < j < |o.tails| ==> o.tails[j] != o.tails[i])
      ensures Assign(m, o.tails, images)[o.tails[i]] == other.mapping[exts[i]]
    {
      AssignLast(m, o.tails, images, i);
    }
  }

  lemma DisjointUnionSize<T>(a: set<T>, b: set<T>)
    requires a * b == {}
    ensures |a + b| == |a| + |b|
  {
  }

  /** Completing keeps `nodeset` equal to the endpoints of the consumed edges. */
  lemma CompleteNodeset(item: Item, other: Item)
    requires ItemRule(item.rule) && ItemRule(other.rule) && Outside(item).Some?
    requires NodesetOk(item) && NodesetOk(other) && Complete(item, other).Ok?
    ensures NodesetOk(Complete(item, other).value)
  {
    EndpointsUnion(item.shifted, other.shifted);
  }
}
