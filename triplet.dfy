// An extracted (or gold) triplet: predicate nodes and labelled argument
// groups, with the map from every node to its label ("P" for the predicate).
module Triplets {
  import opened Wrappers
  import opened Seqs

  type Node = int

  /** The assertion of the constructor: an argument node already has a label. */
  datatype TripletError = NodeLabelled(node: Node)

  // ---------------------------------------------------------------------------
  // The label map as a function of the inputs

  /** `{p: "P" for p in predicate}`. */
  function PredLabels(pred: seq<Node>): map<Node, string>
  {
    map p | p in pred :: "P"
  }

  /** The (node, label) pairs of one argument, in order. */
  function Pairs<K, V>(argLabel: V, nodes: seq<K>): (r: seq<(K, V)>)
    ensures |r| == |nodes|
    ensures forall j :: 0 <= j < |r| ==> r[j] == (nodes[j], argLabel)
  {
    if nodes == [] then [] else Pairs(argLabel, nodes[..|nodes| - 1]) + [(nodes[|nodes| - 1], argLabel)]
  }

  /** The (node, label) pairs of all arguments, in the order the loops visit them. */
  function Flatten<K, V>(args: seq<(V, seq<K>)>): seq<(K, V)>
  {
    if args == [] then [] else Flatten(args[..|args| - 1]) + Pairs(args[|args| - 1].0, args[|args| - 1].1)
  }

  function Nodes<K, V>(ps: seq<(K, V)>): (r: seq<K>)
    ensures |r| == |ps| && forall j :: 0 <= j < |ps| ==> r[j] == ps[j].0
  {
    seq(|ps|, j requires 0 <= j < |ps| => ps[j].0)
  }

  /** Adds the pairs one by one, failing at the first node that already has a label. */
  function Insert<K(==), V>(m: map<K, V>, ps: seq<(K, V)>): Result<map<K, V>, K>
  {
    if ps == [] then Ok(m)
    else
      match Insert(m, ps[..|ps| - 1])
      case Err(e) => Err(e)
      case Ok(m') =>
        var (n, l) := ps[|ps| - 1];
        if n in m' then Err(n) else Ok(m'[n := l])
  }

  /** `node_to_label` as built by the constructor, or the failed assertion. */
  function NodeLabels(pred: seq<Node>, args: seq<(string, seq<Node>)>): Result<map<Node, string>, TripletError>
  {
    match Insert(PredLabels(pred), Flatten(args))
    case Ok(m) => Ok(m)
    case Err(n) => Err(NodeLabelled(n))
  }

  // ---------------------------------------------------------------------------
  // What the label map means

  /**
   * Inserting succeeds exactly when the nodes are new and pairwise different;
   * then every node has its own label and the old entries stay; a failure
   * names one of the nodes.
   */
  lemma InsertMeaning<K, V>(m: map<K, V>, ps: seq<(K, V)>)
    ensures Insert(m, ps).Ok? <==> Distinct(Nodes(ps)) && forall j :: 0 <= j < |ps| ==> ps[j].0 !in m
    ensures Insert(m, ps).Ok? ==>
      var r := Insert(m, ps).value;
      r.Keys == m.Keys + Elems(Nodes(ps)) &&
      (forall k :: k in m ==> r[k] == m[k]) &&
      (forall j :: 0 <= j < |ps| ==> r[ps[j].0] == ps[j].1)
    ensures Insert(m, ps).Err? ==> Insert(m, ps).error in Nodes(ps)
  {
    InsertContent(m, ps);
    InsertOkIff(m, ps);
  }

  /** What a successful insertion holds, and which node a failed one names. */
  lemma {:induction false} InsertContent<K, V>(m: map<K, V>, ps: seq<(K, V)>)
    ensures Insert(m, ps).Ok? ==>
      var r := Insert(m, ps).value;
      r.Keys == m.Keys + Elems(Nodes(ps)) &&
      (forall k :: k in m ==> r[k] == m[k]) &&
      (forall j :: 0 <= j < |ps| ==> r[ps[j].0] == ps[j].1)
    ensures Insert(m, ps).Err? ==> Insert(m, ps).error in Nodes(ps)
  {
    if ps != [] {
      var init := ps[..|ps| - 1];
      var (n, l) := ps[|ps| - 1];
      InsertContent(m, init);
      assert Nodes(ps) == Nodes(init) + [n];
      ElemsConcat(Nodes(init), [n]);
      if Insert(m, init).Ok? {
        var m' := Insert(m, init).value;
        if n !in m' {
          var r := m'[n := l];
          assert Insert(m, ps) == Ok(r);
          forall j | 0 <= j < |ps| ensures r[ps[j].0] == ps[j].1 {
            if j < |init| {
              assert ps[j] == init[j];
            }
          }
        }
      }
    }
  }

  /** Insertion succeeds exactly when the nodes are new and pairwise different. */
  lemma {:induction false} InsertOkIff<K, V>(m: map<K, V>, ps: seq<(K, V)>)
    ensures Insert(m, ps).Ok? <==> Distinct(Nodes(ps)) && forall j :: 0 <= j < |ps| ==> ps[j].0 !in m
  {
    if ps != [] {
      var init := ps[..|ps| - 1];
      var (n, l) := ps[|ps| - 1];
      InsertOkIff(m, init);
      InsertContent(m, init);
      assert Nodes(ps) == Nodes(init) + [n];
      DistinctSnoc(Nodes(init), n);
      assert forall j :: 0 <= j < |init| ==> init[j] == ps[j];
      if Insert(m, init).Ok? {
        var m' := Insert(m, init).value;
        if n in m' {
          assert n in m || n in Nodes(init);
          if n in m {
            assert ps[|ps| - 1].0 in m;
          }
        }
      }
    }
  }

  lemma PairsMeaning<K, V>(argLabel: V, nodes: seq<K>, n: K, l: V)
    ensures (n, l) in Pairs(argLabel, nodes) <==> l == argLabel && n in nodes
  {
    var ps := Pairs(argLabel, nodes);
    if l == argLabel && n in nodes {
      var j :| 0 <= j < |nodes| && nodes[j] == n;
      assert ps[j] == (n, l);
    }
  }

  /** A pair is in the flattened list exactly when its node is in the argument with its label. */
  lemma {:induction false} FlattenMeaning<K, V>(args: seq<(V, seq<K>)>, n: K, l: V)
    ensures (n, l) in Flatten(args) <==> exists i :: 0 <= i < |args| && args[i].0 == l && n in args[i].1
  {
    if args != [] {
      var init := args[..|args| - 1];
      var last := args[|args| - 1];
      FlattenMeaning(init, n, l);
      PairsMeaning(last.0, last.1, n, l);
      assert Flatten(args) == Flatten(init) + Pairs(last.0, last.1);
      if (n, l) in Flatten(args) {
        if (n, l) in Flatten(init) {
          var i :| 0 <= i < |init| && init[i].0 == l && n in init[i].1;
          assert args[i] == init[i];
        } else {
          assert args[|args| - 1].0 == l && n in args[|args| - 1].1;
        }
      }
      if exists i :: 0 <= i < |args| && args[i].0 == l && n in args[i].1 {
        var i :| 0 <= i < |args| && args[i].0 == l && n in args[i].1;
        if i < |init| {
          assert init[i] == args[i];
        }
      }
    }
  }

  /** The nodes of all arguments, in the order the loops visit them. */
  function ArgNodes(args: seq<(string, seq<Node>)>): seq<Node>
  {
    Nodes(Flatten(args))
  }

  /**
   * The constructor succeeds exactly when no argument node is a predicate node
   * or repeated; then every predicate node maps to "P", every argument node to
   * its argument's label, and nothing else has a label.
   */
  lemma NodeLabelsMeaning(pred: seq<Node>, args: seq<(string, seq<Node>)>)
    ensures NodeLabels(pred, args).Ok? <==>
      Distinct(ArgNodes(args)) && forall n :: n in ArgNodes(args) ==> n !in pred
    ensures NodeLabels(pred, args).Ok? ==>
      var r := NodeLabels(pred, args).value;
      r.Keys == Elems(pred) + Elems(ArgNodes(args)) &&
      (forall p :: p in pred ==> r[p] == "P") &&
      (forall i, n :: 0 <= i < |args| && n in args[i].1 ==> n in r && r[n] == args[i].0)
    ensures NodeLabels(pred, args).Err? ==> NodeLabels(pred, args).error.node in ArgNodes(args)
  {
    var ps := Flatten(args);
    var res := Insert(PredLabels(pred), ps);
    assert NodeLabels(pred, args) == if res.Ok? then Ok(res.value) else Err(NodeLabelled(res.error));
    InsertMeaning(PredLabels(pred), ps);
    NodesOutside(ps, PredLabels(pred), pred);
    if res.Ok? {
      ArgLabels(args, res.value);
    }
  }

  /** No node of the pairs has a label yet exactly when none is a predicate node. */
  lemma NodesOutside(ps: seq<(Node, string)>, m: map<Node, string>, pred: seq<Node>)
    requires m == PredLabels(pred)
    ensures (forall j :: 0 <= j < |ps| ==> ps[j].0 !in m) <==> forall n :: n in Nodes(ps) ==> n !in pred
  {
    if forall j :: 0 <= j < |ps| ==> ps[j].0 !in m {
      forall n | n in Nodes(ps) ensures n !in pred {
        var j :| 0 <= j < |ps| && Nodes(ps)[j] == n;
      }
    } else {
      var j :| 0 <= j < |ps| && ps[j].0 in m;
      var n := Nodes(ps)[j];
      assert n in Nodes(ps) && n in pred;
    }
  }

  /** A map giving every flattened pair's label gives every argument node its argument's label. */
  lemma ArgLabels(args: seq<(string, seq<Node>)>, r: map<Node, string>)
    requires forall j :: 0 <= j < |Flatten(args)| ==> Flatten(args)[j].0 in r && r[Flatten(args)[j].0] == Flatten(args)[j].1
    ensures forall i, n :: 0 <= i < |args| && n in args[i].1 ==> n in r && r[n] == args[i].0
  {
    var ps := Flatten(args);
    forall i, n | 0 <= i < |args| && n in args[i].1 ensures n in r && r[n] == args[i].0 {
      FlattenMeaning(args, n, args[i].0);
      var j :| 0 <= j < |ps| && ps[j] == (n, args[i].0);
    }
  }

  // ---------------------------------------------------------------------------
  // The class

  class Triplet {
    var pred: seq<Node>
    var args: seq<(string, seq<Node>)>
    var nodeToLabel: map<Node, string>

    /** The label map is the one the inputs determine. */
    ghost predicate Valid()
      reads this
    {
      NodeLabels(pred, args) == Ok(nodeToLabel)
    }

    constructor Init(pred: seq<Node>, args: seq<(string, seq<Node>)>, nodeToLabel: map<Node, string>)
      ensures this.pred == pred && this.args == args && this.nodeToLabel == nodeToLabel
    {
      this.pred := pred;
      this.args := args;
      this.nodeToLabel := nodeToLabel;
    }

    /** `Triplet(predicate, arguments)`: the loops of the constructor, under its assertion. */
    static method New(pred: seq<Node>, args: seq<(string, seq<Node>)>) returns (r: Result<Triplet, TripletError>)
      ensures NodeLabels(pred, args).Err? ==> r == Err(NodeLabels(pred, args).error)
      ensures NodeLabels(pred, args).Ok? ==>
        r.Ok? && fresh(r.value) && r.value.Valid() &&
        r.value.pred == pred && r.value.args == args
    {
      var m := BuildNodeLabels(pred, args);
      if m.Err? {
        return Err(m.error);
      }
      var t := new Triplet.Init(pred, args, m.value);
      return Ok(t);
    }

    /** `get_label(node)`: the node's label, or nothing. */
    function GetLabel(node: Node): (r: Option<string>)
      reads this
      ensures r.Some? <==> node in nodeToLabel
    {
      if node in nodeToLabel then Some(nodeToLabel[node]) else None
    }
  }

  /** The loops filling `node_to_label`. */
  method BuildNodeLabels(pred: seq<Node>, args: seq<(string, seq<Node>)>) returns (r: Result<map<Node, string>, TripletError>)
    ensures r == NodeLabels(pred, args)
  {
    var m: map<Node, string> := map p | p in pred :: "P";
    for i := 0 to |args|
      invariant Insert(PredLabels(pred), Flatten(args[..i])) == Ok(m)
    {
      var step := AddArgument(pred, args, i, m);
      if step.Err? {
        return step;
      }
      m := step.value;
    }
    assert args[..|args|] == args;
    r := Ok(m);
  }

  /** The inner loop: labels the nodes of argument `i`, or stops at the first one labelled already. */
  method AddArgument(pred: seq<Node>, args: seq<(string, seq<Node>)>, i: nat, m0: map<Node, string>)
    returns (r: Result<map<Node, string>, TripletError>)
    requires i < |args| && Insert(PredLabels(pred), Flatten(args[..i])) == Ok(m0)
    ensures r.Ok? ==> Insert(PredLabels(pred), Flatten(args[..i + 1])) == Ok(r.value)
    ensures r.Err? ==> r == NodeLabels(pred, args)
  {
    var m := m0;
    var (l, nodes) := args[i];
    ghost var done := Flatten(args[..i]);
    assert done + Pairs(l, nodes[..0]) == done;
    for k := 0 to |nodes|
      invariant Insert(PredLabels(pred), done + Pairs(l, nodes[..k])) == Ok(m)
    {
      var n := nodes[k];
      ghost var pre := done + Pairs(l, nodes[..k + 1]);
      PairsSnoc(l, nodes, k);
      assert pre[..|pre| - 1] == done + Pairs(l, nodes[..k]) && pre[|pre| - 1] == (n, l);
      if n in m {
        InsertFails(PredLabels(pred), pre, Flatten(args), args, i, k + 1);
        return Err(NodeLabelled(n));
      }
      m := m[n := l];
    }
    assert nodes[..|nodes|] == nodes;
    FlattenStep(args, i);
    r := Ok(m);
  }

  lemma PairsSnoc<K, V>(argLabel: V, nodes: seq<K>, k: nat)
    requires k < |nodes|
    ensures Pairs(argLabel, nodes[..k + 1]) == Pairs(argLabel, nodes[..k]) + [(nodes[k], argLabel)]
  {
    assert nodes[..k + 1][..k] == nodes[..k];
  }

  lemma FlattenStep<K, V>(args: seq<(V, seq<K>)>, i: nat)
    requires i < |args|
    ensures Flatten(args[..i + 1]) == Flatten(args[..i]) + Pairs(args[i].0, args[i].1)
  {
    assert args[..i + 1][..i] == args[..i];
  }

  /** The first failure of a prefix is the failure of the whole list. */
  lemma {:induction false} InsertPrefixErr<K, V>(m: map<K, V>, a: seq<(K, V)>, b: seq<(K, V)>)
    requires Insert(m, a).Err?
    ensures Insert(m, a + b) == Insert(m, a)
  {
    if b != [] {
      var init := b[..|b| - 1];
      InsertPrefixErr(m, a, init);
      var ab := a + b;
      assert ab[..|ab| - 1] == a + init;
      assert Insert(m, ab) == Insert(m, a + init);
    } else {
      assert a + b == a;
    }
  }

  /** The pairs visited up to node `k` of argument `i` are a prefix of all pairs. */
  lemma FlattenPrefix<K, V>(args: seq<(V, seq<K>)>, i: nat, k: nat)
    requires i < |args| && k <= |args[i].1|
    ensures Flatten(args) == (Flatten(args[..i]) + Pairs(args[i].0, args[i].1[..k])) +
                             (Pairs(args[i].0, args[i].1)[k..] + Flatten(args[i + 1..]))
  {
    var x, pre, rest := args[i], args[..i], args[i + 1..];
    var all := Pairs(x.0, x.1);
    var front := Pairs(x.0, x.1[..k]);
    assert all[..k] == front;
    assert all == front + all[k..];
    assert args == pre + ([x] + rest);
    assert [x] == [] + [x];
    FlattenSnocOne([], x);
    assert Flatten([x]) == all;
    FlattenConcat([x], rest);
    assert Flatten([x] + rest) == all + Flatten(rest);
    FlattenConcat(pre, [x] + rest);
    assert Flatten(args) == Flatten(pre) + ((front + all[k..]) + Flatten(rest));
    ConcatAssoc(front, all[k..], Flatten(rest));
    ConcatAssoc(Flatten(pre), front, all[k..] + Flatten(rest));
  }

  /** Flattening distributes over concatenation of the arguments. */
  lemma {:induction false} FlattenConcat<K, V>(a: seq<(V, seq<K>)>, b: seq<(V, seq<K>)>)
    ensures Flatten(a + b) == Flatten(a) + Flatten(b)
  {
    if b == [] {
      assert a + b == a;
    } else {
      var b', x := b[..|b| - 1], b[|b| - 1];
      assert b == b' + [x];
      assert a + b == (a + b') + [x];
      FlattenConcat(a, b');
      FlattenSnocOne(a + b', x);
      FlattenSnocOne(b', x);
      ConcatAssoc(Flatten(a), Flatten(b'), Pairs(x.0, x.1));
    }
  }

  lemma FlattenSnocOne<K, V>(args: seq<(V, seq<K>)>, x: (V, seq<K>))
    ensures Flatten(args + [x]) == Flatten(args) + Pairs(x.0, x.1)
  {
    assert (args + [x])[..|args|] == args;
  }

  lemma InsertFails<K, V>(m: map<K, V>, pre: seq<(K, V)>, all: seq<(K, V)>,
                    args: seq<(V, seq<K>)>, i: nat, k: nat)
    requires i < |args| && 0 < k <= |args[i].1| && all == Flatten(args)
    requires pre == Flatten(args[..i]) + Pairs(args[i].0, args[i].1[..k])
    requires Insert(m, pre[..|pre| - 1]).Ok? && pre[|pre| - 1].0 in Insert(m, pre[..|pre| - 1]).value
    ensures Insert(m, all) == Err(pre[|pre| - 1].0)
  {
    FlattenPrefix(args, i, k);
    InsertPrefixErr(m, pre, Pairs(args[i].0, args[i].1)[k..] + Flatten(args[i + 1..]));
  }

  /**
   * For a valid triplet, `get_label` gives "P" for pred nodes, an
   * argument's label for its nodes, and nothing for any other node.
   */
  lemma GetLabelMeaning(t: Triplet, node: Node)
    requires t.Valid()
    ensures node in t.pred ==> t.GetLabel(node) == Some("P")
    ensures forall i :: 0 <= i < |t.args| && node in t.args[i].1 ==> t.GetLabel(node) == Some(t.args[i].0)
    ensures node !in t.pred && node !in ArgNodes(t.args) ==> t.GetLabel(node) == None
  {
    NodeLabelsMeaning(t.pred, t.args);
  }
}
