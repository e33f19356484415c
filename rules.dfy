// Synchronous grammar rules with a visit order (VoRule): construction with
// the default visit orders, identity by rule id, the projections onto one
// side, and the search for terminal edges below a rule's root edge.
module Rules {
  import opened Wrappers
  import opened Seqs
  import opened Labels
  import opened Graphs
  import opened GraphQueries
  import opened Strings

  /**
   * An already-parsed hypergraph: its node keys (in insertion order), its
   * canonical triple listing, its roots and its external nodes (external node
   * `i` is `externals[i]`).
   */
  datatype RuleGraph = RuleGraph(nodes: seq<Node>, triples: seq<Triple>, roots: seq<Node>, externals: seq<Node>)

  /** A right-hand side: a hypergraph or a token string. */
  datatype Rhs = GraphRhs(graph: RuleGraph) | StringRhs(tokens: seq<Label>)

  /** `len(rhs.triples())` for a graph, `len(rhs)` for a string. */
  function RhsLength(rhs: Rhs): nat
  {
    match rhs
    case GraphRhs(g) => |g.triples|
    case StringRhs(tokens) => |tokens|
  }

  /** `range(n)` as a list. */
  function Range(n: nat): (r: seq<int>)
    ensures |r| == n
    ensures forall i :: 0 <= i < n ==> r[i] == i
  {
    if n == 0 then [] else Range(n - 1) + [n - 1]
  }

  /** The nonterminal edges of a graph, or the nonterminal tokens of a string. */
  function RhsNonterminals(rhs: Rhs): seq<Label>
  {
    match rhs
    case GraphRhs(g) => Relations(NonterminalEdges(g.triples))
    case StringRhs(tokens) => Filter(tokens, (t: Label) => t.Nt?)
  }

  function Relations(ts: seq<Triple>): (r: seq<Label>)
    ensures |r| == |ts|
    ensures forall i :: 0 <= i < |ts| ==> r[i] == ts[i].rel
  {
    if ts == [] then [] else Relations(ts[..|ts| - 1]) + [ts[|ts| - 1].rel]
  }

  /** Every edge label (graph) or token (string) of the side is a terminal. */
  ghost predicate AllTerminal(rhs: Rhs)
  {
    match rhs
    case GraphRhs(g) => forall t :: t in g.triples ==> t.rel.Terminal?
    case StringRhs(tokens) => forall l :: l in tokens ==> l.Terminal?
  }

  datatype RuleError = AssertionError | AttributeError

  datatype VoRule = VoRule(
    ruleId: int,
    symbol: string,
    weight: real,
    rhs1: Rhs,
    rhs2: Option<Rhs>,
    rhs1VisitOrder: seq<int>,
    rhs2VisitOrder: Option<seq<int>>,  // None: the attribute is never set
    originalIndex: Option<int>,
    nodelabels: bool,
    logprob: bool,
    isTerminal: bool)

  /** The visit order a side gets when the caller supplies none. */
  function VisitOrder(rhs: Rhs, given: Option<seq<int>>): (vo: seq<int>)
    ensures given.Some? ==> vo == given.value
    ensures given.None? ==> |vo| == RhsLength(rhs) && forall i :: 0 <= i < |vo| ==> vo[i] == i
  {
    if given.Some? then given.value else Range(RhsLength(rhs))
  }

  /** `VoRule(...)`: a graph first side must have exactly one root. */
  function MakeRule(ruleId: int, symbol: string, weight: real, rhs1: Rhs, rhs2: Option<Rhs>,
                    vo1: Option<seq<int>>, vo2: Option<seq<int>>, originalIndex: Option<int>,
                    nodelabels: bool, logprob: bool): (r: Result<VoRule, RuleError>)
    ensures r.Err? <==> rhs1.GraphRhs? && |rhs1.graph.roots| != 1
    ensures r.Ok? ==> WellFormed(r.value)
    ensures r.Ok? ==> r.value.ruleId == ruleId && r.value.symbol == symbol && r.value.weight == weight
    ensures r.Ok? ==> r.value.rhs1 == rhs1 && r.value.rhs2 == rhs2 && r.value.originalIndex == originalIndex
    ensures r.Ok? ==> (r.value.isTerminal <==> AllTerminal(rhs1))
    ensures r.Ok? ==> r.value.rhs1VisitOrder == VisitOrder(rhs1, vo1)
    ensures r.Ok? ==> r.value.rhs2VisitOrder == if rhs2.Some? then Some(VisitOrder(rhs2.value, vo2)) else None
  {
    if rhs1.GraphRhs? && |rhs1.graph.roots| != 1 then Err(AssertionError)
    else
      var terminal := RhsNonterminals(rhs1) == [];
      TerminalIffNoNonterminal(rhs1);
      var vo2' := if rhs2.Some? then Some(VisitOrder(rhs2.value, vo2)) else None;
      Ok(VoRule(ruleId, symbol, weight, rhs1, rhs2, VisitOrder(rhs1, vo1), vo2', originalIndex,
                nodelabels, logprob, terminal))
  }

  lemma TerminalIffNoNonterminal(rhs: Rhs)
    ensures RhsNonterminals(rhs) == [] <==> AllTerminal(rhs)
  {
    match rhs
    case GraphRhs(g) =>
      if NonterminalEdges(g.triples) != [] {
        assert NonterminalEdges(g.triples)[0] in NonterminalEdges(g.triples);
      }
    case StringRhs(tokens) =>
      var nts := Filter(tokens, (t: Label) => t.Nt?);
      if nts != [] {
        assert nts[0] in nts;
      }
  }

  /**
   * The class a token of a string side belongs to. The grammar reader builds
   * its nonterminal tokens from the `NonterminalLabel` class of `cfg.py`; the
   * constructor's string test names the same-named class of `nonterminal.py`.
   */
  datatype TokenClass = PlainString | CfgLabel | ModuleLabel

  /** The class of a token the grammar reader built. */
  function LoaderClass(l: Label): TokenClass
  {
    if l.Nt? then CfgLabel else PlainString
  }

  /**
   * `is_terminal` as the constructor computes it: a graph side has no
   * nonterminal edge; a string side has no token whose type is the
   * `nonterminal.py` class, which no token of the grammar reader is.
   */
  function IsTerminalAsWritten(rhs: Rhs): (b: bool)
    ensures rhs.StringRhs? ==> b
    ensures rhs.GraphRhs? ==> (b <==> AllTerminal(rhs))
  {
    TerminalIffNoNonterminal(rhs);
    match rhs
    case GraphRhs(g) => NonterminalEdges(g.triples) == []
    case StringRhs(tokens) => forall i :: 0 <= i < |tokens| ==> LoaderClass(tokens[i]) != ModuleLabel
  }

  /** The string side of `S -> a B$ ;` has a nonterminal, yet the test as written calls it terminal. */
  lemma StringSideAlwaysTerminal()
    ensures var rhs := StringRhs([Terminal("a"), Nt(NonterminalLabel("B", None))]);
      IsTerminalAsWritten(rhs) && !AllTerminal(rhs)
  {
    var rhs := StringRhs([Terminal("a"), Nt(NonterminalLabel("B", None))]);
    assert rhs.tokens[1] in rhs.tokens;
  }

  /** What every rule built by the constructor satisfies. */
  ghost predicate WellFormed(r: VoRule)
  {
    (r.rhs1.GraphRhs? ==> |r.rhs1.graph.roots| == 1) &&
    (r.rhs2.None? <==> r.rhs2VisitOrder.None?) &&
    (r.isTerminal <==> AllTerminal(r.rhs1))
  }

  /** `__eq__`: same rule id; the contents are not compared. */
  predicate SameRule(a: VoRule, b: VoRule)
  {
    a.ruleId == b.ruleId
  }

  /** `__hash__`. */
  function RuleHash(r: VoRule): int
  {
    r.ruleId
  }

  lemma SameRuleHash(a: VoRule, b: VoRule)
    ensures SameRule(a, b) <==> RuleHash(a) == RuleHash(b)
    ensures SameRule(a, a.(weight := a.weight + 1.0)) && a != a.(weight := a.weight + 1.0)
  {
  }

  // ---------------------------------------------------------------------------
  // Printing a rule (`Rule.__str__`, which VoRule inherits)

  /**
   * What printing a rule needs beyond the rule itself: `Hgraph.to_string()`,
   * the `%.10f` format and `math.exp`. Graph rendering and floating point are
   * not modelled, so they are passed in.
   */
  datatype Printer = Printer(graphText: RuleGraph -> string, fixed10: real -> string, exp: real -> real)

  /** `if self.rhs2:`: a side is truthy when the graph has a node or the string a token. */
  predicate RhsTruthy(rhs: Rhs)
  {
    match rhs
    case GraphRhs(g) => |g.nodes| > 0
    case StringRhs(tokens) => |tokens| > 0
  }

  /** A side as printed: the graph's `to_string()`, or the tokens' `str` joined by spaces. */
  function RhsString(p: Printer, rhs: Rhs): string
  {
    match rhs
    case GraphRhs(g) => p.graphText(g)
    case StringRhs(tokens) => Join(" ", seq(|tokens|, i requires 0 <= i < |tokens| => LabelString(tokens[i])))
  }

  /** The weight as printed: the stored weight under `logprob`, otherwise its exponential. */
  function PrintedWeight(p: Printer, r: VoRule): real
  {
    if r.logprob then r.weight else p.exp(r.weight)
  }

  /** The part before ` ; `: `symbol -> rhs1`, with ` | rhs2` when the second side is truthy. */
  function RuleText(p: Printer, r: VoRule): string
  {
    r.symbol + " -> " + RhsString(p, r.rhs1) +
    (if r.rhs2.Some? && RhsTruthy(r.rhs2.value) then " | " + RhsString(p, r.rhs2.value) else "")
  }

  /** `str(rule)`: `"%s -> %s ; %.10f"`, or `"%s -> %s | %s ; %.10f"` with a second side. */
  function RuleString(p: Printer, r: VoRule): string
  {
    RuleText(p, r) + " ; " + p.fixed10(PrintedWeight(p, r))
  }

  /**
   * Splitting a printed rule at `;` gives back the rule text and the printed
   * weight, as the derivation summary reads them (`rule_str.split(';')`),
   * provided neither holds a `;` of its own.
   */
  lemma RuleStringFields(p: Printer, r: VoRule)
    requires ';' !in RuleText(p, r) && ';' !in p.fixed10(PrintedWeight(p, r))
    ensures SplitOn(RuleString(p, r), ';') == [RuleText(p, r) + " ", " " + p.fixed10(PrintedWeight(p, r))]
  {
    var a, w := RuleText(p, r) + " ", " " + p.fixed10(PrintedWeight(p, r));
    assert RuleString(p, r) == a + [';'] + w;
    SplitOnConcat(a, w, ';');
    SplitOnNone(w, ';');
  }

  /** `project_left`: the first side alone; `logprob` is not passed on. */
  function ProjectLeft(r: VoRule): (p: Result<VoRule, RuleError>)
    requires WellFormed(r)
    ensures p.Ok?
    ensures p.value.ruleId == r.ruleId && p.value.symbol == r.symbol && p.value.weight == r.weight
    ensures p.value.rhs1 == r.rhs1 && p.value.rhs1VisitOrder == r.rhs1VisitOrder
    ensures p.value.rhs2.None? && p.value.rhs2VisitOrder.None? && p.value.isTerminal == r.isTerminal
    ensures p.value.originalIndex == r.originalIndex && !p.value.logprob
  {
    MakeRule(r.ruleId, r.symbol, r.weight, r.rhs1, None, Some(r.rhs1VisitOrder), None,
             r.originalIndex, r.nodelabels, false)
  }

  /**
   * `project_right`: the second side promoted to the first. Without a second side
   * the visit-order attribute is missing; a graph second side must have one root.
   */
  function ProjectRight(r: VoRule): (p: Result<VoRule, RuleError>)
    requires WellFormed(r)
    ensures r.rhs2.None? ==> p == Err(AttributeError)
    ensures r.rhs2.Some? ==> (p.Err? <==> r.rhs2.value.GraphRhs? && |r.rhs2.value.graph.roots| != 1)
    ensures p.Err? ==> p.error == AttributeError || p.error == AssertionError
    ensures p.Ok? ==> p.value.ruleId == r.ruleId && p.value.symbol == r.symbol && p.value.weight == r.weight
    ensures p.Ok? ==> r.rhs2.Some? && p.value.rhs1 == r.rhs2.value && Some(p.value.rhs1VisitOrder) == r.rhs2VisitOrder
    ensures p.Ok? ==> p.value.rhs2.None? && p.value.rhs2VisitOrder.None?
    ensures p.Ok? ==> (p.value.isTerminal <==> AllTerminal(r.rhs2.value))
  {
    match r.rhs2VisitOrder
    case None => Err(AttributeError)
    case Some(vo2) =>
      MakeRule(r.ruleId, r.symbol, r.weight, r.rhs2.value, None, Some(vo2), None,
               r.originalIndex, r.nodelabels, false)
  }

  /** Projecting a projection changes nothing, and a projection has no right side left. */
  lemma ProjectionsSettle(r: VoRule)
    requires WellFormed(r)
    ensures ProjectLeft(ProjectLeft(r).value) == ProjectLeft(r)
    ensures ProjectRight(ProjectLeft(r).value) == Err(AttributeError)
    ensures ProjectRight(r).Ok? ==> ProjectLeft(ProjectRight(r).value) == ProjectRight(r)
  {
  }

  // ---------------------------------------------------------------------
  // terminal_search

  /** The tails of a set of triples. */
  ghost function TailSet(s: set<Triple>): set<Node>
  {
    set t, c | t in s && c in t.tails :: c
  }

  /** The nodes from which the search follows edges: the root edge's tails and the tails of collected edges. */
  ghost function Frontier(root: Triple, s: set<Triple>): set<Node>
  {
    Elems(root.tails) + TailSet(s)
  }

  /** `s` holds every terminal triple whose parent is a frontier node of `s`. */
  ghost predicate TerminalClosed(root: Triple, triples: seq<Triple>, s: set<Triple>)
  {
    forall t :: t in triples && t.rel.Terminal? && t.src in Frontier(root, s) ==> t in s
  }

  /** The terminal triples from `top` not collected yet, in listing order. */
  function FreshChildren(triples: seq<Triple>, top: Node, out: set<Triple>): (r: seq<Triple>)
    ensures forall t :: t in r <==> t in triples && t.src == top && t.rel.Terminal? && t !in out
  {
    Filter(triples, (t: Triple) => t.src == top && t.rel.Terminal? && t !in out)
  }

  lemma TailSetAdd(s: set<Triple>, ts: seq<Triple>)
    ensures TailSet(s + Elems(ts)) == TailSet(s) + Elems(TailsOf(ts))
  {
    TailsOfElems(ts);
  }

  lemma {:induction false} TailsOfElems(ts: seq<Triple>)
    ensures Elems(TailsOf(ts)) == TailSet(Elems(ts))
  {
    if ts != [] {
      var init, t := ts[..|ts| - 1], ts[|ts| - 1];
      TailsOfElems(init);
      assert Elems(ts) == Elems(init) + {t};
      assert TailSet(Elems(init) + {t}) == TailSet(Elems(init)) + Elems(t.tails);
    }
  }

  /** Records each child and pushes its tails, as the inner loops of `terminal_search` do. */
  method AddChildren(children: seq<Triple>, out: set<Triple>, stack: seq<Node>)
    returns (out': set<Triple>, stack': seq<Node>)
    ensures out' == out + Elems(children)
    ensures stack' == stack + TailsOf(children)
  {
    out', stack' := out, stack;
    for i := 0 to |children|
      invariant out' == out + Elems(children[..i])
      invariant stack' == stack + TailsOf(children[..i])
    {
      NodeStreamSnoc(children, i);
      assert Elems(children[..i + 1]) == Elems(children[..i]) + {children[i]} by {
        assert children[..i + 1] == children[..i] + [children[i]];
      }
      out' := out' + {children[i]};
      var tails := children[i].tails;
      for j := 0 to |tails|
        invariant stack' == stack + TailsOf(children[..i]) + tails[..j]
      {
        assert tails[..j + 1] == tails[..j] + [tails[j]];
        stack' := stack' + [tails[j]];
      }
      assert tails[..|tails|] == tails;
    }
    assert children[..|children|] == children;
  }

  /** The loop state of `terminal_search`; `done` are the nodes popped so far. */
  ghost predicate SearchState(root: Triple, triples: seq<Triple>, out: set<Triple>, stack: seq<Node>, done: set<Node>)
  {
    (forall t :: t in out ==> t in triples && t.rel.Terminal?) &&
    (forall t :: t in triples && t.rel.Terminal? && t.src in done ==> t in out) &&
    Frontier(root, out) <= done + Elems(stack) &&
    (forall s :: TerminalClosed(root, triples, s) ==> out <= s && Elems(stack) <= Frontier(root, s))
  }

  lemma SearchStep(root: Triple, triples: seq<Triple>, out: set<Triple>, stack: seq<Node>, done: set<Node>)
    requires stack != [] && SearchState(root, triples, out, stack, done)
    ensures var top := stack[|stack| - 1];
            var children := FreshChildren(triples, top, out);
            SearchState(root, triples, out + Elems(children), stack[..|stack| - 1] + TailsOf(children), done + {top})
  {
    var top, rest := stack[|stack| - 1], stack[..|stack| - 1];
    var children := FreshChildren(triples, top, out);
    var out', stack' := out + Elems(children), rest + TailsOf(children);
    assert Elems(stack) == Elems(rest) + {top} by { assert stack == rest + [top]; }
    TailSetAdd(out, children);
    assert Elems(stack') == Elems(rest) + Elems(TailsOf(children));
    forall s | TerminalClosed(root, triples, s)
      ensures out' <= s && Elems(stack') <= Frontier(root, s)
    {
      assert top in Frontier(root, s);
      assert Elems(children) <= s;
      assert TailSet(Elems(children)) <= TailSet(s);
    }
  }

  lemma SearchStart(root: Triple, triples: seq<Triple>)
    ensures SearchState(root, triples, {}, root.tails, {})
  {
    assert TailSet({}) == {};
  }

  lemma SearchDone(root: Triple, triples: seq<Triple>, out: set<Triple>, done: set<Node>)
    requires SearchState(root, triples, out, [], done)
    ensures TerminalClosed(root, triples, out)
  {
  }

  /** A pop that finds new children collects at least one triple not collected before. */
  lemma SearchProgress(triples: seq<Triple>, out: set<Triple>, children: seq<Triple>)
    requires children != [] && Elems(children) <= Elems(triples) && Elems(children) !! out
    ensures Elems(triples) - (out + Elems(children)) < Elems(triples) - out
  {
    assert children[0] in Elems(triples) - out;
  }

  /**
   * `terminal_search(root, triples)`: the terminal triples reachable from the
   * root edge's tails through terminal edges. The result is the least set that
   * holds every terminal triple leaving one of its frontier nodes.
   */
  method TerminalSearch(root: Triple, triples: seq<Triple>) returns (out: set<Triple>)
    ensures forall t :: t in out ==> t in triples && t.rel.Terminal?
    ensures TerminalClosed(root, triples, out)
    ensures forall s :: TerminalClosed(root, triples, s) ==> out <= s
  {
    var stack: seq<Node> := [];
    for i := 0 to |root.tails|
      invariant stack == root.tails[..i]
    {
      assert root.tails[..i + 1] == root.tails[..i] + [root.tails[i]];
      stack := stack + [root.tails[i]];
    }
    assert stack == root.tails;
    out := {};
    ghost var done: set<Node> := {};
    SearchStart(root, triples);
    while stack != []
      invariant SearchState(root, triples, out, stack, done)
      invariant out <= Elems(triples)
      decreases |Elems(triples) - out|, |stack|
    {
      var top := stack[|stack| - 1];
      SearchStep(root, triples, out, stack, done);
      var children := FreshChildren(triples, top, out);
      if children != [] {
        SearchProgress(triples, out, children);
      }
      stack := stack[..|stack| - 1];
      out, stack := AddChildren(children, out, stack);
      done := done + {top};
    }
    SearchDone(root, triples, out, done);
  }
}
