// The agenda parser: a breadth-first search over chart items. It starts from
// one axiom per rule, pops items from a queue, and either records a closed
// item (as a parse of the whole graph, and as a candidate for completing
// other items) or extends an open item by completing or shifting. Every
// derivation step is recorded in a raw chart.
module Parsing {
  import opened Wrappers
  import opened Seqs
  import opened Labels
  import opened Graphs
  import opened Rules
  import opened Items

  /** How a chart item was derived: `(item,)` by a shift, `(item, other)` by a completion. */
  datatype Production = Unary(child: Item) | Binary(left: Item, right: Item)

  /** A key of the raw chart: `START` or an item. */
  datatype ChartKey = StartKey | ItemKey(item: Item)

  /** The raw chart: each key's productions, in the order they were first added. */
  type RawChart = map<ChartKey, seq<Production>>

  /** The input graph (its edge listing, and whether it has any node at all), the start symbol, and partial mode. */
  datatype ParseInput = ParseInput(graph: seq<Triple>, hasNodes: bool, startSymbol: string, partial: bool)

  /**
   * The parser's working state: the queue and its `pending` copy, the visited
   * items, the attempted completion pairs (with `tried`, the order they were
   * attempted in), the closed items by symbol, the open items by outside
   * symbol, the raw chart and the step counter.
   */
  datatype Agenda = Agenda(
    queue: seq<Item>,
    pending: set<Item>,
    visited: set<Item>,
    attempted: set<(Item, Item)>,
    tried: seq<(Item, Item)>,
    ntLookup: map<string, seq<Item>>,
    revLookup: map<string, seq<Item>>,
    chart: RawChart,
    steps: nat)

  datatype ParseError = ParseKeyError | ParseAssertionError

  /** `successful_parse`: the start symbol, with every edge of the graph consumed. */
  predicate SuccessfulParse(item: Item, startSymbol: string, graphSize: nat)
  {
    item.rule.symbol == startSymbol && |item.shifted| == graphSize
  }

  /** The entries under `s` of an ordered-set table (empty when absent). */
  function Listed(m: map<string, seq<Item>>, s: string): seq<Item>
  {
    if s in m then m[s] else []
  }

  /** `table[s].add(x)` on an ordered set: appended unless already there. */
  function Enlist(m: map<string, seq<Item>>, s: string, x: Item): (r: map<string, seq<Item>>)
    ensures r.Keys == m.Keys + {s}
    ensures forall t :: t in r && t != s ==> r[t] == m[t]
    ensures forall y :: y in r[s] <==> y in Listed(m, s) || y == x
  {
    if x in Listed(m, s) then m[s := Listed(m, s)] else m[s := Listed(m, s) + [x]]
  }

  /** The productions recorded under `k` (none when absent): `chart[k]` on a default dictionary. */
  function Prods(c: RawChart, k: ChartKey): seq<Production>
  {
    if k in c then c[k] else []
  }

  /** `chart[k].add(p)` on a default dictionary of sets: `p` is added unless already there. */
  function AddProd(c: RawChart, k: ChartKey, p: Production): (r: RawChart)
    ensures r.Keys == c.Keys + {k}
    ensures forall q :: q in r[k] <==> q in Prods(c, k) || q == p
    ensures Distinct(Prods(c, k)) ==> Distinct(r[k])
    ensures forall j :: j in c && j != k ==> r[j] == c[j]
  {
    if p in Prods(c, k) then c[k := Prods(c, k)] else c[k := Prods(c, k) + [p]]
  }

  /** Appends an item to the queue unless it is pending or visited. */
  function Push(a: Agenda, n: Item): Agenda
  {
    if n in a.pending || n in a.visited then a
    else a.(queue := a.queue + [n], pending := a.pending + {n})
  }

  // ---------------------------------------------------------------------------
  // Invariants

  /**
   * A production is a real derivation step: a `START` entry is a closed item
   * of the start symbol that consumed the whole graph (or any closed item of
   * the start symbol in partial mode); a shift entry shifts a graph edge the
   * item can shift past its terminal outside edge; a completion entry
   * completes with an item it can complete.
   */
  ghost predicate ProductionOk(inp: ParseInput, k: ChartKey, p: Production)
  {
    match p
    case Unary(i) =>
      ItemRule(i.rule) &&
      (match k
       case StartKey => Closed(i) && i.rule.symbol == inp.startSymbol && (inp.partial || |i.shifted| == |inp.graph|)
       case ItemKey(n) => !OutsideIsNonterminal(i) && exists e :: e in inp.graph && CanShift(i, e) && n == Shift(i, e))
    case Binary(i, o) =>
      k.ItemKey? && ItemRule(i.rule) && ItemRule(o.rule) && Outside(i).Some? &&
      CanComplete(i, o) == Ok(true) && Complete(i, o) == Ok(k.item)
  }

  ghost predicate ChartOk(inp: ParseInput, c: RawChart)
  {
    (forall k, p :: k in c && p in c[k] ==> ProductionOk(inp, k, p)) &&
    (forall k :: k in c ==> Distinct(c[k]))
  }

  /** `pending` is the set of queued items, the queue holds no item twice, and every queued item has an item rule. */
  ghost predicate QueueOk(a: Agenda)
  {
    a.pending == Elems(a.queue) && Distinct(a.queue) &&
    forall i :: 0 <= i < |a.queue| ==> ItemRule(a.queue[i].rule)
  }

  /** The lookups index closed items by rule symbol and open items by outside symbol. */
  ghost predicate LookupsOk(a: Agenda)
  {
    ClosedIndexOk(a.ntLookup) && OpenIndexOk(a.revLookup)
  }

  /** Every item listed under `s` is closed and has symbol `s`. */
  ghost predicate ClosedIndexOk(m: map<string, seq<Item>>)
  {
    forall s, x :: s in m && x in m[s] ==> ItemRule(x.rule) && Closed(x) && x.rule.symbol == s
  }

  /** Every item listed under `s` expects a nonterminal of symbol `s`. */
  ghost predicate OpenIndexOk(m: map<string, seq<Item>>)
  {
    forall s, x :: s in m && x in m[s] ==> ItemRule(x.rule) && OutsideSymbol(x) == Some(s)
  }

  /** Each attempted pair was attempted once. */
  ghost predicate TriedOk(a: Agenda)
  {
    Elems(a.tried) == a.attempted && Distinct(a.tried)
  }

  ghost predicate AgendaOk(inp: ParseInput, a: Agenda)
  {
    QueueOk(a) && LookupsOk(a) && ChartOk(inp, a.chart) && TriedOk(a)
  }

  /** Some `START` entry is a successful parse. */
  ghost predicate HasSuccess(inp: ParseInput, c: RawChart)
  {
    StartKey in c && exists p :: p in c[StartKey] && p.Unary? && SuccessfulParse(p.child, inp.startSymbol, |inp.graph|)
  }

  /** At most one `START` entry is a successful parse. */
  ghost predicate AtMostOneSuccess(inp: ParseInput, c: RawChart)
  {
    StartKey in c ==> forall p, q :: (p in c[StartKey] && q in c[StartKey] && p.Unary? && q.Unary? &&
      SuccessfulParse(p.child, inp.startSymbol, |inp.graph|) && SuccessfulParse(q.child, inp.startSymbol, |inp.graph|)) ==> p == q
  }

  /** Two charts with the same `START` entries. */
  predicate SameStart(c: RawChart, d: RawChart)
  {
    (StartKey in c <==> StartKey in d) && (StartKey in c ==> c[StartKey] == d[StartKey])
  }

  lemma SameStartSuccess(inp: ParseInput, c: RawChart, d: RawChart)
    requires SameStart(c, d)
    ensures HasSuccess(inp, c) <==> HasSuccess(inp, d)
    ensures AtMostOneSuccess(inp, c) <==> AtMostOneSuccess(inp, d)
  {
  }

  lemma AppendOk(a: Agenda, n: Item)
    requires QueueOk(a) && ItemRule(n.rule) && n !in a.pending
    ensures QueueOk(a.(queue := a.queue + [n], pending := a.pending + {n}))
    ensures (a.queue + [n])[..|a.queue|] == a.queue
  {
    assert Elems(a.queue + [n]) == Elems(a.queue) + {n};
  }

  lemma PushOk(a: Agenda, n: Item)
    requires QueueOk(a) && ItemRule(n.rule)
    ensures QueueOk(Push(a, n))
    ensures Push(a, n) == a.(queue := Push(a, n).queue, pending := Push(a, n).pending)
    ensures Push(a, n).queue[..|a.queue|] == a.queue
    ensures n !in a.pending && n !in a.visited ==> Push(a, n).queue == a.queue + [n]
  {
    if !(n in a.pending || n in a.visited) {
      AppendOk(a, n);
    }
  }

  lemma AddProdOk(inp: ParseInput, c: RawChart, k: ChartKey, p: Production)
    requires ChartOk(inp, c) && ProductionOk(inp, k, p)
    ensures ChartOk(inp, AddProd(c, k, p))
  {
  }

  // ---------------------------------------------------------------------------
  // Setup

  function AxiomsOf(rules: seq<VoRule>): (r: seq<Item>)
    ensures |r| == |rules| && forall i :: 0 <= i < |rules| ==> r[i] == Axiom(rules[i])
  {
    if rules == [] then [] else AxiomsOf(rules[..|rules| - 1]) + [Axiom(rules[|rules| - 1])]
  }

  /**
   * One axiom per rule, queued in rule order; those expecting a nonterminal
   * are indexed in the reverse lookup under their outside symbol.
   */
  method Axioms(rules: seq<VoRule>) returns (a: Agenda)
    requires forall r :: r in rules ==> ItemRule(r)
    requires Distinct(rules)
    ensures a.queue == AxiomsOf(rules)
    ensures a.visited == {} && a.attempted == {} && a.tried == [] && a.ntLookup == map[] && a.chart == map[] && a.steps == 0
    ensures QueueOk(a) && LookupsOk(a)
    ensures forall i :: 0 <= i < |rules| && OutsideIsNonterminal(Axiom(rules[i])) ==>
      Axiom(rules[i]) in Listed(a.revLookup, OutsideSymbol(Axiom(rules[i])).value)
  {
    a := Agenda([], {}, {}, {}, [], map[], map[], map[], 0);
    for i := 0 to |rules|
      invariant a.queue == AxiomsOf(rules[..i])
      invariant a.visited == {} && a.attempted == {} && a.tried == [] && a.ntLookup == map[] && a.chart == map[] && a.steps == 0
      invariant QueueOk(a) && LookupsOk(a)
      invariant forall j :: 0 <= j < i && OutsideIsNonterminal(Axiom(rules[j])) ==>
        Axiom(rules[j]) in Listed(a.revLookup, OutsideSymbol(Axiom(rules[j])).value)
    {
      var a0 := a;
      a := AddAxiom(a, rules, i);
      IndexOpenOk(a0.revLookup, Axiom(rules[i]));
    }
    assert rules[..|rules|] == rules;
  }

  /** Indexes an open item expecting a nonterminal under its outside symbol. */
  function IndexOpen(m: map<string, seq<Item>>, x: Item): map<string, seq<Item>>
    requires ItemRule(x.rule)
  {
    if OutsideIsNonterminal(x) then Enlist(m, OutsideSymbol(x).value, x) else m
  }

  lemma IndexOpenOk(m: map<string, seq<Item>>, x: Item)
    requires OpenIndexOk(m) && ItemRule(x.rule)
    ensures OpenIndexOk(IndexOpen(m, x))
    ensures forall s, y :: y in Listed(m, s) ==> y in Listed(IndexOpen(m, x), s)
    ensures OutsideIsNonterminal(x) ==> x in Listed(IndexOpen(m, x), OutsideSymbol(x).value)
  {
  }

  lemma IndexClosedOk(m: map<string, seq<Item>>, x: Item)
    requires ClosedIndexOk(m) && ItemRule(x.rule) && Closed(x)
    ensures ClosedIndexOk(Enlist(m, x.rule.symbol, x))
  {
  }

  method AddAxiom(a: Agenda, rules: seq<VoRule>, i: nat) returns (b: Agenda)
    requires i < |rules| && (forall r :: r in rules ==> ItemRule(r)) && Distinct(rules)
    requires a.queue == AxiomsOf(rules[..i]) && QueueOk(a) && LookupsOk(a)
    ensures ItemRule(rules[i])
    ensures b == a.(queue := a.queue + [Axiom(rules[i])], pending := a.pending + {Axiom(rules[i])},
                    revLookup := IndexOpen(a.revLookup, Axiom(rules[i])))
    ensures b.queue == AxiomsOf(rules[..i + 1]) && QueueOk(b) && LookupsOk(b)
  {
    var x := Axiom(rules[i]);
    assert rules[i] in rules;
    assert rules[..i + 1] == rules[..i] + [rules[i]];
    assert x !in a.pending by {
      forall j | 0 <= j < i ensures a.queue[j] != x {
        assert rules[j] != rules[i];
      }
    }
    AppendOk(a, x);
    b := a.(queue := a.queue + [x], pending := a.pending + {x});
    IndexOpenOk(b.revLookup, x);
    b := b.(revLookup := IndexOpen(b.revLookup, x));
  }

  // ---------------------------------------------------------------------------
  // The loop steps

  /**
   * Wakes up the items in `rs`: each one that is not pending is queued again,
   * visited or not.
   */
  method WakeUp(a: Agenda, rs: seq<Item>) returns (b: Agenda)
    requires QueueOk(a) && forall x :: x in rs ==> ItemRule(x.rule)
    ensures QueueOk(b)
    ensures b == a.(queue := b.queue, pending := b.pending)
    ensures |b.queue| >= |a.queue| && b.queue[..|a.queue|] == a.queue
    ensures Elems(b.queue) == Elems(a.queue) + Elems(rs)
  {
    b := a;
    for i := 0 to |rs|
      invariant QueueOk(b)
      invariant b == a.(queue := b.queue, pending := b.pending)
      invariant |b.queue| >= |a.queue| && b.queue[..|a.queue|] == a.queue
      invariant Elems(b.queue) == Elems(a.queue) + Elems(rs[..i])
    {
      assert rs[..i + 1] == rs[..i] + [rs[i]];
      assert rs[i] in rs;
      if rs[i] !in b.pending {
        AppendOk(b, rs[i]);
        assert (b.queue + [rs[i]])[..|a.queue|] == b.queue[..|a.queue|];
        b := b.(queue := b.queue + [rs[i]], pending := b.pending + {rs[i]});
      }
    }
    assert rs[..|rs|] == rs;
  }

  /** The `START` entry a popped closed item earns: as a successful parse, or in partial mode by its symbol alone. */
  function RecordStart(inp: ParseInput, c: RawChart, item: Item): RawChart
  {
    if SuccessfulParse(item, inp.startSymbol, |inp.graph|) || (inp.partial && inp.startSymbol == item.rule.symbol)
    then AddProd(c, StartKey, Unary(item))
    else c
  }

  /**
   * Recording keeps the chart sound and touches only `START`; a successful
   * parse is recorded there, and anything else recorded is no successful
   * parse.
   */
  lemma RecordStartOk(inp: ParseInput, c: RawChart, item: Item)
    requires ChartOk(inp, c) && ItemRule(item.rule) && Closed(item)
    ensures ChartOk(inp, RecordStart(inp, c, item))
    ensures forall k :: k != StartKey ==>
      (k in c <==> k in RecordStart(inp, c, item)) && (k in c ==> RecordStart(inp, c, item)[k] == c[k])
    ensures SuccessfulParse(item, inp.startSymbol, |inp.graph|) ==>
      StartKey in RecordStart(inp, c, item) && Unary(item) in RecordStart(inp, c, item)[StartKey] &&
      HasSuccess(inp, RecordStart(inp, c, item)) &&
      (!HasSuccess(inp, c) ==> AtMostOneSuccess(inp, RecordStart(inp, c, item)))
    ensures !SuccessfulParse(item, inp.startSymbol, |inp.graph|) ==>
      (HasSuccess(inp, RecordStart(inp, c, item)) <==> HasSuccess(inp, c)) &&
      (AtMostOneSuccess(inp, c) ==> AtMostOneSuccess(inp, RecordStart(inp, c, item)))
  {
    var d := RecordStart(inp, c, item);
    if d != c {
      AddProdOk(inp, c, StartKey, Unary(item));
      if SuccessfulParse(item, inp.startSymbol, |inp.graph|) {
        assert HasSuccess(inp, d) by {
          assert Unary(item) in d[StartKey];
        }
      }
    }
  }

  /**
   * A popped closed item: a successful parse (or, in partial mode, any item of
   * the start symbol) is recorded under `START`; with `stopAtFirst` a
   * successful parse ends the search at once. Otherwise the item is indexed
   * under its symbol and the open items waiting for that symbol wake up.
   */
  method VisitClosed(inp: ParseInput, a: Agenda, item: Item, stopAtFirst: bool) returns (b: Agenda, stop: bool)
    requires AgendaOk(inp, a) && ItemRule(item.rule) && Closed(item)
    ensures AgendaOk(inp, b)
    ensures stop <==> stopAtFirst && SuccessfulParse(item, inp.startSymbol, |inp.graph|)
    ensures b.chart == RecordStart(inp, a.chart, item)
    ensures stop ==> b == a.(chart := b.chart)
    ensures !stop ==> b == a.(queue := b.queue, pending := b.pending, ntLookup := Enlist(a.ntLookup, item.rule.symbol, item),
                              chart := b.chart)
    ensures !stop ==> Elems(b.queue) == Elems(a.queue) + Elems(Listed(a.revLookup, item.rule.symbol))
  {
    RecordStartOk(inp, a.chart, item);
    var c := RecordStart(inp, a.chart, item);
    if stopAtFirst && SuccessfulParse(item, inp.startSymbol, |inp.graph|) {
      return a.(chart := c), true;
    }
    IndexClosedOk(a.ntLookup, item);
    b := a.(chart := c, ntLookup := Enlist(a.ntLookup, item.rule.symbol, item));
    var rs := Listed(b.revLookup, item.rule.symbol);
    assert forall x :: x in rs ==> ItemRule(x.rule);
    b := WakeUp(b, rs);
    stop := false;
  }

  /** One completion attempt against `other`, skipped if already attempted. */
  method TryComplete(inp: ParseInput, a: Agenda, item: Item, other: Item) returns (r: Result<Agenda, ParseError>)
    requires AgendaOk(inp, a) && ItemRule(item.rule) && ItemRule(other.rule) && Outside(item).Some?
    ensures r.Ok? ==> AgendaOk(inp, r.value)
    ensures r.Ok? ==> r.value == a.(queue := r.value.queue, pending := r.value.pending,
      attempted := r.value.attempted, tried := r.value.tried, chart := r.value.chart)
    ensures r.Ok? ==> SameStart(a.chart, r.value.chart)
    ensures r.Ok? ==> r.value.attempted == a.attempted + {(item, other)}
    ensures r.Err? ==> r.error == ParseKeyError
  {
    if (item, other) in a.attempted {
      return Ok(a);
    }
    var b := a.(attempted := a.attempted + {(item, other)}, tried := a.tried + [(item, other)]);
    assert TriedOk(b) by {
      assert (item, other) !in a.tried;
    }
    match CanComplete(item, other)
    case Err(_) =>
      return Err(ParseKeyError);
    case Ok(ok) =>
      if !ok {
        return Ok(b);
      }
      match Complete(item, other)
      case Err(_) =>
        return Err(ParseKeyError);
      case Ok(n) =>
        assert ProductionOk(inp, ItemKey(n), Binary(item, other));
        AddProdOk(inp, b.chart, ItemKey(n), Binary(item, other));
        b := b.(chart := AddProd(b.chart, ItemKey(n), Binary(item, other)));
        assert ItemRule(n.rule);
        PushOk(b, n);
        return Ok(Push(b, n));
  }

  /**
   * A popped open item whose outside edge is a nonterminal: it is indexed
   * under its outside symbol, then tried against every closed item of that
   * symbol it has not been tried against yet.
   */
  method Completions(inp: ParseInput, a: Agenda, item: Item) returns (r: Result<Agenda, ParseError>)
    requires AgendaOk(inp, a) && ItemRule(item.rule) && OutsideIsNonterminal(item)
    ensures r.Ok? ==> AgendaOk(inp, r.value)
    ensures r.Ok? ==> r.value == a.(queue := r.value.queue, pending := r.value.pending, attempted := r.value.attempted,
      tried := r.value.tried, revLookup := r.value.revLookup, chart := r.value.chart)
    ensures r.Ok? ==> SameStart(a.chart, r.value.chart)
    ensures r.Ok? ==> item in Listed(r.value.revLookup, OutsideSymbol(item).value)
    ensures r.Ok? ==> forall o :: o in Listed(a.ntLookup, OutsideSymbol(item).value) ==> (item, o) in r.value.attempted
    ensures r.Err? ==> r.error == ParseKeyError
  {
    var sym := OutsideSymbol(item).value;
    var b := a.(revLookup := Enlist(a.revLookup, sym, item));
    assert LookupsOk(b);
    var others := Listed(b.ntLookup, sym);
    for i := 0 to |others|
      invariant AgendaOk(inp, b)
      invariant b == a.(queue := b.queue, pending := b.pending, attempted := b.attempted,
        tried := b.tried, revLookup := b.revLookup, chart := b.chart)
      invariant b.revLookup == Enlist(a.revLookup, sym, item)
      invariant SameStart(a.chart, b.chart)
      invariant forall j :: 0 <= j < i ==> (item, others[j]) in b.attempted
      invariant a.attempted <= b.attempted
    {
      assert others[i] in Listed(a.ntLookup, sym);
      var step := TryComplete(inp, b, item, others[i]);
      if step.Err? {
        return Err(step.error);
      }
      b := step.value;
    }
    return Ok(b);
  }

  /** The graph edges labelled `rel`, each once: `edge_terminal_lookup[rel]`. */
  function EdgesLabelled(graph: seq<Triple>, rel: Label): (r: seq<Triple>)
    ensures forall e :: e in r <==> e in graph && e.rel == rel
  {
    Dedup(Filter(graph, (e: Triple) => e.rel == rel))
  }

  /**
   * A popped open item whose outside edge is a terminal: every graph edge with
   * that label that the item can shift yields a shifted item, recorded in the
   * chart and queued unless pending or visited. An input graph without nodes
   * fails the `assert graph`.
   */
  method Shifts(inp: ParseInput, a: Agenda, item: Item) returns (r: Result<Agenda, ParseError>)
    requires AgendaOk(inp, a) && ItemRule(item.rule) && Outside(item).Some? && !OutsideIsNonterminal(item)
    ensures r.Err? <==> !inp.hasNodes
    ensures r.Err? ==> r.error == ParseAssertionError
    ensures r.Ok? ==> AgendaOk(inp, r.value)
    ensures r.Ok? ==> r.value == a.(queue := r.value.queue, pending := r.value.pending, chart := r.value.chart)
    ensures r.Ok? ==> SameStart(a.chart, r.value.chart)
    ensures r.Ok? ==> forall e :: e in inp.graph ==> ShiftRecorded(r.value.chart, item, e)
  {
    if !inp.hasNodes {
      return Err(ParseAssertionError);
    }
    var edges := EdgesLabelled(inp.graph, Outside(item).value.rel);
    var b := a;
    for i := 0 to |edges|
      invariant AgendaOk(inp, b)
      invariant b == a.(queue := b.queue, pending := b.pending, chart := b.chart)
      invariant SameStart(a.chart, b.chart)
      invariant forall j :: 0 <= j < i ==> ShiftRecorded(b.chart, item, edges[j])
    {
      var b0 := b;
      b := ShiftOne(inp, b, item, edges[i]);
      forall j | 0 <= j < i ensures ShiftRecorded(b.chart, item, edges[j]) {
        RecordedKept(b0.chart, b.chart, item, edges[j]);
      }
    }
    forall e | e in inp.graph ensures ShiftRecorded(b.chart, item, e) {
      if CanShift(item, e) {
        assert e in edges;
        var j :| 0 <= j < |edges| && edges[j] == e;
      }
    }
    return Ok(b);
  }

  /** Shifting `e` past the outside edge of `item`, when it can, is recorded as a shift production. */
  predicate ShiftRecorded(c: RawChart, item: Item, e: Triple)
    requires ItemRule(item.rule)
  {
    CanShift(item, e) ==> ItemKey(Shift(item, e)) in c && Unary(item) in c[ItemKey(Shift(item, e))]
  }

  lemma RecordedKept(c: RawChart, d: RawChart, item: Item, e: Triple)
    requires ItemRule(item.rule) && ShiftRecorded(c, item, e)
    requires forall k :: k in c ==> k in d && forall p :: p in c[k] ==> p in d[k]
    ensures ShiftRecorded(d, item, e)
  {
  }

  method ShiftOne(inp: ParseInput, a: Agenda, item: Item, e: Triple) returns (b: Agenda)
    requires AgendaOk(inp, a) && ItemRule(item.rule) && Outside(item).Some? && !OutsideIsNonterminal(item) && e in inp.graph
    ensures AgendaOk(inp, b)
    ensures b == a.(queue := b.queue, pending := b.pending, chart := b.chart)
    ensures SameStart(a.chart, b.chart)
    ensures forall k :: k in a.chart ==> k in b.chart && forall p :: p in a.chart[k] ==> p in b.chart[k]
    ensures ShiftRecorded(b.chart, item, e)
  {
    b := a;
    if CanShift(item, e) {
      var n := Shift(item, e);
      assert ProductionOk(inp, ItemKey(n), Unary(item));
      AddProdOk(inp, b.chart, ItemKey(n), Unary(item));
      b := b.(chart := AddProd(b.chart, ItemKey(n), Unary(item)));
      PushOk(b, n);
      b := Push(b, n);
    }
  }

  // ---------------------------------------------------------------------------
  // The search

  /**
   * The step budget: `max_steps` when it is set and non-zero (a negative one
   * allows no step); otherwise the loop runs until the queue empties, which the
   * model bounds by `fuel`.
   */
  function Limit(maxSteps: Option<int>, fuel: nat): nat
  {
    if maxSteps.Some? && maxSteps.value != 0 then (if maxSteps.value < 0 then 0 else maxSteps.value) else fuel
  }

  /**
   * `parse`: the breadth-first search. On success the final agenda keeps every
   * invariant (the queue mirrors `pending`, every chart entry is a real
   * derivation step, each completion pair was attempted once), at most the
   * budget of items was popped, and the search ended with an empty queue, an
   * exhausted budget or, with `stopAtFirst`, right after the only successful
   * parse. A failed lookup in a completion, or a shift on a graph without
   * nodes, is an error.
   */
  method Parse(rules: seq<VoRule>, inp: ParseInput, stopAtFirst: bool, maxSteps: Option<int>, fuel: nat)
    returns (r: Result<Agenda, ParseError>)
    requires forall x :: x in rules ==> ItemRule(x)
    requires Distinct(rules)
    ensures r.Ok? ==> AgendaOk(inp, r.value)
    ensures r.Ok? ==> r.value.steps <= Limit(maxSteps, fuel)
    ensures r.Ok? ==> r.value.queue == [] || r.value.steps == Limit(maxSteps, fuel) || (stopAtFirst && HasSuccess(inp, r.value.chart))
    ensures r.Ok? && stopAtFirst ==> AtMostOneSuccess(inp, r.value.chart)
  {
    var a := Axioms(rules);
    assert AgendaOk(inp, a);
    var limit := Limit(maxSteps, fuel);
    var stopped := false;
    while a.queue != [] && a.steps < limit && !stopped
      invariant AgendaOk(inp, a)
      invariant a.steps <= limit
      invariant stopAtFirst ==> AtMostOneSuccess(inp, a.chart) && (HasSuccess(inp, a.chart) <==> stopped)
      invariant stopped ==> stopAtFirst
      decreases limit - a.steps, if stopped then 0 else 1
    {
      var step, stop := ParseStep(inp, a, stopAtFirst);
      if step.Err? {
        return Err(step.error);
      }
      a, stopped := step.value, stop;
    }
    return Ok(a);
  }

  /** One turn of the search loop: pops the head of the queue and visits, completes or shifts it. */
  method ParseStep(inp: ParseInput, a0: Agenda, stopAtFirst: bool) returns (r: Result<Agenda, ParseError>, stopped: bool)
    requires AgendaOk(inp, a0) && a0.queue != []
    requires stopAtFirst ==> AtMostOneSuccess(inp, a0.chart) && !HasSuccess(inp, a0.chart)
    ensures r.Ok? ==> AgendaOk(inp, r.value) && r.value.steps == a0.steps + 1
    ensures r.Ok? && stopAtFirst ==> AtMostOneSuccess(inp, r.value.chart) && (HasSuccess(inp, r.value.chart) <==> stopped)
    ensures stopped ==> stopAtFirst && r.Ok?
  {
    if Closed(a0.queue[0]) {
      r, stopped := VisitStep(inp, a0, stopAtFirst);
    } else {
      r := AdvanceStep(inp, a0, stopAtFirst);
      stopped := false;
    }
  }

  /** A closed item: record it in the chart, perhaps as the successful parse. */
  method VisitStep(inp: ParseInput, a0: Agenda, stopAtFirst: bool) returns (r: Result<Agenda, ParseError>, stopped: bool)
    requires AgendaOk(inp, a0) && a0.queue != []
    requires stopAtFirst ==> AtMostOneSuccess(inp, a0.chart) && !HasSuccess(inp, a0.chart)
    requires Closed(a0.queue[0])
    ensures r.Ok? ==> AgendaOk(inp, r.value) && r.value.steps == a0.steps + 1
    ensures r.Ok? && stopAtFirst ==> AtMostOneSuccess(inp, r.value.chart) && (HasSuccess(inp, r.value.chart) <==> stopped)
    ensures stopped ==> stopAtFirst && r.Ok?
  {
    var item := a0.queue[0];
    var a := Pop(inp, a0);
    a, stopped := VisitClosed(inp, a, item, stopAtFirst);
    r := Ok(a);
  }

  /** An open item: complete it with the closed items it waits for, or shift it over the graph's edges. */
  method AdvanceStep(inp: ParseInput, a0: Agenda, stopAtFirst: bool) returns (r: Result<Agenda, ParseError>)
    requires AgendaOk(inp, a0) && a0.queue != [] && !Closed(a0.queue[0])
    requires stopAtFirst ==> AtMostOneSuccess(inp, a0.chart) && !HasSuccess(inp, a0.chart)
    ensures r.Ok? ==> AgendaOk(inp, r.value) && r.value.steps == a0.steps + 1
    ensures r.Ok? && stopAtFirst ==> AtMostOneSuccess(inp, r.value.chart) && !HasSuccess(inp, r.value.chart)
  {
    var item := a0.queue[0];
    var a := Pop(inp, a0);
    if OutsideIsNonterminal(item) {
      r := Completions(inp, a, item);
    } else {
      r := Shifts(inp, a, item);
    }
  }

  /**
   * The older `parse`, with `max_steps` passed per call and no early stop:
   * the search ends only with an empty queue or an exhausted budget.
   */
  method ParseAll(rules: seq<VoRule>, inp: ParseInput, maxSteps: Option<int>, fuel: nat)
    returns (r: Result<Agenda, ParseError>)
    requires forall x :: x in rules ==> ItemRule(x)
    requires Distinct(rules)
    ensures r.Ok? ==> AgendaOk(inp, r.value)
    ensures r.Ok? ==> r.value.steps <= Limit(maxSteps, fuel)
    ensures r.Ok? ==> r.value.queue == [] || r.value.steps == Limit(maxSteps, fuel)
  {
    r := Parse(rules, inp, false, maxSteps, fuel);
  }

  /** Pops the head of the queue and marks it visited. */
  method Pop(inp: ParseInput, a: Agenda) returns (b: Agenda)
    requires AgendaOk(inp, a) && a.queue != []
    ensures AgendaOk(inp, b) && ItemRule(a.queue[0].rule)
    ensures b == a.(queue := a.queue[1..], pending := a.pending - {a.queue[0]}, visited := a.visited + {a.queue[0]}, steps := a.steps + 1)
  {
    var item := a.queue[0];
    b := a.(queue := a.queue[1..], pending := a.pending - {item}, visited := a.visited + {item}, steps := a.steps + 1);
    assert Elems(b.queue) == Elems(a.queue) - {item} by {
      assert a.queue == [item] + b.queue;
      forall j | 0 <= j < |b.queue| ensures b.queue[j] != item {
        assert b.queue[j] == a.queue[j + 1];
      }
    }
    assert QueueOk(b) by {
      forall i, j | 0 <= i < j < |b.queue| ensures b.queue[i] != b.queue[j] {
        assert b.queue[i] == a.queue[i + 1] && b.queue[j] == a.queue[j + 1];
      }
      forall i | 0 <= i < |b.queue| ensures ItemRule(b.queue[i].rule) {
        assert b.queue[i] == a.queue[i + 1];
      }
    }
  }
}
