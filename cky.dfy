// The conversion of the parser's raw chart into a CKY chart: a walk from
// `START` over the recorded productions collects the reachable keys; every
// reachable `START` or closed item then gets the list of ways it was
// completed, each a dictionary from the rule's nonterminal slots to the closed
// items that filled them, optionally with permutations of the same
// combination removed.
module Cky {
  import opened Wrappers
  import opened Seqs
  import opened Strings
  import opened Sorting
  import opened Labels
  import opened Graphs
  import opened Rules
  import opened Items
  import opened Parsing

  /** A key of a CKY split: `"START"` or an outside nonterminal `(symbol, index)`. */
  datatype Slot = StartSlot | NtSlot(nt: NonterminalLabel)

  /** One way of completing an item: a dictionary from slots to the closed items that fill them, in insertion order. */
  type Split = seq<(Slot, Item)>

  type CkyChart = map<ChartKey, seq<Split>>

  /** The two assertions of `search_productions` that can fail: productions of mixed arity, and a completion whose left item has no outside nonterminal. */
  datatype CkyError = MixedArity | NoOutsideNonterminal

  // ---------------------------------------------------------------------------
  // Dictionaries as association lists

  function Lookup(d: Split, k: Slot): Option<Item>
  {
    if d == [] then None else if d[0].0 == k then Some(d[0].1) else Lookup(d[1..], k)
  }

  /** `d[k] = v`: an existing entry is overwritten in place, a new one is appended. */
  function Put(d: Split, k: Slot, v: Item): (r: Split)
    ensures Lookup(r, k) == Some(v)
    ensures forall j :: j != k ==> Lookup(r, j) == Lookup(d, j)
  {
    if d == [] then [(k, v)]
    else if d[0].0 == k then [(k, v)] + d[1..]
    else [d[0]] + Put(d[1..], k, v)
  }

  // ---------------------------------------------------------------------------
  // What the raw chart must satisfy

  /** The items of a production tuple, in order. */
  function Kids(p: Production): seq<Item>
  {
    match p
    case Unary(x) => [x]
    case Binary(l, r) => [l, r]
  }

  /** `production[0]`. */
  function First(p: Production): Item
  {
    match p
    case Unary(x) => x
    case Binary(l, _) => l
  }

  /** The items of a production carry item rules, and the first one is smaller than the item it derives. */
  predicate Grounded(k: ChartKey, p: Production)
  {
    (forall x :: x in Kids(p) ==> ItemRule(x.rule)) && (k.ItemKey? ==> First(p).size < k.item.size)
  }

  ghost predicate Settled(c: RawChart)
  {
    forall k, p :: k in c && p in c[k] ==> Grounded(k, p)
  }

  /** Settled, and each item's productions are all shifts or all completions, each completion's left item expecting a nonterminal. */
  ghost predicate Coherent(c: RawChart)
  {
    Settled(c) &&
    (forall k, p, q :: k in c && k.ItemKey? && p in c[k] && q in c[k] ==> p.Unary? == q.Unary?) &&
    (forall k, p :: k in c && p in c[k] && p.Binary? ==> ItemRule(p.left.rule) && OutsideIsNonterminal(p.left))
  }

  /** A recorded step derives its item from a smaller item of the same rule: a shift past a terminal, a completion past a nonterminal. */
  lemma StepKind(inp: ParseInput, k: ChartKey, p: Production)
    requires k.ItemKey? && ProductionOk(inp, k, p)
    ensures ItemRule(First(p).rule) && First(p).rule == k.item.rule && First(p).size + 1 == k.item.size
    ensures p.Unary? <==> !OutsideIsNonterminal(First(p))
  {
    match p
    case Unary(i) =>
      var e :| e in inp.graph && CanShift(i, e) && k.item == Shift(i, e);
    case Binary(i, o) =>
      CanCompleteMeans(i, o);
      CompleteEffect(i, o);
  }

  lemma SameOutside(a: Item, b: Item)
    requires ItemRule(a.rule) && a.rule == b.rule && a.size == b.size
    ensures OutsideIsNonterminal(a) == OutsideIsNonterminal(b)
  {
  }

  /** Every chart the parser builds is coherent, so the assertions of `search_productions` hold on it. */
  lemma ChartCoherent(inp: ParseInput, c: RawChart)
    requires ChartOk(inp, c)
    ensures Coherent(c)
  {
    forall k, p | k in c && p in c[k] ensures Grounded(k, p) {
      if k.ItemKey? {
        StepKind(inp, k, p);
      }
    }
    forall k, p, q | k in c && k.ItemKey? && p in c[k] && q in c[k] ensures p.Unary? == q.Unary? {
      StepKind(inp, k, p);
      StepKind(inp, k, q);
      SameOutside(First(p), First(q));
    }
    forall k, p | k in c && p in c[k] && p.Binary? ensures ItemRule(p.left.rule) && OutsideIsNonterminal(p.left) {
      CanCompleteMeans(p.left, p.right);
    }
  }

  // ---------------------------------------------------------------------------
  // search_productions

  function Height(k: ChartKey): nat
  {
    if k.ItemKey? then k.item.size else 0
  }

  predicate SameArity(prods: seq<Production>)
  {
    forall j :: 0 <= j < |prods| ==> prods[j].Unary? == prods[0].Unary?
  }

  /**
   * `search_productions`: `START` yields one `{START: item}` per entry; an
   * item derived by shifts follows its first shift; an item derived by
   * completions yields, per completion, the earlier step's options each
   * extended with the completing item under the outside nonterminal's slot.
   */
  function Search(c: RawChart, k: ChartKey): (r: Result<seq<Split>, CkyError>)
    requires Settled(c)
    ensures Prods(c, k) == [] ==> r == Ok([])
    ensures k == StartKey ==> (r.Ok? && |r.value| == |Prods(c, k)| &&
      forall j :: 0 <= j < |r.value| ==> r.value[j] == [(StartSlot, First(Prods(c, k)[j]))])
    decreases Height(k), 1, 0
  {
    var prods := Prods(c, k);
    if prods == [] then Ok([])
    else if k == StartKey then Ok(seq(|prods|, j requires 0 <= j < |prods| => [(StartSlot, First(prods[j]))]))
    else if !SameArity(prods) then Err(MixedArity)
    else
      assert prods[0] in c[k] && Grounded(k, prods[0]);
      if prods[0].Binary? then
        var left := prods[0].left;
        if !OutsideIsNonterminal(left) then Err(NoOutsideNonterminal)
        else Combine(c, k, prods, NtSlot(Outside(left).value.rel.nt))
      else Search(c, ItemKey(prods[0].child))
  }

  /** The options of one completion: the earlier step's options extended with `x` under `slot`, or `{slot: x}` alone. */
  function Extend(opts: seq<Split>, slot: Slot, x: Item): (r: seq<Split>)
    ensures |r| == if opts == [] then 1 else |opts|
    ensures forall d :: d in r ==> Lookup(d, slot) == Some(x)
  {
    if opts == [] then [[(slot, x)]] else seq(|opts|, j requires 0 <= j < |opts| => Put(opts[j], slot, x))
  }

  function Combine(c: RawChart, k: ChartKey, prods: seq<Production>, slot: Slot): (r: Result<seq<Split>, CkyError>)
    requires Settled(c) && k in c && k.ItemKey?
    requires forall p :: p in prods ==> p in c[k] && p.Binary?
    decreases Height(k), 0, |prods|
  {
    if prods == [] then Ok([])
    else
      assert Grounded(k, prods[0]);
      match Search(c, ItemKey(prods[0].left))
      case Err(e) => Err(e)
      case Ok(opts) =>
        match Combine(c, k, prods[1..], slot)
        case Err(e) => Err(e)
        case Ok(more) => Ok(Extend(opts, slot, prods[0].right) + more)
  }

  /**
   * The result of a completion-derived item holds exactly the options of its
   * completions: every dictionary fills the slot with the completing item of
   * some completion, and every completion contributes each of its earlier
   * step's options extended by its completing item (or `{slot: item}` alone
   * when there is none).
   */
  lemma {:induction false} CombineMeans(c: RawChart, k: ChartKey, prods: seq<Production>, slot: Slot)
    requires Settled(c) && k in c && k.ItemKey?
    requires forall p :: p in prods ==> p in c[k] && p.Binary?
    requires Combine(c, k, prods, slot).Ok?
    ensures forall d :: d in Combine(c, k, prods, slot).value ==>
      exists j :: 0 <= j < |prods| && Lookup(d, slot) == Some(prods[j].right)
    ensures forall j :: 0 <= j < |prods| ==> ItemRule(prods[j].left.rule) && Search(c, ItemKey(prods[j].left)).Ok?
    ensures forall j, d :: 0 <= j < |prods| && d in Extend(Search(c, ItemKey(prods[j].left)).value, slot, prods[j].right) ==>
      d in Combine(c, k, prods, slot).value
    decreases |prods|
  {
    if prods != [] {
      assert Grounded(k, prods[0]);
      var opts := Search(c, ItemKey(prods[0].left)).value;
      var more := Combine(c, k, prods[1..], slot).value;
      var here := Extend(opts, slot, prods[0].right);
      CombineMeans(c, k, prods[1..], slot);
      assert Combine(c, k, prods, slot).value == here + more;
      forall d | d in here + more ensures exists j :: 0 <= j < |prods| && Lookup(d, slot) == Some(prods[j].right) {
        if d !in here {
          var j :| 0 <= j < |prods[1..]| && Lookup(d, slot) == Some(prods[1..][j].right);
          assert prods[j + 1] == prods[1..][j];
        }
      }
      forall j | 0 <= j < |prods| ensures ItemRule(prods[j].left.rule) && Search(c, ItemKey(prods[j].left)).Ok? {
        if j > 0 {
          assert prods[j] == prods[1..][j - 1];
        }
      }
      forall j | 0 <= j < |prods|
        ensures forall d :: d in Extend(Search(c, ItemKey(prods[j].left)).value, slot, prods[j].right) ==> d in here + more
      {
        if j > 0 {
          assert prods[j] == prods[1..][j - 1];
        }
      }
    }
  }

  /** On a coherent chart no assertion of `search_productions` fails. */
  lemma {:induction false} SearchCoherent(c: RawChart, k: ChartKey)
    requires Coherent(c)
    ensures Search(c, k).Ok?
    decreases Height(k), 1, 0
  {
    var prods := Prods(c, k);
    if prods != [] && k != StartKey {
      assert SameArity(prods) by {
        forall j | 0 <= j < |prods| ensures prods[j].Unary? == prods[0].Unary? {
          assert prods[j] in c[k] && prods[0] in c[k];
        }
      }
      assert prods[0] in c[k] && Grounded(k, prods[0]);
      if prods[0].Binary? {
        assert OutsideIsNonterminal(prods[0].left);
        assert forall p :: p in prods ==> p in c[k] && p.Binary? by {
          forall p | p in prods ensures p in c[k] && p.Binary? {
            var j :| 0 <= j < |prods| && prods[j] == p;
          }
        }
        CombineCoherent(c, k, prods, NtSlot(Outside(prods[0].left).value.rel.nt));
      } else {
        SearchCoherent(c, ItemKey(prods[0].child));
      }
    }
  }

  lemma {:induction false} CombineCoherent(c: RawChart, k: ChartKey, prods: seq<Production>, slot: Slot)
    requires Coherent(c) && k in c && k.ItemKey?
    requires forall p :: p in prods ==> p in c[k] && p.Binary?
    ensures Combine(c, k, prods, slot).Ok?
    decreases Height(k), 0, |prods|
  {
    if prods != [] {
      assert Grounded(k, prods[0]);
      SearchCoherent(c, ItemKey(prods[0].left));
      CombineCoherent(c, k, prods[1..], slot);
    }
  }

  // ---------------------------------------------------------------------------
  // The walk from START

  /** A key reached from `START` in at most `n` steps from a key to an item of one of its productions. */
  ghost predicate ReachIn(c: RawChart, k: ChartKey, n: nat)
    decreases n
  {
    k == StartKey ||
    (n > 0 && k.ItemKey? && exists j :: j in c && ReachIn(c, j, n - 1) && exists p :: p in c[j] && k.item in Kids(p))
  }

  ghost predicate Reachable(c: RawChart, k: ChartKey)
  {
    exists n :: ReachIn(c, k, n)
  }

  /** The keys a walk can push: `START` and every item of a production. */
  ghost function Pushable(c: RawChart): set<ChartKey>
  {
    {StartKey} + set k, p, x | k in c && p in c[k] && x in Kids(p) :: ItemKey(x)
  }

  function ItemKeys(items: seq<Item>): (r: seq<ChartKey>)
    ensures forall y :: y in r <==> y.ItemKey? && y.item in items
  {
    if items == [] then [] else [ItemKey(items[0])] + ItemKeys(items[1..])
  }

  /** The items of a production list, in push order. */
  function ChildKeys(prods: seq<Production>): (r: seq<ChartKey>)
    ensures forall y :: y in r <==> y.ItemKey? && exists p :: p in prods && y.item in Kids(p)
  {
    if prods == [] then []
    else
      assert forall p :: p in prods <==> p == prods[0] || p in prods[1..];
      ItemKeys(Kids(prods[0])) + ChildKeys(prods[1..])
  }

  /**
   * The walk's state over the stacked keys `s`: every key met is reachable
   * within its recorded depth, and every visited key has all its productions'
   * items visited or stacked.
   */
  ghost predicate WalkState(c: RawChart, s: set<ChartKey>, visit: set<ChartKey>, depth: map<ChartKey, nat>)
  {
    s <= Pushable(c) && visit <= Pushable(c) && StartKey in visit + s && s + visit <= depth.Keys &&
    Depths(c, depth) && WalkClosed(c, visit, visit + s)
  }

  /** Every key met is reachable within its recorded depth. */
  ghost predicate Depths(c: RawChart, depth: map<ChartKey, nat>)
  {
    forall k :: k in depth ==> ReachIn(c, k, depth[k])
  }

  /** Every item of a production of a key of `visit` is in `met`. */
  ghost predicate WalkClosed(c: RawChart, visit: set<ChartKey>, met: set<ChartKey>)
  {
    forall k, p, x :: k in visit && p in Prods(c, k) && x in Kids(p) ==> ItemKey(x) in met
  }

  /** The depths after an expansion: the new keys are recorded at depth `n`. */
  ghost function Deeper(depth: map<ChartKey, nat>, kids: set<ChartKey>, n: nat): (d: map<ChartKey, nat>)
    ensures d.Keys == depth.Keys + kids
    ensures forall x :: x in depth ==> d[x] == depth[x]
    ensures forall x :: x in kids && x !in depth ==> d[x] == n
  {
    depth + map x | x in kids && x !in depth :: n
  }

  /** Expanding a fresh key keeps the walk's state. */
  lemma ExpandStep(c: RawChart, s: set<ChartKey>, visit: set<ChartKey>, depth: map<ChartKey, nat>, k: ChartKey)
    requires WalkState(c, s + {k}, visit, depth) && k !in visit
    ensures var kids := Elems(ChildKeys(Prods(c, k)));
      WalkState(c, s + kids, visit + {k}, Deeper(depth, kids, depth[k] + 1))
  {
    var kids := Elems(ChildKeys(Prods(c, k)));
    KidsPushable(c, k, kids);
    KidsReach(c, k, depth[k], kids);
    DepthsExtend(c, depth, kids, depth[k] + 1);
    ClosedExpand(c, visit, visit + s + {k}, k, kids);
    assert visit + {k} + (s + kids) == visit + s + {k} + kids;
  }

  lemma KidsPushable(c: RawChart, k: ChartKey, kids: set<ChartKey>)
    requires kids == Elems(ChildKeys(Prods(c, k)))
    ensures kids <= Pushable(c)
  {
    forall x | x in kids ensures x in Pushable(c) {
      assert x in ChildKeys(Prods(c, k));
      var p :| p in Prods(c, k) && x.item in Kids(p);
      assert k in c && p in c[k];
    }
  }

  lemma KidsReach(c: RawChart, k: ChartKey, n: nat, kids: set<ChartKey>)
    requires ReachIn(c, k, n) && kids == Elems(ChildKeys(Prods(c, k)))
    ensures forall x :: x in kids ==> ReachIn(c, x, n + 1)
  {
    forall x | x in kids ensures ReachIn(c, x, n + 1) {
      assert x in ChildKeys(Prods(c, k));
      var p :| p in Prods(c, k) && x.item in Kids(p);
      assert k in c && p in c[k];
    }
  }

  lemma DepthsExtend(c: RawChart, depth: map<ChartKey, nat>, kids: set<ChartKey>, n: nat)
    requires Depths(c, depth) && forall x :: x in kids ==> ReachIn(c, x, n)
    ensures Depths(c, Deeper(depth, kids, n))
  {
  }

  lemma ClosedExpand(c: RawChart, visit: set<ChartKey>, met: set<ChartKey>, k: ChartKey, kids: set<ChartKey>)
    requires WalkClosed(c, visit, met) && kids == Elems(ChildKeys(Prods(c, k)))
    ensures WalkClosed(c, visit + {k}, met + kids)
  {
    forall j, p, x | j in visit + {k} && p in Prods(c, j) && x in Kids(p)
      ensures ItemKey(x) in met + kids
    {
      if j !in visit {
        assert ItemKey(x) in ChildKeys(Prods(c, k));
      }
    }
  }

  /** A set holding `START` and closed under the walk's step holds every reachable key. */
  lemma {:induction false} ClosedHoldsReachable(c: RawChart, visit: set<ChartKey>, k: ChartKey, n: nat)
    requires StartKey in visit
    requires forall k, p, x :: k in visit && p in Prods(c, k) && x in Kids(p) ==> ItemKey(x) in visit
    requires ReachIn(c, k, n)
    ensures k in visit
    decreases n
  {
    if k != StartKey {
      var j :| j in c && ReachIn(c, j, n - 1) && exists p :: p in c[j] && k.item in Kids(p);
      ClosedHoldsReachable(c, visit, j, n - 1);
      var p :| p in c[j] && k.item in Kids(p);
      assert p in Prods(c, j);
    }
  }

  /** Dropping a visited key keeps the walk's state. */
  lemma SkipStep(c: RawChart, s: set<ChartKey>, visit: set<ChartKey>, depth: map<ChartKey, nat>, k: ChartKey)
    requires WalkState(c, s + {k}, visit, depth) && k in visit
    ensures WalkState(c, s, visit, depth)
  {
  }

  /** Visiting a fresh key brings the walk closer to its end. */
  lemma FreshCloser(c: RawChart, s: set<ChartKey>, visit: set<ChartKey>, depth: map<ChartKey, nat>, k: ChartKey)
    requires WalkState(c, s + {k}, visit, depth) && k !in visit
    ensures |Pushable(c) - (visit + {k})| < |Pushable(c) - visit|
  {
    assert Pushable(c) - (visit + {k}) < Pushable(c) - visit;
  }

  lemma PopElems(stack: seq<ChartKey>)
    requires stack != []
    ensures Elems(stack) == Elems(stack[..|stack| - 1]) + {stack[|stack| - 1]}
  {
    ElemsConcat(stack[..|stack| - 1], [stack[|stack| - 1]]);
    assert stack == stack[..|stack| - 1] + [stack[|stack| - 1]];
  }

  /** Expanding a fresh key, stated on the stack the walk keeps. */
  lemma PushStep(c: RawChart, stack: seq<ChartKey>, visit: set<ChartKey>, depth: map<ChartKey, nat>, k: ChartKey)
    requires WalkState(c, Elems(stack) + {k}, visit, depth) && k !in visit
    ensures WalkState(c, Elems(stack + ChildKeys(Prods(c, k))), visit + {k},
                      Deeper(depth, Elems(ChildKeys(Prods(c, k))), depth[k] + 1))
    ensures |Pushable(c) - (visit + {k})| < |Pushable(c) - visit|
  {
    ExpandStep(c, Elems(stack), visit, depth, k);
    FreshCloser(c, Elems(stack), visit, depth, k);
    ElemsConcat(stack, ChildKeys(Prods(c, k)));
  }

  /** With nothing stacked, the visited keys are exactly the reachable ones. */
  lemma WalkDone(c: RawChart, visit: set<ChartKey>, depth: map<ChartKey, nat>)
    requires WalkState(c, {}, visit, depth)
    ensures forall k :: k in visit <==> Reachable(c, k)
  {
    forall k | Reachable(c, k) ensures k in visit {
      var n :| ReachIn(c, k, n);
      ClosedHoldsReachable(c, visit, k, n);
    }
  }

  /** The stack walk of `get_cky_chart`: the visited keys are exactly those reachable from `START`. */
  method Walk(c: RawChart) returns (visit: set<ChartKey>)
    ensures forall k :: k in visit <==> Reachable(c, k)
  {
    var stack := [StartKey];
    visit := {};
    ghost var depth: map<ChartKey, nat> := map[StartKey := 0];
    assert ReachIn(c, StartKey, 0);
    assert Elems(stack) == {StartKey};
    while stack != []
      invariant WalkState(c, Elems(stack), visit, depth)
      decreases |Pushable(c) - visit|, |stack|
    {
      var k := stack[|stack| - 1];
      PopElems(stack);
      stack := stack[..|stack| - 1];
      if k in visit {
        SkipStep(c, Elems(stack), visit, depth, k);
      } else {
        var kids := ChildKeys(Prods(c, k));
        PushStep(c, stack, visit, depth, k);
        depth := Deeper(depth, Elems(kids), depth[k] + 1);
        visit := visit + {k};
        stack := stack + kids;
      }
    }
    WalkDone(c, visit, depth);
  }

  // ---------------------------------------------------------------------------
  // filter_permutations

  lemma StrLeRefl(a: string)
    ensures StrLe(a, a)
  {
  }

  lemma {:induction false} LeastExists(s: set<string>)
    requires s != {}
    ensures exists m :: m in s && forall x :: x in s ==> StrLe(m, x)
    decreases |s|
  {
    var y :| y in s;
    if s == {y} {
      StrLeRefl(y);
    } else {
      LeastExists(s - {y});
      var m :| m in s - {y} && forall x :: x in s - {y} ==> StrLe(m, x);
      StrLeTotal(m, y);
      if !StrLe(m, y) {
        forall x | x in s ensures StrLe(y, x) {
          if x != y {
            StrLeTrans(y, m, x);
          } else {
            StrLeRefl(y);
          }
        }
      }
    }
  }

  lemma LeastUnique(s: set<string>)
    ensures forall a, b :: a in s && b in s && StrLe(a, b) && StrLe(b, a) ==> a == b
  {
    forall a, b | a in s && b in s && StrLe(a, b) && StrLe(b, a) ensures a == b {
      StrLeAntisym(a, b);
    }
  }

  lemma SortedCons(m: string, rest: seq<string>)
    requires SortedBy(rest, StrLe) && forall x :: x in rest ==> StrLe(m, x)
    ensures SortedBy([m] + rest, StrLe)
    ensures Elems([m] + rest) == {m} + Elems(rest)
  {
    var r := [m] + rest;
    forall i, j | 0 <= i < j < |r| ensures StrLe(r[i], r[j]) {
      assert r[j] == rest[j - 1];
      if i > 0 {
        assert r[i] == rest[i - 1];
      }
    }
    ElemsConcat([m], rest);
  }

  lemma ConsDistinct(m: string, rest: seq<string>)
    requires Distinct(rest) && m !in Elems(rest)
    ensures Distinct([m] + rest)
  {
    var r := [m] + rest;
    forall i, j | 0 <= i < j < |r| ensures r[i] != r[j] {
      assert r[j] == rest[j - 1] && r[j] in Elems(rest);
      if i > 0 {
        assert r[i] == rest[i - 1];
      }
    }
  }

  /** `sorted(s)` for a set of strings. */
  function SortedSet(s: set<string>): (r: seq<string>)
    ensures Elems(r) == s
    ensures SortedBy(r, StrLe)
    ensures Distinct(r)
    decreases |s|
  {
    if s == {} then []
    else
      var m := Least(s);
      var rest := SortedSet(s - {m});
      ConsLeast(s, m, rest);
      [m] + rest
  }

  lemma ConsLeast(s: set<string>, m: string, rest: seq<string>)
    requires m in s && forall x :: x in s ==> StrLe(m, x)
    requires Elems(rest) == s - {m} && SortedBy(rest, StrLe) && Distinct(rest)
    ensures Elems([m] + rest) == s && SortedBy([m] + rest, StrLe) && Distinct([m] + rest)
  {
    assert forall x :: x in rest ==> x in Elems(rest);
    SortedCons(m, rest);
    ConsDistinct(m, rest);
  }

  /** The least string of a non-empty set. */
  function Least(s: set<string>): (m: string)
    requires s != {}
    ensures m in s && forall x :: x in s ==> StrLe(m, x)
  {
    LeastExists(s);
    LeastUnique(s);
    var m :| m in s && forall x :: x in s ==> StrLe(m, x);
    m
  }

  /** The `r<rule id>` names of the items in a split, in dictionary order. */
  function RuleNames(d: Split): (r: seq<string>)
    ensures |r| == |d|
  {
    seq(|d|, j requires 0 <= j < |d| => "r" + IntToString(d[j].1.rule.ruleId))
  }

  /** The graph nodes covered by the items of a split. */
  function NodesOf(d: Split): set<Node>
  {
    set j, n | 0 <= j < |d| && n in d[j].1.nodeset :: n
  }

  /** The signature `filter_permutations` compares: sorted rule names, then sorted covered nodes, joined by `_`. */
  function Combination(d: Split): string
  {
    Join("_", SortBy(RuleNames(d), StrLe) + SortedSet(NodesOf(d)))
  }

  /**
   * `filter_permutations`: keeps each split whose signature has not been
   * seen before, in order. The result is a subsequence of the input with
   * pairwise distinct signatures and the same set of signatures, every kept
   * split is the first one with its signature, and filtering again changes
   * nothing.
   */
  method FilterPermutations(prods: seq<Split>) returns (r: seq<Split>)
    ensures r == KeepFirst(prods, Combination)
    ensures IsSubseq(r, prods)
    ensures KeysDistinct(r, Combination) && KeysOf(r, Combination) == KeysOf(prods, Combination)
    ensures forall i, j :: 0 <= i < |r| && 0 <= j < |prods| && Combination(prods[j]) == Combination(r[i]) ==>
      r[i] in prods[..j + 1]
    ensures KeepFirst(r, Combination) == r
  {
    r := [];
    var seen: set<string> := {};
    for i := 0 to |prods|
      invariant r == KeepFirst(prods[..i], Combination)
      invariant seen == KeysOf(prods[..i], Combination)
    {
      KeepFirstStep(prods, i, Combination);
      var combination := Combination(prods[i]);
      if combination !in seen {
        seen := seen + {combination};
        r := r + [prods[i]];
      }
    }
    assert prods[..|prods|] == prods;
    KeepFirstFacts(prods, Combination);
  }

  // ---------------------------------------------------------------------------
  // get_cky_chart

  /** `item == 'START' or item.closed`. */
  predicate Eligible(k: ChartKey)
  {
    k == StartKey || (k.item.rule.rhs1.GraphRhs? && Closed(k.item))
  }

  /** What the CKY chart holds for an eligible key: its options, filtered unless permutations are kept. */
  function Entry(c: RawChart, k: ChartKey, permutations: bool): seq<Split>
    requires Settled(c) && Search(c, k).Ok?
  {
    if permutations then Search(c, k).value else KeepFirst(Search(c, k).value, Combination)
  }

  /**
   * `get_cky_chart`: the keys are exactly the reachable `START` and closed
   * items with a non-empty option list, each holding that list (filtered
   * unless permutations are kept). It fails only when `search_productions`
   * fails on one of those keys, which never happens on a coherent chart.
   */
  method GetCkyChart(c: RawChart, permutations: bool) returns (r: Result<CkyChart, CkyError>)
    requires Settled(c)
    ensures r.Ok? ==> forall k :: k in r.value <==> Reachable(c, k) && Eligible(k) && Search(c, k).Ok? && Search(c, k).value != []
    ensures r.Ok? ==> forall k :: k in r.value ==> r.value[k] == Entry(c, k, permutations)
    ensures r.Err? ==> exists k :: Reachable(c, k) && Eligible(k) && Search(c, k).Err?
    ensures (forall k :: Reachable(c, k) && Eligible(k) ==> Search(c, k).Ok?) ==> r.Ok?
  {
    var visit := Walk(c);
    var order := Enumerate(visit);
    var chart: CkyChart := map[];
    for i := 0 to |order|
      invariant forall k :: k in chart <==> k in order[..i] && Eligible(k) && Search(c, k).Ok? && Search(c, k).value != []
      invariant forall k :: k in chart ==> chart[k] == Entry(c, k, permutations)
      invariant forall k :: k in order[..i] && Eligible(k) ==> Search(c, k).Ok?
    {
      var k := order[i];
      assert order[..i + 1] == order[..i] + [k];
      if Eligible(k) {
        var prods := Search(c, k);
        if prods.Err? {
          assert k in visit;
          return Err(prods.error);
        }
        if prods.value != [] {
          var kept := prods.value;
          if !permutations {
            kept := FilterPermutations(prods.value);
          }
          chart := chart[k := kept];
        }
      }
    }
    assert order[..|order|] == order;
    return Ok(chart);
  }

  /** The older `get_cky_chart`: the same conversion with every permutation kept. */
  method GetCkyChartAll(c: RawChart) returns (r: Result<CkyChart, CkyError>)
    requires Settled(c)
    ensures r.Ok? ==> forall k :: k in r.value <==> Reachable(c, k) && Eligible(k) && Search(c, k).Ok? && Search(c, k).value != []
    ensures r.Ok? ==> forall k :: k in r.value ==> r.value[k] == Search(c, k).value
    ensures (forall k :: Reachable(c, k) && Eligible(k) ==> Search(c, k).Ok?) ==> r.Ok?
  {
    r := GetCkyChart(c, true);
  }

  /** The CKY conversion of any chart the parser builds succeeds. */
  lemma CoherentConverts(inp: ParseInput, c: RawChart)
    requires ChartOk(inp, c)
    ensures Settled(c) && forall k :: Search(c, k).Ok?
  {
    ChartCoherent(inp, c);
    forall k ensures Search(c, k).Ok? {
      SearchCoherent(c, k);
    }
  }
}
