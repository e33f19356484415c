// The derivation-tree walkers of the open information extraction step:
// `get_labels` collects, for every labelled item of a derivation, the word
// its external node `_1` stands for and the item's nonterminal symbol;
// `get_rules` collects the rules a derivation uses and counts every use in
// a caller's counter.
//
// Both visit a node's subtrees in slot order and then the node's own key, and
// both merge the dictionaries they get back under an assertion: labels may
// not collide at all, rule strings may collide only when they are equal.
module Oie {
  import opened Wrappers
  import opened Seqs
  import opened Strings
  import opened Rules
  import opened Items
  import opened Parsing
  import opened Cky
  import opened Derivations

  datatype OieError =
    | MissingExternal  // `mapping['_1']` of an item that does not map `_1`
    | NoNPrefix        // `.split('n')[1]` of a node id without an `n`
    | LabelClash       // get_labels: `assert k not in ret`
    | RuleClash        // get_rules: `assert k not in ret or v == ret[k]`

  /** The chart keys of a derivation in the order the walkers visit them: subtrees in slot order, then the head. */
  function KeysIn(t: Tree): seq<ChartKey>
  {
    match t
    case Leaf(i) => [ItemKey(i)]
    case Node(k, kids) => Flatten(seq(|kids|, j requires 0 <= j < |kids| => KeysIn(kids[j].1))) + [k]
  }

  // ---------------------------------------------------------------------------
  // Merging dictionaries under the assertion

  /** Two dictionaries pass the assertion: no shared key when `strict`, equal values on shared keys otherwise. */
  predicate Agree<K>(a: map<K, string>, b: map<K, string>, strict: bool)
  {
    forall key :: key in a && key in b ==> !strict && a[key] == b[key]
  }

  /** The `ret` loop: merges the results left to right, failing at the first error or clash. */
  function Gather<K>(ps: seq<Result<map<K, string>, OieError>>, strict: bool, clash: OieError): Result<map<K, string>, OieError>
  {
    if ps == [] then Ok(map[]) else Step(Gather(ps[..|ps| - 1], strict, clash), ps[|ps| - 1], strict, clash)
  }

  /** One turn of the loop: adds the next result to the dictionary merged so far. */
  function Step<K>(g: Result<map<K, string>, OieError>, y: Result<map<K, string>, OieError>, strict: bool, clash: OieError): Result<map<K, string>, OieError>
  {
    match g
    case Err(e) => Err(e)
    case Ok(m) =>
      match y
      case Err(e) => Err(e)
      case Ok(x) => if Agree(m, x, strict) then Ok(m + x) else Err(clash)
  }

  /** The total size of the dictionaries among the results. */
  function SizeTotal<K>(ps: seq<Result<map<K, string>, OieError>>): nat
  {
    if ps == [] then 0
    else SizeTotal(ps[..|ps| - 1]) + (if ps[|ps| - 1].Ok? then |ps[|ps| - 1].value| else 0)
  }

  ghost predicate AllOk<K>(ps: seq<Result<map<K, string>, OieError>>)
  {
    forall i :: 0 <= i < |ps| ==> ps[i].Ok?
  }

  /** Every two of the dictionaries pass the assertion. */
  ghost predicate Pairwise<K>(ps: seq<Result<map<K, string>, OieError>>, strict: bool)
  {
    forall i, j :: 0 <= i < j < |ps| && ps[i].Ok? && ps[j].Ok? ==> Agree(ps[i].value, ps[j].value, strict)
  }

  /** Every dictionary before the end passes the assertion against `x`. */
  ghost predicate AgreeWith<K>(ps: seq<Result<map<K, string>, OieError>>, x: map<K, string>, strict: bool)
  {
    forall i :: 0 <= i < |ps| && ps[i].Ok? ==> Agree(ps[i].value, x, strict)
  }

  /** `m` holds every entry of the dictionaries and nothing else. */
  ghost predicate UnionOf<K>(ps: seq<Result<map<K, string>, OieError>>, m: map<K, string>)
  {
    (forall i, key :: 0 <= i < |ps| && ps[i].Ok? && key in ps[i].value ==> key in m && m[key] == ps[i].value[key]) &&
    (forall key :: key in m ==> exists i :: 0 <= i < |ps| && ps[i].Ok? && key in ps[i].value)
  }

  lemma PairwiseSnoc<K>(ps: seq<Result<map<K, string>, OieError>>, x: map<K, string>, strict: bool)
    ensures AllOk(ps + [Ok(x)]) <==> AllOk(ps)
    ensures Pairwise(ps + [Ok(x)], strict) <==> Pairwise(ps, strict) && AgreeWith(ps, x, strict)
  {
    var qs := ps + [Ok(x)];
    assert forall i :: 0 <= i < |ps| ==> qs[i] == ps[i];
    assert qs[|ps|] == Ok(x);
  }

  lemma AgreeUnion<K>(ps: seq<Result<map<K, string>, OieError>>, m: map<K, string>, x: map<K, string>, strict: bool)
    requires UnionOf(ps, m)
    ensures Agree(m, x, strict) <==> AgreeWith(ps, x, strict)
  {
    if Agree(m, x, strict) {
      forall i | 0 <= i < |ps| && ps[i].Ok?
        ensures Agree(ps[i].value, x, strict)
      {
        forall key | key in ps[i].value && key in x
          ensures !strict && ps[i].value[key] == x[key]
        {
          assert key in m && m[key] == ps[i].value[key];
        }
      }
    }
    if AgreeWith(ps, x, strict) {
      forall key | key in m && key in x
        ensures !strict && m[key] == x[key]
      {
        var i :| 0 <= i < |ps| && ps[i].Ok? && key in ps[i].value;
        assert Agree(ps[i].value, x, strict);
      }
    }
  }

  lemma UnionSnoc<K>(ps: seq<Result<map<K, string>, OieError>>, m: map<K, string>, x: map<K, string>, strict: bool)
    requires UnionOf(ps, m) && Agree(m, x, strict)
    ensures UnionOf(ps + [Ok(x)], m + x)
  {
    var qs := ps + [Ok(x)];
    assert forall i :: 0 <= i < |ps| ==> qs[i] == ps[i];
    assert qs[|ps|] == Ok(x);
    forall key | key in m + x
      ensures exists i :: 0 <= i < |qs| && qs[i].Ok? && key in qs[i].value
    {
      if key !in x {
        var i :| 0 <= i < |ps| && ps[i].Ok? && key in ps[i].value;
        assert qs[i] == ps[i];
      }
    }
  }

  lemma DisjointSize<K>(m: map<K, string>, x: map<K, string>)
    requires m.Keys !! x.Keys
    ensures |m + x| == |m| + |x|
  {
    assert (m + x).Keys == m.Keys + x.Keys;
    assert |(m + x).Keys| == |m.Keys| + |x.Keys|;
  }

  /**
   * The merge succeeds exactly when every result is a dictionary and every two
   * of them pass the assertion; it is then their union, and for a strict merge
   * its size is the sum of theirs.
   */
  lemma {:induction false} GatherMeaning<K>(ps: seq<Result<map<K, string>, OieError>>, strict: bool, clash: OieError)
    ensures Gather(ps, strict, clash).Ok? <==> AllOk(ps) && Pairwise(ps, strict)
    ensures Gather(ps, strict, clash).Ok? ==> UnionOf(ps, Gather(ps, strict, clash).value)
    ensures Gather(ps, strict, clash).Ok? && strict ==> |Gather(ps, strict, clash).value| == SizeTotal(ps)
  {
    if ps != [] {
      var init := ps[..|ps| - 1];
      var y := ps[|ps| - 1];
      assert ps == init + [y];
      GatherMeaning(init, strict, clash);
      MeaningStep(init, y, Gather(init, strict, clash), strict, clash);
    }
  }

  /** What `GatherMeaning` states of the merge `g` of `ps`. */
  ghost predicate Merged<K>(ps: seq<Result<map<K, string>, OieError>>, strict: bool, g: Result<map<K, string>, OieError>)
  {
    (g.Ok? <==> AllOk(ps) && Pairwise(ps, strict)) &&
    (g.Ok? ==> UnionOf(ps, g.value)) &&
    (g.Ok? && strict ==> |g.value| == SizeTotal(ps))
  }

  lemma MeaningStep<K>(init: seq<Result<map<K, string>, OieError>>, y: Result<map<K, string>, OieError>,
                       g: Result<map<K, string>, OieError>, strict: bool, clash: OieError)
    requires Merged(init, strict, g)
    ensures Merged(init + [y], strict, Step(g, y, strict, clash))
  {
    var ps := init + [y];
    assert ps[..|ps| - 1] == init && ps[|ps| - 1] == y;
    if y.Err? {
      assert !AllOk(ps);
    } else {
      PairwiseSnoc(init, y.value, strict);
      if g.Ok? {
        AgreeUnion(init, g.value, y.value, strict);
        if Agree(g.value, y.value, strict) {
          UnionSnoc(init, g.value, y.value, strict);
          if strict {
            DisjointSize(g.value, y.value);
          }
        }
      }
    }
  }

  /** An error among the first results is the error of the whole merge. */
  lemma {:induction false} GatherErrKept<K>(ps: seq<Result<map<K, string>, OieError>>, n: nat, strict: bool, clash: OieError)
    requires n <= |ps| && Gather(ps[..n], strict, clash).Err?
    ensures Gather(ps, strict, clash) == Gather(ps[..n], strict, clash)
    decreases |ps| - n
  {
    if n < |ps| {
      assert ps[..n + 1][..n] == ps[..n];
      GatherErrKept(ps, n + 1, strict, clash);
    } else {
      assert ps[..n] == ps;
    }
  }

  lemma GatherPrefixStep<K>(ps: seq<Result<map<K, string>, OieError>>, j: nat, strict: bool, clash: OieError)
    requires j < |ps|
    ensures Gather(ps[..j + 1], strict, clash) == Step(Gather(ps[..j], strict, clash), ps[j], strict, clash)
  {
    assert ps[..j + 1][..j] == ps[..j] && ps[..j + 1][j] == ps[j];
  }

  /** Two outcomes of a merge that succeed together, with the same dictionary. */
  predicate Same<K>(a: Result<map<K, string>, OieError>, b: Result<map<K, string>, OieError>)
  {
    a.Ok? == b.Ok? && (a.Ok? ==> a.value == b.value)
  }

  lemma AgreeUnionLeft<K>(a: map<K, string>, b: map<K, string>, c: map<K, string>, strict: bool)
    requires Agree(a, b, strict)
    ensures Agree(a + b, c, strict) <==> Agree(a, c, strict) && Agree(b, c, strict)
  {
  }

  lemma AgreeUnionRight<K>(a: map<K, string>, b: map<K, string>, c: map<K, string>, strict: bool)
    requires Agree(b, c, strict)
    ensures Agree(a, b + c, strict) <==> Agree(a, b, strict) && Agree(a, c, strict)
  {
  }

  /** Merging two runs of results is merging each run and then the two dictionaries. */
  lemma {:induction false} GatherConcat<K>(a: seq<Result<map<K, string>, OieError>>, b: seq<Result<map<K, string>, OieError>>,
                                          strict: bool, clash: OieError)
    ensures Gather(a + b, strict, clash).Ok? <==>
      Gather(a, strict, clash).Ok? && Gather(b, strict, clash).Ok? &&
      Agree(Gather(a, strict, clash).value, Gather(b, strict, clash).value, strict)
    ensures Gather(a + b, strict, clash).Ok? ==>
      Gather(a + b, strict, clash).value == Gather(a, strict, clash).value + Gather(b, strict, clash).value
    decreases |b|
  {
    if b == [] {
      assert a + b == a;
      if Gather(a, strict, clash).Ok? {
        assert Gather(a, strict, clash).value + map[] == Gather(a, strict, clash).value;
      }
    } else {
      var b' := b[..|b| - 1];
      var y := b[|b| - 1];
      assert (a + b)[..|a + b| - 1] == a + b' && (a + b)[|a + b| - 1] == y;
      GatherConcat(a, b', strict, clash);
      StepConcat(Gather(a, strict, clash), Gather(b', strict, clash), Gather(a + b', strict, clash), y, strict, clash);
    }
  }

  lemma StepConcat<K>(ga: Result<map<K, string>, OieError>, gb: Result<map<K, string>, OieError>,
                      gab: Result<map<K, string>, OieError>, y: Result<map<K, string>, OieError>, strict: bool, clash: OieError)
    requires gab.Ok? <==> ga.Ok? && gb.Ok? && Agree(ga.value, gb.value, strict)
    requires gab.Ok? ==> gab.value == ga.value + gb.value
    ensures Step(gab, y, strict, clash).Ok? <==>
      ga.Ok? && Step(gb, y, strict, clash).Ok? && Agree(ga.value, Step(gb, y, strict, clash).value, strict)
    ensures Step(gab, y, strict, clash).Ok? ==> Step(gab, y, strict, clash).value == ga.value + Step(gb, y, strict, clash).value
  {
    if ga.Ok? && gb.Ok? && y.Ok? {
      if Agree(ga.value, gb.value, strict) {
        AgreeUnionLeft(ga.value, gb.value, y.value, strict);
      }
      if Agree(gb.value, y.value, strict) {
        AgreeUnionRight(ga.value, gb.value, y.value, strict);
      }
      assert ga.value + gb.value + y.value == ga.value + (gb.value + y.value);
    }
  }

  lemma GatherSingle<K>(y: Result<map<K, string>, OieError>, strict: bool, clash: OieError)
    ensures Same(y, Gather([y], strict, clash))
  {
    assert [y][..0] == [];
    if y.Ok? {
      assert map[] + y.value == y.value;
    }
  }

  /** Appending one result merges like appending a run whose merge is that result. */
  lemma GatherSnocSame<K>(p: seq<Result<map<K, string>, OieError>>, y: Result<map<K, string>, OieError>,
                          a: seq<Result<map<K, string>, OieError>>, b: seq<Result<map<K, string>, OieError>>,
                          strict: bool, clash: OieError)
    requires Same(Gather(p, strict, clash), Gather(a, strict, clash))
    requires Same(y, Gather(b, strict, clash))
    ensures Same(Gather(p + [y], strict, clash), Gather(a + b, strict, clash))
  {
    assert (p + [y])[..|p|] == p && (p + [y])[|p|] == y;
    GatherConcat(a, b, strict, clash);
  }

  // ---------------------------------------------------------------------------
  // Walking a derivation

  /**
   * The shape both walkers share: a leaf is the dictionary of its item; a
   * tree merges its subtrees' dictionaries in slot order and then the head's.
   */
  function Walk<K>(t: Tree, f: ChartKey -> Result<map<K, string>, OieError>, strict: bool, clash: OieError): Result<map<K, string>, OieError>
  {
    match t
    case Leaf(i) => f(ItemKey(i))
    case Node(k, kids) =>
      Gather(seq(|kids|, j requires 0 <= j < |kids| => Walk(kids[j].1, f, strict, clash)) + [f(k)], strict, clash)
  }

  /** The dictionaries of the keys, in order. */
  function Parts<K>(ks: seq<ChartKey>, f: ChartKey -> Result<map<K, string>, OieError>): seq<Result<map<K, string>, OieError>>
  {
    seq(|ks|, i requires 0 <= i < |ks| => f(ks[i]))
  }

  lemma PartsConcat<K>(a: seq<ChartKey>, b: seq<ChartKey>, f: ChartKey -> Result<map<K, string>, OieError>)
    ensures Parts(a + b, f) == Parts(a, f) + Parts(b, f)
  {
  }

  /** Merging runs whose merges are known is merging the runs' keys, one run after the other. */
  lemma {:induction false} GatherRuns<K>(ws: seq<Result<map<K, string>, OieError>>, xs: seq<seq<ChartKey>>,
                                        f: ChartKey -> Result<map<K, string>, OieError>, strict: bool, clash: OieError)
    requires |ws| == |xs|
    requires forall j :: 0 <= j < |ws| ==> Same(ws[j], Gather(Parts(xs[j], f), strict, clash))
    ensures Same(Gather(ws, strict, clash), Gather(Parts(Flatten(xs), f), strict, clash))
    decreases |ws|
  {
    if ws == [] {
      assert Parts(Flatten(xs), f) == [];
    } else {
      var m := |ws| - 1;
      GatherRuns(ws[..m], xs[..m], f, strict, clash);
      assert ws == ws[..m] + [ws[m]];
      assert xs == xs[..m] + [xs[m]];
      FlattenAppend(xs[..m], xs[m]);
      PartsConcat(Flatten(xs[..m]), xs[m], f);
      GatherSnocSame(ws[..m], ws[m], Parts(Flatten(xs[..m]), f), Parts(xs[m], f), strict, clash);
    }
  }

  /** The nested merge of a walk is the flat merge of its keys' dictionaries, in visiting order. */
  lemma {:induction false} WalkFlat<K>(t: Tree, f: ChartKey -> Result<map<K, string>, OieError>, strict: bool, clash: OieError)
    ensures Same(Walk(t, f, strict, clash), Gather(Parts(KeysIn(t), f), strict, clash))
    decreases t
  {
    match t
    case Leaf(i) =>
      assert Parts(KeysIn(t), f) == [f(ItemKey(i))];
      GatherSingle(f(ItemKey(i)), strict, clash);
    case Node(k, kids) =>
      forall j | 0 <= j < |kids|
        ensures Same(Walk(kids[j].1, f, strict, clash), Gather(Parts(KeysIn(kids[j].1), f), strict, clash))
      {
        WalkFlat(kids[j].1, f, strict, clash);
      }
      var xs := seq(|kids|, j requires 0 <= j < |kids| => KeysIn(kids[j].1));
      GatherRuns(seq(|kids|, j requires 0 <= j < |kids| => Walk(kids[j].1, f, strict, clash)), xs, f, strict, clash);
      PartsConcat(Flatten(xs), [k], f);
      assert Parts([k], f) == [f(k)];
      GatherSingle(f(k), strict, clash);
      GatherSnocSame(seq(|kids|, j requires 0 <= j < |kids| => Walk(kids[j].1, f, strict, clash)), f(k),
                     Parts(Flatten(xs), f), Parts([k], f), strict, clash);
  }

  // ---------------------------------------------------------------------------
  // get_labels

  /**
   * `get_labels` of a key: nothing for START or for an item of the symbol
   * `S`, otherwise the word number after the `n` of the node `_1` maps to,
   * labelled with the item's symbol.
   */
  function KeyLabel(k: ChartKey): Result<map<string, string>, OieError>
  {
    if k.StartKey? || k.item.rule.symbol == "S" then Ok(map[])
    else if "_1" !in k.item.mapping then Err(MissingExternal)
    else
      var parts := SplitOn(k.item.mapping["_1"], 'n');
      if |parts| < 2 then Err(NoNPrefix) else Ok(map[parts[1] := k.item.rule.symbol])
  }

  /** `get_labels(derivation)`. */
  function Labels(t: Tree): Result<map<string, string>, OieError>
  {
    Walk(t, KeyLabel, true, LabelClash)
  }

  /**
   * `get_labels` succeeds exactly when every key of the derivation yields a
   * label dictionary and no two keys yield the same word; it then holds every
   * key's label and nothing else, one entry per label yielded.
   */
  lemma LabelsMeaning(t: Tree)
    ensures Labels(t).Ok? <==> AllOk(Parts(KeysIn(t), KeyLabel)) && Pairwise(Parts(KeysIn(t), KeyLabel), true)
    ensures Labels(t).Ok? ==>
      UnionOf(Parts(KeysIn(t), KeyLabel), Labels(t).value) &&
      |Labels(t).value| == SizeTotal(Parts(KeysIn(t), KeyLabel))
  {
    WalkFlat(t, KeyLabel, true, LabelClash);
    GatherMeaning(Parts(KeysIn(t), KeyLabel), true, LabelClash);
  }

  /** `get_rules` of a key: nothing for START, otherwise the rule's id and printed form. */
  function KeyRule(p: Printer): ChartKey -> Result<map<int, string>, OieError>
  {
    (k: ChartKey) => if k.StartKey? then Ok(map[]) else Ok(map[k.item.rule.ruleId := RuleString(p, k.item.rule)])
  }

  /** The dictionary `get_rules(derivation, cnt)` returns. */
  function RuleStrings(p: Printer, t: Tree): Result<map<int, string>, OieError>
  {
    Walk(t, KeyRule(p), false, RuleClash)
  }

  /** Items of the same rule id print their rules alike (symbol, sides and weight). */
  ghost predicate Consistent(p: Printer, ks: seq<ChartKey>)
  {
    forall a, b :: a in ks && b in ks && a.ItemKey? && b.ItemKey? && a.item.rule.ruleId == b.item.rule.ruleId ==>
      RuleString(p, a.item.rule) == RuleString(p, b.item.rule)
  }

  /** What a rule dictionary of the keys `ks` holds: one printed rule for every rule id used. */
  ghost predicate RulesOf(p: Printer, ks: seq<ChartKey>, m: map<int, string>)
  {
    (forall id :: id in m <==> exists a :: a in ks && a.ItemKey? && a.item.rule.ruleId == id) &&
    (forall a :: a in ks && a.ItemKey? ==> a.item.rule.ruleId in m && m[a.item.rule.ruleId] == RuleString(p, a.item.rule))
  }

  lemma RulesPairwise(p: Printer, ks: seq<ChartKey>)
    ensures AllOk(Parts(ks, KeyRule(p)))
    ensures Pairwise(Parts(ks, KeyRule(p)), false) <==> Consistent(p, ks)
  {
    var ps := Parts(ks, KeyRule(p));
    assert forall i :: 0 <= i < |ks| ==> ps[i] == KeyRule(p)(ks[i]) && ps[i].Ok?;
    if Pairwise(ps, false) {
      forall a, b | a in ks && b in ks && a.ItemKey? && b.ItemKey? && a.item.rule.ruleId == b.item.rule.ruleId
        ensures RuleString(p, a.item.rule) == RuleString(p, b.item.rule)
      {
        var i :| 0 <= i < |ks| && ks[i] == a;
        var j :| 0 <= j < |ks| && ks[j] == b;
        var id := a.item.rule.ruleId;
        assert id in ps[i].value && id in ps[j].value;
        if i < j {
          assert Agree(ps[i].value, ps[j].value, false);
        } else if j < i {
          assert Agree(ps[j].value, ps[i].value, false);
        }
      }
    }
    if Consistent(p, ks) {
      forall i, j | 0 <= i < j < |ps|
        ensures Agree(ps[i].value, ps[j].value, false)
      {
        if ks[i].ItemKey? && ks[j].ItemKey? && ks[i].item.rule.ruleId == ks[j].item.rule.ruleId {
          assert ks[i] in ks && ks[j] in ks;
        }
      }
    }
  }

  lemma RulesUnion(p: Printer, ks: seq<ChartKey>, m: map<int, string>)
    requires UnionOf(Parts(ks, KeyRule(p)), m)
    ensures RulesOf(p, ks, m)
  {
    var ps := Parts(ks, KeyRule(p));
    assert forall i :: 0 <= i < |ks| ==> ps[i] == KeyRule(p)(ks[i]) && ps[i].Ok?;
    forall id
      ensures id in m <==> exists a :: a in ks && a.ItemKey? && a.item.rule.ruleId == id
    {
      if id in m {
        var i :| 0 <= i < |ps| && ps[i].Ok? && id in ps[i].value;
        assert ks[i] in ks;
      } else {
        forall a | a in ks && a.ItemKey?
          ensures a.item.rule.ruleId != id
        {
          var i :| 0 <= i < |ks| && ks[i] == a;
          assert a.item.rule.ruleId in ps[i].value;
        }
      }
    }
    forall a | a in ks && a.ItemKey?
      ensures a.item.rule.ruleId in m && m[a.item.rule.ruleId] == RuleString(p, a.item.rule)
    {
      var i :| 0 <= i < |ks| && ks[i] == a;
      assert a.item.rule.ruleId in ps[i].value;
    }
  }

  /**
   * `get_rules` succeeds exactly when no rule id is used by two rules that
   * print differently, and then maps every rule id used in the derivation to
   * the rule's printed form, and holds nothing else.
   */
  lemma RuleStringsMeaning(p: Printer, t: Tree)
    ensures RuleStrings(p, t).Ok? <==> Consistent(p, KeysIn(t))
    ensures RuleStrings(p, t).Ok? ==> RulesOf(p, KeysIn(t), RuleStrings(p, t).value)
  {
    WalkFlat(t, KeyRule(p), false, RuleClash);
    GatherMeaning(Parts(KeysIn(t), KeyRule(p)), false, RuleClash);
    RulesPairwise(p, KeysIn(t));
    if RuleStrings(p, t).Ok? {
      RulesUnion(p, KeysIn(t), RuleStrings(p, t).value);
    }
  }

  /** `collections.Counter` of rule ids, updated in place. */
  class RuleCounter {
    var counts: map<int, nat>

    constructor ()
      ensures counts == map[]
    {
      counts := map[];
    }

    /** `cnt[id]`: zero for an id never counted. */
    function Get(id: int): nat
      reads this
    {
      if id in counts then counts[id] else 0
    }

    /** `cnt[id] += 1`. */
    method Bump(id: int)
      modifies this
      ensures Get(id) == old(Get(id)) + 1
      ensures forall other :: other != id ==> Get(other) == old(Get(other))
    {
      counts := counts[id := Get(id) + 1];
    }
  }

  /** The number of keys that are items of rule `id`. */
  function Uses(ks: seq<ChartKey>, id: int): nat
  {
    if ks == [] then 0
    else Uses(ks[..|ks| - 1], id) + (if ks[|ks| - 1].ItemKey? && ks[|ks| - 1].item.rule.ruleId == id then 1 else 0)
  }

  lemma {:induction false} UsesConcat(a: seq<ChartKey>, b: seq<ChartKey>, id: int)
    ensures Uses(a + b, id) == Uses(a, id) + Uses(b, id)
    decreases |b|
  {
    if b == [] {
      assert a + b == a;
    } else {
      var b' := b[..|b| - 1];
      assert (a + b)[..|a + b| - 1] == a + b';
      UsesConcat(a, b', id);
    }
  }

  lemma UsesPrefixStep(xs: seq<seq<ChartKey>>, j: nat, id: int)
    requires j < |xs|
    ensures Uses(Flatten(xs[..j + 1]), id) == Uses(Flatten(xs[..j]), id) + Uses(xs[j], id)
  {
    assert xs[..j + 1] == xs[..j] + [xs[j]];
    FlattenAppend(xs[..j], xs[j]);
    UsesConcat(Flatten(xs[..j]), xs[j], id);
  }

  /** `get_rules` of a key: counts an item's rule once. */
  method KeyRules(p: Printer, k: ChartKey, cnt: RuleCounter) returns (r: Result<map<int, string>, OieError>)
    modifies cnt
    ensures r == KeyRule(p)(k)
    ensures forall id :: cnt.Get(id) == old(cnt.Get(id)) + Uses([k], id)
  {
    assert [k][..0] == [];
    if k.StartKey? {
      return Ok(map[]);
    }
    cnt.Bump(k.item.rule.ruleId);
    return Ok(map[k.item.rule.ruleId := RuleString(p, k.item.rule)]);
  }

  /**
   * `get_rules(derivation, cnt)`: the rule dictionary of the derivation; when
   * it succeeds, every item of the derivation, head items included, has added
   * one to the count of its rule id.
   */
  method GetRules(p: Printer, t: Tree, cnt: RuleCounter) returns (r: Result<map<int, string>, OieError>)
    modifies cnt
    ensures r == RuleStrings(p, t)
    ensures r.Ok? ==> forall id :: cnt.Get(id) == old(cnt.Get(id)) + Uses(KeysIn(t), id)
    decreases t, 1
  {
    match t
    case Leaf(i) =>
      r := KeyRules(p, ItemKey(i), cnt);
    case Node(k, kids) =>
      ghost var ws := seq(|kids|, j requires 0 <= j < |kids| => Walk(kids[j].1, KeyRule(p), false, RuleClash));
      ghost var xs := seq(|kids|, j requires 0 <= j < |kids| => KeysIn(kids[j].1));
      assert RuleStrings(p, t) == Step(Gather(ws, false, RuleClash), KeyRule(p)(k), false, RuleClash) by {
        assert (ws + [KeyRule(p)(k)])[..|ws|] == ws;
      }
      var ret := KidsRules(p, t, cnt);
      if ret.Err? {
        return ret;
      }
      var head := KeyRules(p, k, cnt);
      forall id
        ensures Uses(KeysIn(t), id) == Uses(Flatten(xs), id) + Uses([k], id)
      {
        UsesConcat(Flatten(xs), [k], id);
      }
      if !Agree(ret.value, head.value, false) {
        return Err(RuleClash);
      }
      return Ok(ret.value + head.value);
  }

  /** The loop over the subtrees of a derivation tree in `get_rules`. */
  method KidsRules(p: Printer, t: Tree, cnt: RuleCounter) returns (r: Result<map<int, string>, OieError>)
    requires t.Node?
    modifies cnt
    ensures r == Gather(seq(|t.kids|, j requires 0 <= j < |t.kids| => Walk(t.kids[j].1, KeyRule(p), false, RuleClash)), false, RuleClash)
    ensures r.Ok? ==> forall id ::
      cnt.Get(id) == old(cnt.Get(id)) + Uses(Flatten(seq(|t.kids|, j requires 0 <= j < |t.kids| => KeysIn(t.kids[j].1))), id)
    decreases t, 0
  {
    var kids := t.kids;
    var n := |kids|;
    ghost var ws := seq(n, j requires 0 <= j < n => Walk(kids[j].1, KeyRule(p), false, RuleClash));
    ghost var xs := seq(n, j requires 0 <= j < n => KeysIn(kids[j].1));
    var ret: map<int, string> := map[];
    assert ws[..0] == [] && xs[..0] == [];
    for j := 0 to n
      invariant Gather(ws[..j], false, RuleClash) == Ok(ret)
      invariant forall id :: cnt.Get(id) == old(cnt.Get(id)) + Uses(Flatten(xs[..j]), id)
    {
      var sub := GetRules(p, kids[j].1, cnt);
      GatherPrefixStep(ws, j, false, RuleClash);
      if sub.Err? {
        GatherErrKept(ws, j + 1, false, RuleClash);
        return sub;
      }
      if !Agree(ret, sub.value, false) {
        GatherErrKept(ws, j + 1, false, RuleClash);
        return Err(RuleClash);
      }
      ret := ret + sub.value;
      forall id
        ensures Uses(Flatten(xs[..j + 1]), id) == Uses(Flatten(xs[..j]), id) + Uses(xs[j], id)
      {
        UsesPrefixStep(xs, j, id);
      }
    }
    assert ws[..n] == ws && xs[..n] == xs;
    return Ok(ret);
  }
}
