// The post-processing of an extracted labelling (`postproc.py`): a label
// dictionary maps a word index, written as a decimal string, to its label
// ("P" for the predicate, "A" for an argument word, "O" for the rest).
// `resolve_pred` makes sure some word is the predicate; `add_arg_idx` fills
// in the missing words and numbers the argument groups A0, A1, ..., and with
// `arg_perm` returns one relabelling per ordering of the groups.
module PostProc {
  import opened Wrappers
  import opened Seqs
  import opened Strings
  import opened Itertools

  datatype PostError =
    | NoSecondNode    // `top_order[1]` of a topological order with fewer than two nodes
    | BadVerbId       // `int(v_idx)` of a verb id that is no number
    | VerbNotInOrder  // `top_order.index(...)` of a verb that is not in the topological order

  /** A label dictionary (`pred_labels`, `extracted_labels`), which the operations change in place. */
  class Labelling {
    var entries: map<string, string>

    constructor(m: map<string, string>)
      ensures entries == m
    {
      entries := m;
    }
  }

  // ---------------------------------------------------------------------------
  // resolve_pred

  /** Some word is already labelled as the predicate. */
  predicate HasPred(m: map<string, string>)
  {
    exists n :: n in m && m[n] == "P"
  }

  /** The ids tagged "VERB", in the order of the tag dictionary. */
  function Verbs(pos: seq<(string, string)>): (r: seq<string>)
    ensures forall v :: v in r <==> exists j :: 0 <= j < |pos| && pos[j] == (v, "VERB")
  {
    if pos == [] then []
    else
      assert forall j :: 1 <= j < |pos| ==> pos[j] == pos[1..][j - 1];
      (if pos[0].1 == "VERB" then [pos[0].0] else []) + Verbs(pos[1..])
  }

  /** `list.index`: the first position holding `x`. */
  function FindIndex(top: seq<int>, x: int): (r: Option<nat>)
    ensures r.Some? ==> r.value < |top| && top[r.value] == x && forall j :: 0 <= j < r.value ==> top[j] != x
    ensures r.None? <==> x !in top
  {
    if top == [] then None
    else if top[0] == x then Some(0)
    else
      assert forall j :: 1 <= j < |top| ==> top[j] == top[1..][j - 1];
      match FindIndex(top[1..], x)
      case None => None
      case Some(i) => Some(i + 1)
  }

  /** `top_order.index(int(v_idx))`: where a verb comes in the topological order. */
  function VerbIndex(v: string, top: seq<int>): (r: Result<nat, PostError>)
    ensures r.Ok? ==> r.value < |top|
  {
    match ParseInt(v)
    case None => Err(BadVerbId)
    case Some(n) =>
      match FindIndex(top, n)
      case None => Err(VerbNotInOrder)
      case Some(i) => Ok(i)
  }

  /** `v_idx -> top_order.index(int(v_idx))`, as a function value. */
  function VerbAt(top: seq<int>): string -> Result<nat, PostError>
  {
    v => VerbIndex(v, top)
  }

  /**
   * What a "keep the smaller position" loop over `xs` ends with: the smallest
   * `f` of its elements, or the first error `f` gives.
   */
  function MinOf<T, E>(xs: seq<T>, f: T -> Result<nat, E>): Result<nat, E>
    requires xs != []
  {
    var last := f(xs[|xs| - 1]);
    if |xs| == 1 then last
    else
      match MinOf(xs[..|xs| - 1], f)
      case Err(e) => Err(e)
      case Ok(a) =>
        match last
        case Err(e) => Err(e)
        case Ok(b) => Ok(if b < a then b else a)
  }

  /**
   * The loop finds the smallest position of any element, and fails with the
   * error of the first element that has no position.
   */
  lemma {:induction false} MinOfMeaning<T, E>(xs: seq<T>, f: T -> Result<nat, E>)
    requires xs != []
    ensures MinOf(xs, f).Ok? <==> forall j :: 0 <= j < |xs| ==> f(xs[j]).Ok?
    ensures MinOf(xs, f).Ok? ==>
      (exists j :: 0 <= j < |xs| && f(xs[j]) == MinOf(xs, f)) &&
      forall j :: 0 <= j < |xs| ==> MinOf(xs, f).value <= f(xs[j]).value
    ensures MinOf(xs, f).Err? ==>
      exists j :: 0 <= j < |xs| && f(xs[j]) == MinOf(xs, f) && forall i :: 0 <= i < j ==> f(xs[i]).Ok?
  {
    var n := |xs| - 1;
    if n > 0 {
      var init := xs[..n];
      MinOfMeaning(init, f);
      assert forall j :: 0 <= j < n ==> init[j] == xs[j];
    }
  }

  /** An error among the first elements is the error of the whole loop. */
  lemma {:induction false} MinOfPrefix<T, E>(xs: seq<T>, f: T -> Result<nat, E>, n: nat)
    requires 0 < n <= |xs| && MinOf(xs[..n], f).Err?
    ensures MinOf(xs, f) == MinOf(xs[..n], f)
    decreases |xs| - n
  {
    if n < |xs| {
      assert xs[..n + 1][..n] == xs[..n];
      MinOfPrefix(xs, f, n + 1);
    } else {
      assert xs[..n] == xs;
    }
  }

  /** The `for v_idx in verbs` loop, for any way `f` of finding a position. */
  method LeastIndex<T, E>(xs: seq<T>, f: T -> Result<nat, E>) returns (r: Result<nat, E>)
    requires xs != []
    ensures r == MinOf(xs, f)
  {
    var first: Option<nat> := None;
    var i := 0;
    while i < |xs|
      invariant 0 <= i <= |xs|
      invariant i == 0 <==> first.None?
      invariant i > 0 ==> MinOf(xs[..i], f) == Ok(first.value)
    {
      var idx := f(xs[i]);
      assert xs[..i + 1][..i] == xs[..i];
      if idx.Err? {
        MinOfPrefix(xs, f, i + 1);
        return Err(idx.error);
      }
      if first.None? || idx.value < first.value {
        first := Some(idx.value);
      }
      i := i + 1;
    }
    assert xs[..i] == xs;
    return Ok(first.value);
  }

  /** The position of the verb earliest in the topological order. */
  function FirstVerb(verbs: seq<string>, top: seq<int>): (r: Result<nat, PostError>)
    requires verbs != []
    ensures r.Ok? ==> r.value < |top|
  {
    MinOfMeaning(verbs, VerbAt(top));
    MinOf(verbs, VerbAt(top))
  }

  /** The labelling `resolve_pred` leaves behind, or the error it raises. */
  function Resolved(m: map<string, string>, pos: seq<(string, string)>, top: seq<int>): Result<map<string, string>, PostError>
  {
    if HasPred(m) then Ok(m)
    else
      var verbs := Verbs(pos);
      if |verbs| == 0 then
        if |top| < 2 then Err(NoSecondNode) else Ok(m[IntToString(top[1]) := "P"])
      else if |verbs| == 1 then Ok(m[verbs[0] := "P"])
      else
        match FirstVerb(verbs, top)
        case Err(e) => Err(e)
        case Ok(i) => Ok(m[IntToString(top[i]) := "P"])
  }

  /**
   * A labelling with a predicate is left alone; otherwise exactly one word is
   * made the predicate, so afterwards there always is one.
   */
  lemma ResolvedShape(m: map<string, string>, pos: seq<(string, string)>, top: seq<int>)
    ensures HasPred(m) ==> Resolved(m, pos, top) == Ok(m)
    ensures Resolved(m, pos, top).Ok? ==>
      var r := Resolved(m, pos, top).value;
      HasPred(r) && (r == m || exists w :: w in r && r == m[w := "P"])
  {
    if Resolved(m, pos, top).Ok? && !HasPred(m) {
      var r := Resolved(m, pos, top).value;
      var verbs := Verbs(pos);
      var w := if |verbs| == 0 then IntToString(top[1])
               else if |verbs| == 1 then verbs[0]
               else IntToString(top[FirstVerb(verbs, top).value]);
      assert r == m[w := "P"];
      assert w in r && r[w] == "P";
    }
  }

  /**
   * It fails only when there is no predicate and either no verb and too short
   * an order, or several verbs one of which has no position in the order.
   */
  lemma ResolvedFails(m: map<string, string>, pos: seq<(string, string)>, top: seq<int>)
    ensures Resolved(m, pos, top).Err? <==>
      !HasPred(m) &&
      ((|Verbs(pos)| == 0 && |top| < 2) ||
       (|Verbs(pos)| > 1 && exists j :: 0 <= j < |Verbs(pos)| && VerbIndex(Verbs(pos)[j], top).Err?))
  {
    if |Verbs(pos)| > 1 {
      MinOfMeaning(Verbs(pos), VerbAt(top));
    }
  }

  /**
   * The word made the predicate: the second node of the order when there is
   * no verb, the verb when there is one, and otherwise the node of the
   * order at the smallest position any verb has.
   */
  lemma ResolvedChoice(m: map<string, string>, pos: seq<(string, string)>, top: seq<int>)
    requires !HasPred(m) && Resolved(m, pos, top).Ok?
    ensures |Verbs(pos)| == 0 ==> Resolved(m, pos, top).value == m[IntToString(top[1]) := "P"]
    ensures |Verbs(pos)| == 1 ==> Resolved(m, pos, top).value == m[Verbs(pos)[0] := "P"]
    ensures |Verbs(pos)| > 1 ==>
      exists i :: 0 <= i < |top| && Resolved(m, pos, top).value == m[IntToString(top[i]) := "P"] &&
        (exists j :: 0 <= j < |Verbs(pos)| && VerbIndex(Verbs(pos)[j], top) == Ok(i)) &&
        forall j :: 0 <= j < |Verbs(pos)| ==> VerbIndex(Verbs(pos)[j], top).Ok? && i <= VerbIndex(Verbs(pos)[j], top).value
  {
    var verbs := Verbs(pos);
    if |verbs| > 1 {
      var f := VerbAt(top);
      MinOfMeaning(verbs, f);
      var i := FirstVerb(verbs, top).value;
      assert Resolved(m, pos, top).value == m[IntToString(top[i]) := "P"];
      var j :| 0 <= j < |verbs| && f(verbs[j]) == MinOf(verbs, f);
      assert VerbIndex(verbs[j], top) == Ok(i);
      forall k | 0 <= k < |verbs| ensures VerbIndex(verbs[k], top).Ok? && i <= VerbIndex(verbs[k], top).value {
        assert f(verbs[k]) == VerbIndex(verbs[k], top);
      }
    }
  }

  /** `resolve_pred(pred_labels, pos_tags, top_order)`. */
  method ResolvePred(l: Labelling, pos: seq<(string, string)>, top: seq<int>) returns (r: Result<(), PostError>)
    modifies l
    ensures Resolved(old(l.entries), pos, top).Ok? ==> r.Ok? && l.entries == Resolved(old(l.entries), pos, top).value
    ensures Resolved(old(l.entries), pos, top).Err? ==>
      r == Err(Resolved(old(l.entries), pos, top).error) && l.entries == old(l.entries)
  {
    if HasPred(l.entries) {
      return Ok(());
    }
    var verbs := Verbs(pos);
    if |verbs| == 0 {
      if |top| < 2 {
        return Err(NoSecondNode);
      }
      l.entries := l.entries[IntToString(top[1]) := "P"];
      return Ok(());
    }
    if |verbs| == 1 {
      l.entries := l.entries[verbs[0] := "P"];
      return Ok(());
    }
    var first := LeastIndex(verbs, VerbAt(top));
    if first.Err? {
      return Err(first.error);
    }
    l.entries := l.entries[IntToString(top[first.value]) := "P"];
    return Ok(());
  }

  // ---------------------------------------------------------------------------
  // add_arg_idx

  /** `s.startswith("A")`. */
  predicate StartsWithA(s: string)
  {
    |s| > 0 && s[0] == 'A'
  }

  /** The label of argument group `g`: `"A" + str(g)`. */
  function ArgLabel(g: int): string
  {
    "A" + IntToString(g)
  }

  lemma ArgLabelInjective(a: int, b: int)
    ensures ArgLabel(a) == ArgLabel(b) <==> a == b
  {
    if ArgLabel(a) == ArgLabel(b) {
      assert ArgLabel(a)[1..] == IntToString(a) && ArgLabel(b)[1..] == IntToString(b);
      IntToStringInjective(a, b);
    }
  }

  /** The label of word `i` (the key `str(i)`), or "" when it has none. */
  function LabelAt(m: map<string, string>, i: int): string
  {
    if IntToString(i) in m then m[IntToString(i)] else ""
  }

  /** The keys `str(1)` to `str(n)`. */
  function WordKeys(n: nat): set<string>
  {
    set i: int | 1 <= i <= n :: IntToString(i)
  }

  lemma WordKeysStep(n: nat)
    ensures WordKeys(n + 1) == WordKeys(n) + {IntToString(n + 1)}
    ensures IntToString(n + 1) !in WordKeys(n)
  {
    forall k | k in WordKeys(n) ensures k != IntToString(n + 1) {
      var i :| 1 <= i <= n && k == IntToString(i);
      IntToStringInjective(i, n + 1);
    }
  }

  /** The number of rounds of `for i in range(1, length + 1)`. */
  function Rounds(length: int): nat
  {
    if length < 0 then 0 else length
  }

  /**
   * The variables of the `add_arg_idx` loop: the labels, `prev`, `idx`,
   * `groups`, and the order in which `groups` got its keys.
   */
  datatype Numbering = Numbering(labels: map<string, string>, prev: string, idx: int,
                                 groups: map<int, seq<int>>, order: seq<int>)

  /** One round of the loop, for word `i`. */
  function NumberStep(st: Numbering, i: int): Numbering
  {
    var key := IntToString(i);
    if key !in st.labels then st.(labels := st.labels[key := "O"], prev := "O")
    else if st.labels[key] == "A" then
      var g := if StartsWithA(st.prev) then st.idx else st.idx + 1;
      var members := if g in st.groups then st.groups[g] else [];
      var order := if g in st.groups then st.order else st.order + [g];
      Numbering(st.labels[key := ArgLabel(g)], ArgLabel(g), g, st.groups[g := members + [i]], order)
    else st.(prev := st.labels[key])
  }

  /** The loop variables after the rounds for words 1 to `n`. */
  function Numbered(m: map<string, string>, n: nat): Numbering
  {
    if n == 0 then Numbering(m, "O", -1, map[], []) else NumberStep(Numbered(m, n - 1), n)
  }

  /** A round changes the label of its own word and no other. */
  lemma StepFrame(st: Numbering, n: int)
    ensures forall i :: i != n ==> LabelAt(NumberStep(st, n).labels, i) == LabelAt(st.labels, i)
    ensures IntToString(n) in NumberStep(st, n).labels
  {
    forall i | i != n ensures LabelAt(NumberStep(st, n).labels, i) == LabelAt(st.labels, i) {
      IntToStringInjective(i, n);
    }
  }

  /** What the rounds for words 1 to `n` leave of the labels and of `prev`. */
  ghost predicate LabelsInv(m: map<string, string>, n: nat, st: Numbering)
  {
    st.labels.Keys == m.Keys + WordKeys(n) &&
    (forall i :: 1 <= i <= n && IntToString(i) !in m ==> LabelAt(st.labels, i) == "O") &&
    (forall i :: 1 <= i <= n && IntToString(i) in m && LabelAt(m, i) != "A" ==> LabelAt(st.labels, i) == LabelAt(m, i)) &&
    (forall w :: w in m && w !in WordKeys(n) ==> st.labels[w] == m[w]) &&
    st.prev == if n == 0 then "O" else LabelAt(st.labels, n)
  }

  /** The word of the next round still has its original label. */
  lemma NextWord(m: map<string, string>, n: nat, st: Numbering)
    requires LabelsInv(m, n, st)
    ensures IntToString(n + 1) in st.labels <==> IntToString(n + 1) in m
    ensures LabelAt(st.labels, n + 1) == LabelAt(m, n + 1)
  {
    WordKeysStep(n);
  }

  /** What a round needs to know of the rounds before it. */
  ghost predicate StepReady(m: map<string, string>, n: nat, st: Numbering)
  {
    (IntToString(n + 1) in st.labels <==> IntToString(n + 1) in m) &&
    LabelAt(st.labels, n + 1) == LabelAt(m, n + 1) &&
    st.prev == if n == 0 then "O" else LabelAt(st.labels, n)
  }

  lemma LabelsReady(m: map<string, string>, n: nat, st: Numbering)
    requires LabelsInv(m, n, st)
    ensures StepReady(m, n, st)
  {
    NextWord(m, n, st);
  }

  lemma LabelsStep(m: map<string, string>, n: nat, st: Numbering)
    requires LabelsInv(m, n, st)
    ensures LabelsInv(m, n + 1, NumberStep(st, n + 1))
  {
    WordKeysStep(n);
    NextWord(m, n, st);
    StepFrame(st, n + 1);
  }

  /**
   * Afterwards every word 1 to n has a label: "O" when it had none, its own
   * label when that was not "A"; no other entry changes.
   */
  lemma {:induction false} NumberedLabels(m: map<string, string>, n: nat)
    ensures Numbered(m, n).labels.Keys == m.Keys + WordKeys(n)
    ensures forall i :: 1 <= i <= n && IntToString(i) !in m ==> LabelAt(Numbered(m, n).labels, i) == "O"
    ensures forall i :: 1 <= i <= n && IntToString(i) in m && LabelAt(m, i) != "A" ==>
              LabelAt(Numbered(m, n).labels, i) == LabelAt(m, i)
    ensures forall w :: w in m && w !in WordKeys(n) ==> Numbered(m, n).labels[w] == m[w]
    ensures Numbered(m, n).prev == if n == 0 then "O" else LabelAt(Numbered(m, n).labels, n)
  {
    NumberedLabelsInv(m, n);
  }

  lemma {:induction false} NumberedLabelsInv(m: map<string, string>, n: nat)
    ensures LabelsInv(m, n, Numbered(m, n))
  {
    if n > 0 {
      NumberedLabelsInv(m, n - 1);
      LabelsStep(m, n - 1, Numbered(m, n - 1));
    }
  }

  /** `groups[g]` of the defaultdict: the empty list for a missing key. */
  function GroupOf(groups: map<int, seq<int>>, g: int): seq<int>
  {
    if g in groups then groups[g] else []
  }

  /** Every word of a group was labelled "A" and now carries its group's label. */
  ghost predicate Members(m: map<string, string>, n: nat, st: Numbering)
  {
    forall g :: g in st.groups ==> forall i :: i in st.groups[g] ==>
      1 <= i <= n && LabelAt(m, i) == "A" && LabelAt(st.labels, i) == ArgLabel(g)
  }

  /** Every word labelled "A" is in some group. */
  ghost predicate Covered(m: map<string, string>, n: nat, st: Numbering)
  {
    forall i :: 1 <= i <= n && LabelAt(m, i) == "A" ==> exists g :: g in st.groups && i in st.groups[g]
  }

  /** `order` names every group once, and no group number exceeds `idx`. */
  ghost predicate OrderOk(st: Numbering)
  {
    Distinct(st.order) && Elems(st.order) == st.groups.Keys &&
    st.idx >= -1 && forall g :: g in st.groups ==> g <= st.idx
  }

  /** The last word, if an argument, is in group `idx`. */
  ghost predicate LastOk(m: map<string, string>, n: nat, st: Numbering)
  {
    n > 0 && LabelAt(m, n) == "A" ==> st.idx in st.groups && LabelAt(st.labels, n) == ArgLabel(st.idx)
  }

  /** What the rounds for words 1 to `n` leave of `groups`, their order and `idx`. */
  ghost predicate GroupsInv(m: map<string, string>, n: nat, st: Numbering)
  {
    Members(m, n, st) && Covered(m, n, st) && OrderOk(st) && LastOk(m, n, st)
  }

  /** A round for a word that is no argument leaves the groups as they are. */
  lemma GroupsFrame(m: map<string, string>, n: nat, st: Numbering, st': Numbering)
    requires GroupsInv(m, n, st) && LabelAt(m, n + 1) != "A"
    requires st'.groups == st.groups && st'.order == st.order && st'.idx == st.idx
    requires forall i :: 1 <= i <= n ==> LabelAt(st'.labels, i) == LabelAt(st.labels, i)
    ensures GroupsInv(m, n + 1, st')
  {
    MembersFrame(m, n, st, st');
    forall i | 1 <= i <= n + 1 && LabelAt(m, i) == "A" ensures exists g :: g in st'.groups && i in st'.groups[g] {
      assert i <= n;
    }
  }

  lemma MembersFrame(m: map<string, string>, n: nat, st: Numbering, st': Numbering)
    requires Members(m, n, st) && st'.groups == st.groups
    requires forall i :: 1 <= i <= n ==> LabelAt(st'.labels, i) == LabelAt(st.labels, i)
    ensures Members(m, n + 1, st')
  {
    forall g, i | g in st'.groups && i in st'.groups[g]
      ensures 1 <= i <= n + 1 && LabelAt(m, i) == "A" && LabelAt(st'.labels, i) == ArgLabel(g)
    {
      assert 1 <= i <= n;
    }
  }

  lemma GroupsStepOther(m: map<string, string>, n: nat, st: Numbering)
    requires StepReady(m, n, st) && GroupsInv(m, n, st)
    requires LabelAt(m, n + 1) != "A"
    ensures GroupsInv(m, n + 1, NumberStep(st, n + 1))
  {
    StepFrame(st, n + 1);
    GroupsFrame(m, n, st, NumberStep(st, n + 1));
  }

  /** Word `n + 1` joins group `g`: the other words keep their groups and labels. */
  lemma ArgMembers(m: map<string, string>, n: nat, st: Numbering, st': Numbering, g: int)
    requires Members(m, n, st) && LabelAt(m, n + 1) == "A"
    requires st'.groups == st.groups[g := GroupOf(st.groups, g) + [n + 1]]
    requires LabelAt(st'.labels, n + 1) == ArgLabel(g)
    requires forall i :: i != n + 1 ==> LabelAt(st'.labels, i) == LabelAt(st.labels, i)
    ensures Members(m, n + 1, st')
  {
    forall h, i | h in st'.groups && i in st'.groups[h]
      ensures 1 <= i <= n + 1 && LabelAt(m, i) == "A" && LabelAt(st'.labels, i) == ArgLabel(h)
    {
      if h != g || i != n + 1 {
        assert h in st.groups && i in st.groups[h];
      }
    }
  }

  lemma ArgCovered(m: map<string, string>, n: nat, st: Numbering, st': Numbering, g: int)
    requires Covered(m, n, st)
    requires st'.groups == st.groups[g := GroupOf(st.groups, g) + [n + 1]]
    ensures Covered(m, n + 1, st')
  {
    forall i | 1 <= i <= n + 1 && LabelAt(m, i) == "A" ensures exists h :: h in st'.groups && i in st'.groups[h] {
      if i == n + 1 {
        assert i in st'.groups[g];
      } else {
        var h :| h in st.groups && i in st.groups[h];
        assert i in st'.groups[h];
      }
    }
  }

  lemma ArgOrder(st: Numbering, st': Numbering, g: int, x: int)
    requires OrderOk(st) && (g == st.idx || g == st.idx + 1)
    requires st'.groups == st.groups[g := GroupOf(st.groups, g) + [x]]
    requires st'.idx == g && st'.order == if g in st.groups then st.order else st.order + [g]
    ensures OrderOk(st')
  {
    if g !in st.groups {
      DistinctSnocOf(st.order, g);
    }
  }

  lemma GroupsStepArg(m: map<string, string>, n: nat, st: Numbering)
    requires StepReady(m, n, st) && GroupsInv(m, n, st)
    requires LabelAt(m, n + 1) == "A"
    ensures GroupsInv(m, n + 1, NumberStep(st, n + 1))
  {
    StepFrame(st, n + 1);
    var g := if StartsWithA(st.prev) then st.idx else st.idx + 1;
    var st' := NumberStep(st, n + 1);
    assert IntToString(n + 1) in st.labels && st.labels[IntToString(n + 1)] == "A";
    assert st' == Numbering(st.labels[IntToString(n + 1) := ArgLabel(g)], ArgLabel(g), g,
                            st.groups[g := GroupOf(st.groups, g) + [n + 1]],
                            if g in st.groups then st.order else st.order + [g]);
    ArgMembers(m, n, st, st', g);
    ArgCovered(m, n, st, st', g);
    ArgOrder(st, st', g, n + 1);
  }

  lemma DistinctSnocOf<T>(s: seq<T>, x: T)
    requires Distinct(s) && x !in Elems(s)
    ensures Distinct(s + [x]) && Elems(s + [x]) == Elems(s) + {x}
  {
    ElemsConcat(s, [x]);
  }

  /**
   * Every word labelled "A" joins exactly the group whose label it now
   * carries; group numbers never exceed `idx`, and the last word, if an
   * argument, is in group `idx`.
   */
  lemma {:induction false} NumberedGroups(m: map<string, string>, n: nat)
    ensures GroupsInv(m, n, Numbered(m, n))
  {
    NumberedLabelsInv(m, n);
    if n > 0 {
      NumberedGroups(m, n - 1);
      NumberedLabelsInv(m, n - 1);
      LabelsReady(m, n - 1, Numbered(m, n - 1));
      if LabelAt(m, n) == "A" {
        GroupsStepArg(m, n - 1, Numbered(m, n - 1));
      } else {
        GroupsStepOther(m, n - 1, Numbered(m, n - 1));
      }
    }
  }

  /** What the rounds for words 1 to `n` leave of the runs of arguments. */
  ghost predicate RunsInv(m: map<string, string>, n: nat, r: map<string, string>)
  {
    (forall i :: 1 <= i < n && LabelAt(m, i) == "A" && LabelAt(m, i + 1) == "A" ==> LabelAt(r, i) == LabelAt(r, i + 1)) &&
    (forall i, j :: 1 <= j < i <= n && LabelAt(m, i) == "A" && LabelAt(m, j) == "A" && !StartsWithA(LabelAt(r, i - 1)) ==>
       LabelAt(r, j) != LabelAt(r, i))
  }

  lemma RunsStepSame(m: map<string, string>, n: nat, st: Numbering)
    requires StepReady(m, n, st) && LastOk(m, n, st) && RunsInv(m, n, st.labels)
    ensures var r := NumberStep(st, n + 1).labels;
      forall i :: 1 <= i < n + 1 && LabelAt(m, i) == "A" && LabelAt(m, i + 1) == "A" ==> LabelAt(r, i) == LabelAt(r, i + 1)
  {
    StepFrame(st, n + 1);
    if n > 0 && LabelAt(m, n) == "A" && LabelAt(m, n + 1) == "A" {
      assert StartsWithA(st.prev);
    }
  }

  lemma RunsStepNew(m: map<string, string>, n: nat, st: Numbering)
    requires StepReady(m, n, st) && Members(m, n, st) && Covered(m, n, st) && OrderOk(st) && RunsInv(m, n, st.labels)
    ensures var r := NumberStep(st, n + 1).labels;
      forall i, j :: 1 <= j < i <= n + 1 && LabelAt(m, i) == "A" && LabelAt(m, j) == "A" && !StartsWithA(LabelAt(r, i - 1)) ==>
        LabelAt(r, j) != LabelAt(r, i)
  {
    StepFrame(st, n + 1);
    var r := NumberStep(st, n + 1).labels;
    forall i, j | 1 <= j < i <= n + 1 && LabelAt(m, i) == "A" && LabelAt(m, j) == "A" && !StartsWithA(LabelAt(r, i - 1))
      ensures LabelAt(r, j) != LabelAt(r, i)
    {
      assert LabelAt(r, j) == LabelAt(st.labels, j);
      if i == n + 1 {
        assert !StartsWithA(st.prev);
        assert LabelAt(r, n + 1) == ArgLabel(st.idx + 1);
        var g :| g in st.groups && j in st.groups[g];
        assert LabelAt(st.labels, j) == ArgLabel(g) && g <= st.idx;
        ArgLabelInjective(g, st.idx + 1);
      } else {
        assert LabelAt(r, i) == LabelAt(st.labels, i) && LabelAt(r, i - 1) == LabelAt(st.labels, i - 1);
      }
    }
  }

  lemma RunsStep(m: map<string, string>, n: nat, st: Numbering)
    requires StepReady(m, n, st) && GroupsInv(m, n, st) && RunsInv(m, n, st.labels)
    ensures RunsInv(m, n + 1, NumberStep(st, n + 1).labels)
  {
    RunsStepSame(m, n, st);
    RunsStepNew(m, n, st);
  }

  /**
   * An argument right after an argument joins its group, and an argument
   * after a word whose label does not start with "A" opens a group no
   * earlier argument is in.
   */
  lemma {:induction false} NumberedRuns(m: map<string, string>, n: nat)
    ensures var r := Numbered(m, n).labels;
      forall i :: 1 <= i < n && LabelAt(m, i) == "A" && LabelAt(m, i + 1) == "A" ==> LabelAt(r, i) == LabelAt(r, i + 1)
    ensures var r := Numbered(m, n).labels;
      forall i, j :: 1 <= j < i <= n && LabelAt(m, i) == "A" && LabelAt(m, j) == "A" && !StartsWithA(LabelAt(r, i - 1)) ==>
        LabelAt(r, j) != LabelAt(r, i)
  {
    NumberedRunsInv(m, n);
  }

  lemma {:induction false} NumberedRunsInv(m: map<string, string>, n: nat)
    ensures RunsInv(m, n, Numbered(m, n).labels)
  {
    if n > 0 {
      NumberedRunsInv(m, n - 1);
      NumberedLabelsInv(m, n - 1);
      NumberedGroups(m, n - 1);
      LabelsReady(m, n - 1, Numbered(m, n - 1));
      RunsStep(m, n - 1, Numbered(m, n - 1));
    }
  }

  /** The groups so far are numbered 0, 1, 2, ..., and `idx` is the last of them. */
  ghost predicate ZeroInv(st: Numbering)
  {
    (forall a :: 0 <= a < |st.order| ==> st.order[a] == a) && st.idx == |st.order| - 1
  }

  /** With no other labels starting with "A", a `prev` starting with "A" is a group's label. */
  lemma PrevOpensNothing(m: map<string, string>, n: nat, st: Numbering)
    requires forall w :: w in m && StartsWithA(m[w]) ==> m[w] == "A"
    requires LabelsInv(m, n, st) && GroupsInv(m, n, st)
    ensures StartsWithA(st.prev) ==> st.order != []
  {
    if StartsWithA(st.prev) {
      assert n > 0;
      if LabelAt(m, n) == "A" {
        assert st.idx in Elems(st.order);
      }
    }
  }

  lemma ZeroStep(m: map<string, string>, n: nat, st: Numbering)
    requires StepReady(m, n, st) && GroupsInv(m, n, st) && ZeroInv(st)
    requires StartsWithA(st.prev) ==> st.order != []
    ensures ZeroInv(NumberStep(st, n + 1))
  {
    var st' := NumberStep(st, n + 1);
    if LabelAt(m, n + 1) == "A" {
      if StartsWithA(st.prev) {
        assert st.order[|st.order| - 1] == st.idx;
        assert st.idx in Elems(st.order);
        assert st'.order == st.order && st'.idx == st.idx;
      } else {
        assert st.idx + 1 !in Elems(st.order);
        assert st'.order == st.order + [st.idx + 1] && st'.idx == st.idx + 1;
      }
    } else {
      assert st'.order == st.order && st'.idx == st.idx;
    }
  }

  /**
   * When no word starts out with a label that begins with "A" other than "A"
   * itself, the groups are numbered 0, 1, 2, ... in the order they open.
   */
  lemma NumberedFromZero(m: map<string, string>, n: nat)
    requires forall w :: w in m && StartsWithA(m[w]) ==> m[w] == "A"
    ensures forall a :: 0 <= a < |Numbered(m, n).order| ==> Numbered(m, n).order[a] == a
    ensures Numbered(m, n).idx == |Numbered(m, n).order| - 1
  {
    NumberedZeroInv(m, n);
  }

  lemma {:induction false} NumberedZeroInv(m: map<string, string>, n: nat)
    requires forall w :: w in m && StartsWithA(m[w]) ==> m[w] == "A"
    ensures ZeroInv(Numbered(m, n))
  {
    if n > 0 {
      var st := Numbered(m, n - 1);
      NumberedZeroInv(m, n - 1);
      NumberedGroups(m, n - 1);
      NumberedLabelsInv(m, n - 1);
      LabelsReady(m, n - 1, st);
      PrevOpensNothing(m, n - 1, st);
      ZeroStep(m, n - 1, st);
    }
  }

  // ---------------------------------------------------------------------------
  // The relabelling for one ordering of the groups

  // The lemmas below take the key of a word (`str(word_idx)`) and the label
  // of a group position (`"A" + str(i)`) as function values: all they need of
  // the key is that it is injective, and of the tag nothing at all.

  ghost predicate Injective(key: int -> string)
  {
    forall a, b :: key(a) == key(b) ==> a == b
  }

  lemma WordKeyInjective()
    ensures Injective(IntToString)
  {
    forall a, b | IntToString(a) == IntToString(b) ensures a == b {
      IntToStringInjective(a, b);
    }
  }

  /** The keys of the words `ws`. */
  function WordsOf(key: int -> string, ws: seq<int>): set<string>
  {
    set w | w in ws :: key(w)
  }

  /** `for word_idx in ws: new[key(word_idx)] = lab`. */
  function RelabelGroup(key: int -> string, m: map<string, string>, ws: seq<int>, lab: string): map<string, string>
  {
    if ws == [] then m else RelabelGroup(key, m, ws[..|ws| - 1], lab)[key(ws[|ws| - 1]) := lab]
  }

  /** `for i, group_idx in enumerate(perm)`: the i-th group of `perm` gets `tag(i)`. */
  function RelabelBy(key: int -> string, tag: int -> string, m: map<string, string>,
                     groups: map<int, seq<int>>, perm: seq<int>): map<string, string>
  {
    if perm == [] then m
    else RelabelGroup(key, RelabelBy(key, tag, m, groups, perm[..|perm| - 1]), GroupOf(groups, perm[|perm| - 1]), tag(|perm| - 1))
  }

  /** The relabelling of `add_arg_idx` for the ordering `perm`: keys `str(w)`, labels `A<i>`. */
  function Relabel(m: map<string, string>, groups: map<int, seq<int>>, perm: seq<int>): map<string, string>
  {
    RelabelBy(IntToString, ArgLabel, m, groups, perm)
  }

  /** The keys of the words in the groups `perm` names. */
  function GroupKeys(key: int -> string, groups: map<int, seq<int>>, perm: seq<int>): set<string>
  {
    set i, w | 0 <= i < |perm| && w in GroupOf(groups, perm[i]) :: key(w)
  }

  /** No word is in two groups. */
  predicate Disjoint(groups: map<int, seq<int>>)
  {
    forall a, b, w :: a in groups && b in groups && w in groups[a] && w in groups[b] ==> a == b
  }

  lemma WordsOfSnoc(key: int -> string, ws: seq<int>)
    requires ws != []
    ensures WordsOf(key, ws) == WordsOf(key, ws[..|ws| - 1]) + {key(ws[|ws| - 1])}
  {
    var init, x := ws[..|ws| - 1], ws[|ws| - 1];
    assert forall w :: w in ws <==> w in init || w == x by {
      assert ws == init + [x];
    }
    forall k | k in WordsOf(key, init) + {key(x)} ensures k in WordsOf(key, ws) {
      if k != key(x) {
        var w :| w in init && k == key(w);
        assert w in ws;
      }
    }
  }

  lemma {:induction false} RelabelGroupMeaning(key: int -> string, m: map<string, string>, ws: seq<int>, lab: string)
    ensures RelabelGroup(key, m, ws, lab).Keys == m.Keys + WordsOf(key, ws)
    ensures forall w :: w in ws ==> RelabelGroup(key, m, ws, lab)[key(w)] == lab
    ensures forall k :: k in m && k !in WordsOf(key, ws) ==> RelabelGroup(key, m, ws, lab)[k] == m[k]
  {
    if ws != [] {
      var init, x := ws[..|ws| - 1], ws[|ws| - 1];
      RelabelGroupMeaning(key, m, init, lab);
      WordsOfSnoc(key, ws);
      var r0 := RelabelGroup(key, m, init, lab);
      var r := RelabelGroup(key, m, ws, lab);
      assert r == r0[key(x) := lab];
      forall w | w in ws ensures r[key(w)] == lab {
        if w != x {
          assert w in init by { assert ws == init + [x]; }
        }
      }
    }
  }

  lemma GroupKeysSnoc(key: int -> string, groups: map<int, seq<int>>, perm: seq<int>)
    requires perm != []
    ensures GroupKeys(key, groups, perm) ==
      GroupKeys(key, groups, perm[..|perm| - 1]) + WordsOf(key, GroupOf(groups, perm[|perm| - 1]))
  {
    var init := perm[..|perm| - 1];
    assert forall i :: 0 <= i < |init| ==> init[i] == perm[i];
  }

  /** Two different groups give their words different keys. */
  lemma KeysApart(key: int -> string, groups: map<int, seq<int>>, a: int, b: int, w: int)
    requires Injective(key) && Disjoint(groups) && a != b && w in GroupOf(groups, a)
    ensures key(w) !in WordsOf(key, GroupOf(groups, b))
  {
    forall v | v in GroupOf(groups, b) ensures key(v) != key(w) {
      assert v != w;
    }
  }

  /**
   * With the groups apart, no group named twice and an injective key, word
   * `w` of the i-th group of `perm` gets `tag(i)`, and every other entry
   * stays as it was.
   */
  lemma {:induction false} RelabelMeaning(key: int -> string, tag: int -> string, m: map<string, string>,
                                          groups: map<int, seq<int>>, perm: seq<int>)
    requires Injective(key) && Distinct(perm) && Disjoint(groups)
    ensures RelabelFacts(key, tag, m, groups, perm, RelabelBy(key, tag, m, groups, perm))
  {
    if perm != [] {
      var n := |perm| - 1;
      var init := perm[..n];
      assert Distinct(init) by {
        assert forall i :: 0 <= i < n ==> init[i] == perm[i];
      }
      RelabelMeaning(key, tag, m, groups, init);
      RelabelSnoc(key, tag, m, groups, perm, RelabelBy(key, tag, m, groups, init));
    }
  }

  /** What `RelabelBy(key, tag, m, groups, perm)` is, stated of `r`. */
  ghost predicate RelabelFacts(key: int -> string, tag: int -> string, m: map<string, string>,
                               groups: map<int, seq<int>>, perm: seq<int>, r: map<string, string>)
  {
    r.Keys == m.Keys + GroupKeys(key, groups, perm) &&
    (forall i, w :: 0 <= i < |perm| && w in GroupOf(groups, perm[i]) ==> key(w) in r && r[key(w)] == tag(i)) &&
    (forall k :: k in m && k !in GroupKeys(key, groups, perm) ==> r[k] == m[k])
  }

  /** Relabelling one more group keeps the facts. */
  lemma RelabelSnoc(key: int -> string, tag: int -> string, m: map<string, string>,
                    groups: map<int, seq<int>>, perm: seq<int>, r0: map<string, string>)
    requires perm != [] && Injective(key) && Distinct(perm) && Disjoint(groups)
    requires RelabelFacts(key, tag, m, groups, perm[..|perm| - 1], r0)
    ensures RelabelFacts(key, tag, m, groups, perm,
                         RelabelGroup(key, r0, GroupOf(groups, perm[|perm| - 1]), tag(|perm| - 1)))
  {
    var n := |perm| - 1;
    var init := perm[..n];
    var ws := GroupOf(groups, perm[n]);
    var r := RelabelGroup(key, r0, ws, tag(n));
    RelabelGroupMeaning(key, r0, ws, tag(n));
    GroupKeysSnoc(key, groups, perm);
    SnocLabels(key, tag, groups, perm, r0, r);
    SnocOthers(m, GroupKeys(key, groups, init), WordsOf(key, ws), r0, r);
  }

  lemma SnocOthers(m: map<string, string>, before: set<string>, now: set<string>, r0: map<string, string>, r: map<string, string>)
    requires r0.Keys == m.Keys + before && r.Keys == r0.Keys + now
    requires forall k :: k in m && k !in before ==> r0[k] == m[k]
    requires forall k :: k in r0 && k !in now ==> r[k] == r0[k]
    ensures r.Keys == m.Keys + (before + now)
    ensures forall k :: k in m && k !in before + now ==> r[k] == m[k]
  {
  }

  lemma SnocLabels(key: int -> string, tag: int -> string, groups: map<int, seq<int>>, perm: seq<int>,
                   r0: map<string, string>, r: map<string, string>)
    requires perm != [] && Injective(key) && Distinct(perm) && Disjoint(groups)
    requires var init := perm[..|perm| - 1];
      forall i, w :: 0 <= i < |init| && w in GroupOf(groups, init[i]) ==> key(w) in r0 && r0[key(w)] == tag(i)
    requires forall w :: w in GroupOf(groups, perm[|perm| - 1]) ==> key(w) in r && r[key(w)] == tag(|perm| - 1)
    requires forall k :: k in r0 && k !in WordsOf(key, GroupOf(groups, perm[|perm| - 1])) ==> k in r && r[k] == r0[k]
    ensures forall i, w :: 0 <= i < |perm| && w in GroupOf(groups, perm[i]) ==> key(w) in r && r[key(w)] == tag(i)
  {
    var n := |perm| - 1;
    var init := perm[..n];
    forall i, w | 0 <= i < |perm| && w in GroupOf(groups, perm[i])
      ensures key(w) in r && r[key(w)] == tag(i)
    {
      if i < n {
        assert init[i] == perm[i];
        assert perm[i] != perm[n];
        KeysApart(key, groups, perm[i], perm[n], w);
      }
    }
  }

  /** The relabelling for the ordering `perm` of the groups, on a copy of the labels. */
  method RelabelCopy(m: map<string, string>, groups: map<int, seq<int>>, perm: seq<int>) returns (r: map<string, string>)
    ensures r == Relabel(m, groups, perm)
  {
    r := m;
    for i := 0 to |perm|
      invariant r == RelabelBy(IntToString, ArgLabel, m, groups, perm[..i])
    {
      var ws := GroupOf(groups, perm[i]);
      ghost var r0 := r;
      for k := 0 to |ws|
        invariant r == RelabelGroup(IntToString, r0, ws[..k], ArgLabel(i))
      {
        assert ws[..k + 1][..k] == ws[..k];
        r := r[IntToString(ws[k]) := ArgLabel(i)];
      }
      assert ws[..|ws|] == ws;
      assert perm[..i + 1][..i] == perm[..i];
    }
    assert perm[..|perm|] == perm;
  }

  /** What the relabelling needs of the numbering: groups apart, each named once in `order`, their words labelled. */
  ghost predicate Shaped(key: int -> string, labels: map<string, string>, groups: map<int, seq<int>>, order: seq<int>)
  {
    Disjoint(groups) && Distinct(order) && Elems(order) == groups.Keys &&
    forall g, w :: g in groups && w in groups[g] ==> key(w) in labels
  }

  /** Only words labelled "A" in the input are put in a group. */
  ghost predicate GroupsOfArgs(m: map<string, string>, groups: map<int, seq<int>>)
  {
    forall g, w :: g in groups && w in groups[g] ==> LabelAt(m, w) == "A"
  }

  lemma NumberedShape(m: map<string, string>, n: nat)
    ensures Shaped(IntToString, Numbered(m, n).labels, Numbered(m, n).groups, Numbered(m, n).order)
    ensures GroupsOfArgs(m, Numbered(m, n).groups)
  {
    NumberedGroups(m, n);
    GroupsShape(m, n, Numbered(m, n));
  }

  lemma GroupsShape(m: map<string, string>, n: nat, st: Numbering)
    requires GroupsInv(m, n, st)
    ensures Shaped(IntToString, st.labels, st.groups, st.order) && GroupsOfArgs(m, st.groups)
  {
    forall a, b, w | a in st.groups && b in st.groups && w in st.groups[a] && w in st.groups[b] ensures a == b {
      assert LabelAt(st.labels, w) == ArgLabel(a);
      assert LabelAt(st.labels, w) == ArgLabel(b);
      ArgLabelInjective(a, b);
    }
    forall g, w | g in st.groups && w in st.groups[g] ensures IntToString(w) in st.labels {
      assert LabelAt(st.labels, w) == ArgLabel(g);
      assert ArgLabel(g)[0] == 'A';
    }
  }

  /**
   * The relabelling for the ordering `p`: same words, every group named once
   * in `p`, the i-th group of `p` labelled `tag(i)`, every other tag kept.
   */
  ghost predicate RelabelledAs(key: int -> string, tag: int -> string, labels: map<string, string>,
                               groups: map<int, seq<int>>, p: seq<int>)
  {
    var r := RelabelBy(key, tag, labels, groups, p);
    r.Keys == labels.Keys &&
    Elems(p) == groups.Keys && |p| == |groups| &&
    (forall i, w :: 0 <= i < |p| && w in GroupOf(groups, p[i]) ==> key(w) in r && r[key(w)] == tag(i)) &&
    (forall k :: k in labels && k !in GroupKeys(key, groups, p) ==> r[k] == labels[k])
  }

  lemma RelabelOrdering(key: int -> string, tag: int -> string, labels: map<string, string>,
                        groups: map<int, seq<int>>, order: seq<int>, p: seq<int>)
    requires Injective(key) && Shaped(key, labels, groups, order)
    requires p in Permutations(order)
    ensures RelabelledAs(key, tag, labels, groups, p)
  {
    PermutationElems(order, p);
    ElemsCount(order);
    RelabelMeaning(key, tag, labels, groups, p);
    GroupKeysIn(key, labels, groups, p);
  }

  lemma GroupKeysIn(key: int -> string, labels: map<string, string>, groups: map<int, seq<int>>, p: seq<int>)
    requires forall g, w :: g in groups && w in groups[g] ==> key(w) in labels
    ensures GroupKeys(key, groups, p) <= labels.Keys
  {
    forall k | k in GroupKeys(key, groups, p) ensures k in labels {
      var i, w :| 0 <= i < |p| && w in GroupOf(groups, p[i]) && k == key(w);
    }
  }

  /**
   * After numbering, the relabelling for any ordering of the groups gives the
   * i-th group of the ordering tag `A<i>`, every group gets a number, and
   * every word in no group keeps its label.
   */
  lemma ArgPermMeaning(m: map<string, string>, n: nat, p: seq<int>)
    requires p in Permutations(Numbered(m, n).order)
    ensures RelabelledAs(IntToString, ArgLabel, Numbered(m, n).labels, Numbered(m, n).groups, p)
  {
    NumberedShape(m, n);
    WordKeyInjective();
    RelabelOrdering(IntToString, ArgLabel, Numbered(m, n).labels, Numbered(m, n).groups, Numbered(m, n).order, p);
  }

  /** Numbering keeps a "P" label. */
  lemma NumberingKeepsPredLabel(m: map<string, string>, n: nat, w: string)
    requires w in m && m[w] == "P"
    ensures w in Numbered(m, n).labels && Numbered(m, n).labels[w] == "P"
  {
    NumberedLabels(m, n);
    if w in WordKeys(n) {
      var i :| 1 <= i <= n && w == IntToString(i);
      assert LabelAt(m, i) == "P";
    }
  }

  /** Relabelling touches only words of the groups, none of which had a "P" label. */
  lemma RelabelKeepsPred(m: map<string, string>, n: nat, p: seq<int>, w: string)
    requires w in m && m[w] == "P"
    requires p in Permutations(Numbered(m, n).order)
    ensures var st := Numbered(m, n); w in Relabel(st.labels, st.groups, p) && Relabel(st.labels, st.groups, p)[w] == "P"
  {
    NumberingKeepsPredLabel(m, n, w);
    ArgPermMeaning(m, n, p);
    NumberedShape(m, n);
    PredOutsideGroups(m, Numbered(m, n).groups, p, w);
  }

  lemma PredOutsideGroups(m: map<string, string>, groups: map<int, seq<int>>, p: seq<int>, w: string)
    requires GroupsOfArgs(m, groups) && w in m && m[w] == "P"
    ensures w !in GroupKeys(IntToString, groups, p)
  {
    forall i, v | 0 <= i < |p| && v in GroupOf(groups, p[i]) ensures IntToString(v) != w {
      assert p[i] in groups && v in groups[p[i]];
      assert LabelAt(m, v) == "A";
    }
  }

  /**
   * Numbering keeps the predicate: a word labelled "P" keeps its tag, also
   * in the relabelling for every ordering of the groups.
   */
  lemma NumberingKeepsPred(m: map<string, string>, n: nat)
    requires HasPred(m)
    ensures HasPred(Numbered(m, n).labels)
    ensures forall p :: p in Permutations(Numbered(m, n).order) ==>
              var st := Numbered(m, n); HasPred(Relabel(st.labels, st.groups, p))
  {
    var w :| w in m && m[w] == "P";
    NumberingKeepsPredLabel(m, n, w);
    forall p | p in Permutations(Numbered(m, n).order)
      ensures var st := Numbered(m, n); HasPred(Relabel(st.labels, st.groups, p))
    {
      RelabelKeepsPred(m, n, p, w);
    }
  }

  /** The loop of `add_arg_idx` over the words 1 to `length`, numbering the argument runs. */
  method NumberWords(l: Labelling, length: int) returns (groups: map<int, seq<int>>, order: seq<int>)
    modifies l
    ensures l.entries == Numbered(old(l.entries), Rounds(length)).labels
    ensures groups == Numbered(old(l.entries), Rounds(length)).groups
    ensures order == Numbered(old(l.entries), Rounds(length)).order
  {
    ghost var m0 := l.entries;
    var prev := "O";
    var idx := -1;
    groups := map[];
    order := [];
    var i := 1;
    while i <= length
      invariant 1 <= i && i - 1 <= Rounds(length)
      invariant Numbering(l.entries, prev, idx, groups, order) == Numbered(m0, i - 1)
    {
      ghost var st := Numbering(l.entries, prev, idx, groups, order);
      var key := IntToString(i);
      if key !in l.entries {
        l.entries := l.entries[key := "O"];
      } else if l.entries[key] == "A" {
        if !StartsWithA(prev) {
          idx := idx + 1;
        }
        if idx !in groups {
          groups := groups[idx := []];
          order := order + [idx];
        }
        groups := groups[idx := groups[idx] + [i]];
        l.entries := l.entries[key := ArgLabel(idx)];
      }
      prev := l.entries[key];
      assert Numbering(l.entries, prev, idx, groups, order) == NumberStep(st, i);
      i := i + 1;
    }
  }

  /** `add_arg_idx(extracted_labels, length, arg_perm)`. */
  method AddArgIdx(l: Labelling, length: int, argPerm: bool) returns (ret: seq<Labelling>)
    modifies l
    ensures l.entries == Numbered(old(l.entries), Rounds(length)).labels
    ensures !argPerm ==> ret == [l]
    ensures argPerm ==>
      var st := Numbered(old(l.entries), Rounds(length));
      var ps := Permutations(st.order);
      |ret| == |ps| == Factorial(|st.order|) &&
      forall j :: 0 <= j < |ret| ==> fresh(ret[j]) && ret[j].entries == Relabel(st.labels, st.groups, ps[j])
  {
    var groups, order := NumberWords(l, length);
    if !argPerm {
      return [l];
    }
    var perms := Permutations(order);
    PermutationsCount(order);
    ret := [];
    ghost var entries := l.entries;
    for j := 0 to |perms|
      invariant l.entries == entries
      invariant |ret| == j
      invariant forall a :: 0 <= a < j ==> fresh(ret[a]) && ret[a].entries == Relabel(l.entries, groups, perms[a])
    {
      var copy := RelabelCopy(l.entries, groups, perms[j]);
      var e := new Labelling(copy);
      ret := ret + [e];
    }
  }

  // ---------------------------------------------------------------------------
  // postprocess

  /** `postprocess(extracted_labels, pos_tags, top_order, arg_perm)`. */
  method Postprocess(l: Labelling, pos: seq<(string, string)>, top: seq<int>, argPerm: bool)
    returns (r: Result<seq<Labelling>, PostError>)
    modifies l
    ensures Resolved(old(l.entries), pos, top).Err? ==>
      r == Err(Resolved(old(l.entries), pos, top).error) && l.entries == old(l.entries)
    ensures Resolved(old(l.entries), pos, top).Ok? ==>
      var st := Numbered(Resolved(old(l.entries), pos, top).value, |pos|);
      var ps := Permutations(st.order);
      r.Ok? && l.entries == st.labels &&
      (!argPerm ==> r.value == [l]) &&
      (argPerm ==> (|r.value| == |ps| &&
        forall j :: 0 <= j < |r.value| ==> fresh(r.value[j]) && r.value[j].entries == Relabel(st.labels, st.groups, ps[j])))
  {
    var resolved := ResolvePred(l, pos, top);
    if resolved.Err? {
      return Err(resolved.error);
    }
    var ret := AddArgIdx(l, |pos|, argPerm);
    return Ok(ret);
  }

  /**
   * Whenever post-processing succeeds, every labelling it returns has a
   * predicate and a label for every word of the sentence.
   */
  lemma PostprocessedHasPred(m: map<string, string>, pos: seq<(string, string)>, top: seq<int>)
    requires Resolved(m, pos, top).Ok?
    ensures var st := Numbered(Resolved(m, pos, top).value, |pos|);
      HasPred(st.labels) &&
      (forall i :: 1 <= i <= |pos| ==> IntToString(i) in st.labels) &&
      forall p :: p in Permutations(st.order) ==>
        HasPred(Relabel(st.labels, st.groups, p)) && Relabel(st.labels, st.groups, p).Keys == st.labels.Keys
  {
    var m1 := Resolved(m, pos, top).value;
    var st := Numbered(m1, |pos|);
    ResolvedShape(m, pos, top);
    NumberingKeepsPred(m1, |pos|);
    NumberedLabels(m1, |pos|);
    forall p | p in Permutations(st.order)
      ensures Relabel(st.labels, st.groups, p).Keys == st.labels.Keys
    {
      ArgPermMeaning(m1, |pos|, p);
    }
  }
}
