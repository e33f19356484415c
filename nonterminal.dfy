// Edge labels of a hypergraph: a terminal label is a plain string, a
// nonterminal label is a (symbol, index) pair written `symbol$index` (or
// `symbol$` when it has no index).  The same class appears verbatim in the
// grammar module and in both chart modules; one definition serves all.
module Labels {
  import opened Wrappers
  import opened Strings

  datatype NonterminalLabel = NonterminalLabel(symbol: string, index: Option<string>)

  /** An edge label: the source stores either a string or a NonterminalLabel. */
  datatype Label = Terminal(name: string) | Nt(nt: NonterminalLabel)

  /** `str(nt)`: `label$index`, or `label$` when there is no index. */
  function NtToString(n: NonterminalLabel): (s: string)
    ensures |s| > |n.symbol| && s[..|n.symbol|] == n.symbol && s[|n.symbol|] == '$'
    ensures n.index.None? ==> |s| == |n.symbol| + 1
    ensures n.index.Some? ==> s[|n.symbol| + 1..] == n.index.value
  {
    match n.index
    case None => n.symbol + "$"
    case Some(i) => n.symbol + "$" + i
  }

  /**
   * `NonterminalLabel.from_string(s)`: the tuple unpacking of `s.split("$")`
   * fails (ValueError, None here) unless there is exactly one `$`; an empty
   * index becomes None.
   */
  function NtFromString(s: string): (r: Option<NonterminalLabel>)
    ensures r.Some? <==> Count(s, '$') == 1
    ensures r.Some? ==> '$' !in r.value.symbol && r.value.index != Some("")
  {
    var parts := SplitOn(s, '$');
    if |parts| != 2 then None
    else Some(NonterminalLabel(parts[0], if parts[1] == "" then None else Some(parts[1])))
  }

  /** A label whose parts hold no `$` and whose index is not empty survives the text form. */
  predicate WellFormed(n: NonterminalLabel)
  {
    '$' !in n.symbol && (n.index.Some? ==> '$' !in n.index.value && n.index.value != "")
  }

  lemma NtRoundTrip(n: NonterminalLabel)
    requires WellFormed(n)
    ensures NtFromString(NtToString(n)) == Some(n)
  {
    var s := NtToString(n);
    match n.index
    case None =>
      assert s == n.symbol + ['$'] + "";
      SplitOnConcat(n.symbol, "", '$');
      SplitOnNone("", '$');
    case Some(i) =>
      assert s == n.symbol + ['$'] + i;
      SplitOnConcat(n.symbol, i, '$');
      SplitOnNone(i, '$');
  }

  /** Every label `from_string` produces prints back as the text it came from. */
  lemma NtFromStringToString(s: string)
    requires NtFromString(s).Some?
    ensures NtToString(NtFromString(s).value) == s
    ensures WellFormed(NtFromString(s).value)
  {
    var parts := SplitOn(s, '$');
    var i := IndexOf(s, '$');
    CountSplit(s, i, '$');
    CountZero(s[i + 1..], '$');
    SplitOnConcat(s[..i], s[i + 1..], '$');
    assert s == s[..i] + ['$'] + s[i + 1..];
    SplitOnNone(s[i + 1..], '$');
  }

  /** `str(label)`, the key the graph code sorts sibling edges by. */
  function LabelString(l: Label): string
  {
    match l
    case Terminal(name) => name
    case Nt(n) => NtToString(n)
  }

  /**
   * Python `==` between two labels: a NonterminalLabel compares label (symbol) and
   * index; against a string the attribute lookup fails and the answer is False.
   */
  predicate LabelEq(a: Label, b: Label)
  {
    match (a, b)
    case (Terminal(x), Terminal(y)) => x == y
    case (Nt(m), Nt(n)) => m.symbol == n.symbol && m.index == n.index
    case _ => false
  }

  lemma LabelEqIsEquality(a: Label, b: Label)
    ensures LabelEq(a, b) <==> a == b
  {
  }

  /** `__hash__`: `83 * hash(label) + 17 * hash(index)`, given Python's `hash` of the two parts. */
  function NtHash(n: NonterminalLabel, hashSymbol: string -> int, hashIndex: Option<string> -> int): int
  {
    83 * hashSymbol(n.symbol) + 17 * hashIndex(n.index)
  }

  /** Labels that compare equal hash alike, whatever the hash of the parts. */
  lemma EqualLabelsHashAlike(m: NonterminalLabel, n: NonterminalLabel, hashSymbol: string -> int, hashIndex: Option<string> -> int)
    requires LabelEq(Nt(m), Nt(n))
    ensures NtHash(m, hashSymbol, hashIndex) == NtHash(n, hashSymbol, hashIndex)
  {
  }

  /** Two nonterminal labels print alike only when they are equal (for well-formed labels). */
  lemma NtToStringInjective(m: NonterminalLabel, n: NonterminalLabel)
    requires WellFormed(m) && WellFormed(n)
    requires NtToString(m) == NtToString(n)
    ensures m == n
  {
    NtRoundTrip(m);
    NtRoundTrip(n);
  }
}
