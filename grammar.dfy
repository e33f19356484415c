// The grammar file loader: parsing string right-hand sides, reading a rule
// file line by line into numbered rules, the reachability tables, and the
// filters that pick the rules a given input can use.
module Grammars {
  import opened Wrappers
  import opened Seqs
  import opened Strings
  import opened Labels
  import opened Graphs
  import opened Rules

  /** The exception a failed load raises. */
  datatype ErrorKind = GrammarError | ParserError | AttributeError | ValueError

  /** A failed load: the exception, with the line and rule counters of its message. */
  datatype LoadError = LoadError(kind: ErrorKind, line: nat, rule: nat)

  datatype Format = GraphFormat | StringFormat

  // ---------------------------------------------------------------------------
  // parse_string

  /** A `$` token whose nonterminal has no index gets a fresh one. */
  predicate TakesIndex(t: string)
  {
    '$' in t && NtFromString(t).Some? && NtFromString(t).value.index.None?
  }

  /** How many fresh indices the tokens hand out. */
  function FreshCount(ts: seq<string>): nat
  {
    if ts == [] then 0
    else FreshCount(ts[..|ts| - 1]) + (if TakesIndex(ts[|ts| - 1]) then 1 else 0)
  }

  /** The `k`-th fresh index, `"_%i" % k`. */
  function FreshIndex(k: nat): string
  {
    "_" + NatToString(k)
  }

  /** One token, given the fresh indices handed out before it; None for a malformed `$` token. */
  function TokenLabel(t: string, k: nat): Option<Label>
  {
    if '$' !in t then Some(Terminal(t))
    else
      match NtFromString(t)
      case None => None
      case Some(nt) => Some(Nt(if nt.index.None? then nt.(index := Some(FreshIndex(k))) else nt))
  }

  /** The tokens of a string right-hand side, read left to right. */
  function ParseTokens(ts: seq<string>): (r: Result<seq<Label>, ErrorKind>)
    ensures r.Ok? ==> |r.value| == |ts|
  {
    if ts == [] then Ok([])
    else
      match ParseTokens(ts[..|ts| - 1])
      case Err(e) => Err(e)
      case Ok(ls) =>
        match TokenLabel(ts[|ts| - 1], FreshCount(ts[..|ts| - 1]))
        case None => Err(ValueError)
        case Some(l) => Ok(ls + [l])
  }

  /** A token `from_string` rejects: a `$` token without exactly one `$`. */
  predicate Malformed(t: string)
  {
    '$' in t && NtFromString(t).None?
  }

  /** Parsing fails, with ValueError, exactly when some token is malformed. */
  lemma {:induction false} ParseTokensFails(ts: seq<string>)
    ensures ParseTokens(ts).Err? <==> exists i :: 0 <= i < |ts| && Malformed(ts[i])
    ensures ParseTokens(ts).Err? ==> ParseTokens(ts).error == ValueError
  {
    if ts != [] {
      var init := ts[..|ts| - 1];
      var last := ts[|ts| - 1];
      ParseTokensFails(init);
      if ParseTokens(init).Err? {
        var i :| 0 <= i < |init| && Malformed(init[i]);
        assert ts[i] == init[i];
      } else if Malformed(last) {
        assert TokenLabel(last, FreshCount(init)).None?;
      } else {
        forall i | 0 <= i < |ts|
          ensures !Malformed(ts[i])
        {
          if i < |init| {
            assert ts[i] == init[i];
          }
        }
      }
    }
  }

  /**
   * A successful parse turns token `i` into its label, an unindexed
   * nonterminal taking the number of unindexed nonterminals before it as its
   * index.
   */
  lemma {:induction false} ParseTokensLabels(ts: seq<string>)
    requires ParseTokens(ts).Ok?
    ensures forall i :: 0 <= i < |ts| ==> Some(ParseTokens(ts).value[i]) == TokenLabel(ts[i], FreshCount(ts[..i]))
  {
    if ts != [] {
      var init := ts[..|ts| - 1];
      ParseTokensLabels(init);
      var ls := ParseTokens(ts).value;
      assert ls[..|init|] == ParseTokens(init).value;
      forall i | 0 <= i < |ts|
        ensures Some(ls[i]) == TokenLabel(ts[i], FreshCount(ts[..i]))
      {
        if i < |init| {
          assert ls[i] == ParseTokens(init).value[i];
          assert init[i] == ts[i] && init[..i] == ts[..i];
        } else {
          assert ts[..i] == init;
        }
      }
    }
  }

  /** Fresh indices are handed out in order: each unindexed nonterminal gets a different one. */
  lemma {:induction false} FreshCountGrows(ts: seq<string>, i: nat, j: nat)
    requires i < j < |ts| && TakesIndex(ts[i])
    ensures FreshCount(ts[..i]) < FreshCount(ts[..j])
  {
    if j == i + 1 {
      assert ts[..j][..i] == ts[..i];
    } else {
      FreshCountGrows(ts, i, j - 1);
      assert ts[..j][..j - 1] == ts[..j - 1];
    }
  }

  /** Two unindexed nonterminals of one right-hand side never share an index. */
  lemma FreshIndicesDistinct(ts: seq<string>, i: nat, j: nat)
    requires i < j < |ts| && TakesIndex(ts[i]) && TakesIndex(ts[j])
    requires ParseTokens(ts).Ok?
    ensures ParseTokens(ts).value[i] != ParseTokens(ts).value[j]
  {
    ParseTokensLabels(ts);
    FreshCountGrows(ts, i, j);
    var a := FreshCount(ts[..i]);
    var b := FreshCount(ts[..j]);
    assert ParseTokens(ts).value[i].nt.index == Some(FreshIndex(a));
    assert ParseTokens(ts).value[j].nt.index == Some(FreshIndex(b));
    if FreshIndex(a) == FreshIndex(b) {
      assert NatToString(a) == FreshIndex(a)[1..];
      assert NatToString(b) == FreshIndex(b)[1..];
      NatToStringInjective(a, b);
    }
  }

  /** Once a prefix fails, the whole token list fails. */
  lemma {:induction false} ParseTokensPrefixErr(ts: seq<string>, i: nat)
    requires i <= |ts| && ParseTokens(ts[..i]).Err?
    ensures ParseTokens(ts) == Err(ValueError)
    decreases |ts| - i
  {
    if i == |ts| {
      assert ts[..i] == ts;
      ParseTokensFails(ts);
    } else {
      var init := ts[..|ts| - 1];
      assert init[..i] == ts[..i];
      ParseTokensPrefixErr(init, i);
    }
  }

  /** `parse_string(s)`: split at whitespace and read the tokens in order. */
  method ParseString(s: string) returns (r: Result<seq<Label>, ErrorKind>)
    ensures r == ParseTokens(SplitWs(Strip(s)))
  {
    var tokens := SplitWs(Strip(s));
    var res: seq<Label> := [];
    var ntIndex: nat := 0;
    for i := 0 to |tokens|
      invariant ParseTokens(tokens[..i]) == Ok(res)
      invariant ntIndex == FreshCount(tokens[..i])
    {
      var t := tokens[i];
      assert tokens[..i + 1][..i] == tokens[..i];
      var newToken: Label;
      if '$' in t {
        var nt := NtFromString(t);
        if nt.None? {
          ParseTokensPrefixErr(tokens, i + 1);
          return Err(ValueError);
        }
        if nt.value.index.None? {
          newToken := Nt(nt.value.(index := Some(FreshIndex(ntIndex))));
          ntIndex := ntIndex + 1;
        } else {
          newToken := Nt(nt.value);
        }
      } else {
        newToken := Terminal(t);
      }
      res := res + [newToken];
    }
    assert tokens[..|tokens|] == tokens;
    r := Ok(res);
  }

  /** The terminal names of a token string. */
  function TokenTerminals(ls: seq<Label>): set<string>
  {
    set l | l in ls && l.Terminal? :: l.name
  }

  /** The nonterminal symbols of a token string. */
  function TokenNonterminals(ls: seq<Label>): set<string>
  {
    set l | l in ls && l.Nt? :: l.nt.symbol
  }

  /** `_terminals_and_nts_from_string`: for every token, its name goes to one of the two sets. */
  method TerminalsAndNtsFromString(ls: seq<Label>) returns (terminals: set<string>, nonterminals: set<string>)
    ensures terminals == TokenTerminals(ls) && nonterminals == TokenNonterminals(ls)
    ensures forall x :: x in terminals ==> Terminal(x) in ls
    ensures forall l :: l in ls ==> (l.Terminal? && l.name in terminals) || (l.Nt? && l.nt.symbol in nonterminals)
  {
    terminals, nonterminals := {}, {};
    for i := 0 to |ls|
      invariant terminals == TokenTerminals(ls[..i]) && nonterminals == TokenNonterminals(ls[..i])
    {
      assert ls[..i + 1] == ls[..i] + [ls[i]];
      if ls[i].Nt? {
        nonterminals := nonterminals + {ls[i].nt.symbol};
      } else {
        terminals := terminals + {ls[i].name};
      }
    }
    assert ls[..|ls|] == ls;
  }

  // ---------------------------------------------------------------------------
  // Reading one side of a rule

  /** What the loader needs from outside: the graph parser, `float` and `math.log`, and its flags. */
  datatype Config = Config(
    parseGraph: string -> Option<RuleGraph>,  // None: `Hgraph.from_string` raised ParserError or IndexError
    toFloat: string -> Option<real>,          // None: `float` raised
    ln: real -> Option<real>,                 // None: `math.log` raised (a weight that is not positive)
    reverse: bool,
    nodelabels: bool,
    logprob: bool)

  /** A side read with `parse_string`. */
  function AsString(text: string): (r: Result<(Rhs, Format), ErrorKind>)
    ensures r.Ok? ==> r.value.1 == StringFormat && r.value.0.StringRhs?
    ensures r.Err? ==> r.error == ValueError
  {
    ParseTokensFails(SplitWs(Strip(text)));
    match ParseTokens(SplitWs(Strip(text)))
    case Err(e) => Err(e)
    case Ok(ls) => Ok((StringRhs(ls), StringFormat))
  }

  /**
   * First side: a graph when it parses (a grammar already known to be a string
   * grammar stays one); otherwise a string, unless the grammar is a graph
   * grammar, whose error message then fails on `e.message`.
   */
  function ReadRhs1(cfg: Config, text: string, fmt: Option<Format>): (r: Result<(Rhs, Format), ErrorKind>)
    ensures r.Ok? && fmt.Some? ==> r.value.1 == fmt.value
    ensures r.Ok? ==> (r.value.1 == GraphFormat ==> r.value.0.GraphRhs?)
    ensures r.Ok? ==> (r.value.1 == StringFormat && cfg.parseGraph(text).None? ==> r.value.0.StringRhs?)
    ensures fmt == Some(GraphFormat) ==> (r.Err? <==> cfg.parseGraph(text).None?)
    ensures r.Err? ==> r.error == (if fmt == Some(GraphFormat) then ErrorKind.AttributeError else ValueError)
  {
    match (fmt, cfg.parseGraph(text))
    case (None, Some(g)) => Ok((GraphRhs(g), GraphFormat))
    case (Some(f), Some(g)) => Ok((GraphRhs(g), f))
    case (Some(GraphFormat), None) => Err(ErrorKind.AttributeError)
    case (_, None) => AsString(text)
  }

  /**
   * Second side: a string for a string grammar (the format assertion fails
   * into the string branch); otherwise a graph when it parses, a ParserError
   * for a graph grammar when it does not, and a string for the first rule.
   */
  function ReadRhs2(cfg: Config, text: string, fmt: Option<Format>): (r: Result<(Rhs, Format), ErrorKind>)
    ensures r.Ok? && fmt.Some? ==> r.value.1 == fmt.value
    ensures r.Ok? ==> (r.value.1 == GraphFormat <==> r.value.0.GraphRhs?)
    ensures fmt == Some(GraphFormat) ==> (r.Err? <==> cfg.parseGraph(text).None?)
    ensures r.Err? ==> r.error == (if fmt == Some(GraphFormat) then ParserError else ValueError)
  {
    match (fmt, cfg.parseGraph(text))
    case (Some(StringFormat), _) => AsString(text)
    case (_, Some(g)) => Ok((GraphRhs(g), GraphFormat))
    case (Some(GraphFormat), None) => Err(ParserError)
    case (None, None) => AsString(text)
  }

  /** The (symbol, index) pairs of a side's nonterminals. */
  function NtSet(rhs: Rhs): set<NonterminalLabel>
  {
    match rhs
    case GraphRhs(g) => set t | t in g.triples && t.rel.Nt? :: t.rel.nt
    case StringRhs(ls) => set l | l in ls && l.Nt? :: l.nt
  }

  // ---------------------------------------------------------------------------
  // load_from_file

  /** The loader's variables between two lines. */
  datatype LoaderState = LoaderState(
    rules: map<int, VoRule>,
    ruleCount: nat,
    lineCount: nat,
    sync: bool,
    rhs1Type: Option<Format>,
    rhs2Type: Option<Format>,
    buf: string,
    startSymbol: string)

  function Initial(): LoaderState
  {
    LoaderState(map[], 1, 0, false, None, None, "", "truth")
  }

  /** The weight after `;`: 0.0 when empty, else the number, taken as a probability unless `logprob`. */
  function ParseWeight(cfg: Config, weights: string): (r: Option<real>)
    ensures weights == [] ==> r == Some(0.0)
    ensures weights != [] && cfg.logprob ==> r == cfg.toFloat(weights)
    ensures weights != [] && !cfg.logprob ==>
      r == (if cfg.toFloat(weights).Some? then cfg.ln(cfg.toFloat(weights).value) else None)
  {
    if weights == [] then Some(0.0)
    else
      match cfg.toFloat(weights)
      case None => None
      case Some(w) => if cfg.logprob then Some(w) else cfg.ln(w)
  }

  function Fail<T>(st: LoaderState, k: ErrorKind): Result<T, LoadError>
  {
    Err(LoadError(k, st.lineCount, st.ruleCount))
  }

  /** A buffered rule text `lhs -> rhs1 [| rhs2] ; weight`, split into its parts. */
  datatype RuleHeader = RuleHeader(weight: real, lhs: string, sync: bool, rhs1: string, rhs2: string)

  /**
   * Splits the buffered rule text, which holds a `;`.  A bad weight, other
   * than one `->`, more than one `|`, or a rule whose number of sides
   * differs from the earlier rules' is an error: all rules of a grammar have
   * two sides or all have one.
   */
  function ReadHeader(cfg: Config, st: LoaderState): (r: Result<RuleHeader, LoadError>)
    requires ';' in st.buf
    ensures r.Ok? && st.sync ==> r.value.sync
    ensures r.Ok? && st.ruleCount > 1 ==> (r.value.sync <==> st.sync)
    ensures r.Err? ==> r.error.line == st.lineCount && r.error.rule == st.ruleCount
  {
    var (content, weights) := SplitOnce(st.buf, ';');
    var weight := ParseWeight(cfg, weights);
    var parts := SplitOnSub(content, "->");
    if weight.None? || |parts| != 2 then Fail(st, GrammarError)
    else
      var lhs := Strip(parts[0]);
      var rhsstring := parts[1];
      var sync := '|' in rhsstring;
      var sides := SplitOn(rhsstring, '|');
      if sync && !st.sync && st.ruleCount > 1 then Fail(st, GrammarError)
      else if sync && |sides| != 2 then Fail(st, GrammarError)
      else if !sync && st.sync then Fail(st, ParserError)
      else Ok(RuleHeader(weight.value, lhs, sync, sides[0], if sync then sides[1] else ""))
  }

  /** Reads the buffered rule text, which holds a `;`. */
  function RuleStep(cfg: Config, st: LoaderState): Result<LoaderState, LoadError>
    requires ';' in st.buf
  {
    match ReadHeader(cfg, st)
    case Err(e) => Err(e)
    case Ok(h) => SidesStep(cfg, st, h.weight, h.lhs, h.sync, h.rhs1, h.rhs2)
  }

  /** Reads both sides and stores the rule. */
  function SidesStep(cfg: Config, st: LoaderState, weight: real, lhs: string, sync: bool, t1: string, t2: string)
    : Result<LoaderState, LoadError>
  {
    match ReadRhs1(cfg, t1, st.rhs1Type)
    case Err(k) => Fail(st, k)
    case Ok((r1, fmt1)) =>
      if !sync then AddRule(cfg, st, weight, lhs, r1, None, fmt1, st.rhs2Type)
      else
        match ReadRhs2(cfg, t2, st.rhs2Type)
        case Err(k) => Fail(st, k)
        case Ok((r2, fmt2)) =>
          if NtSet(r1) != NtSet(r2) then Fail(st, GrammarError)
          else AddRule(cfg, st, weight, lhs, r1, Some(r2), fmt1, Some(fmt2))
  }

  /** Builds the rule (sides swapped under `reverse`) under the next id and empties the buffer. */
  function AddRule(cfg: Config, st: LoaderState, weight: real, lhs: string, r1: Rhs, r2: Option<Rhs>,
                   fmt1: Format, fmt2: Option<Format>): Result<LoaderState, LoadError>
  {
    var made :=
      if r2.Some? && cfg.reverse then MakeRule(st.ruleCount, lhs, weight, r2.value, Some(r1), None, None, None, cfg.nodelabels, cfg.logprob)
      else MakeRule(st.ruleCount, lhs, weight, r1, r2, None, None, None, cfg.nodelabels, cfg.logprob);
    match made
    case Err(_) => Fail(st, GrammarError)
    case Ok(rule) =>
      Ok(st.(rules := st.rules[st.ruleCount := rule], ruleCount := st.ruleCount + 1, sync := r2.Some?,
             rhs1Type := Some(fmt1), rhs2Type := fmt2, buf := [],
             startSymbol := if st.ruleCount == 1 then lhs else st.startSymbol))
  }

  /** The part of a line before its first `#`. */
  function Uncommented(l: string): (c: string)
    ensures '#' !in c
    ensures '#' !in l ==> c == l
    ensures '#' in l ==> exists rest :: l == c + "#" + rest
  {
    if '#' in l then
      var (c, rest) := SplitOnce(l, '#');
      assert l == c + "#" + rest;
      c
    else l
  }

  /** A `;` in a line's content reaches the buffer. */
  lemma SemicolonBuffered(buf: string, content: string)
    ensures ';' in content ==> ';' in buf + Strip(content)
  {
    if ';' !in content {
      return;
    }
    StripKeeps(content, ';');
    var text := Strip(content);
    var k := IndexOf(text, ';');
    assert (buf + text)[|buf| + k] == ';';
  }

  /** A line whose content (before any `#`) holds a `;`, which ends the buffered rule. */
  predicate EndsRule(line: string)
  {
    Strip(line) != [] && ';' in Uncommented(Strip(line))
  }

  /** Counts the line and appends its stripped content to the buffer; blank lines add nothing. */
  function Buffer(st: LoaderState, line: string): (r: LoaderState)
    ensures r == st.(lineCount := st.lineCount + 1, buf := st.buf + LineContent(line))
    ensures EndsRule(line) ==> ';' in r.buf
  {
    var l := Strip(line);
    if l == [] then
      assert st.buf + LineContent(line) == st.buf;
      st.(lineCount := st.lineCount + 1)
    else
      var content := Uncommented(l);
      SemicolonBuffered(st.buf, content);
      st.(lineCount := st.lineCount + 1, buf := st.buf + Strip(content))
  }

  /** One line of the file: blank lines are skipped, comments dropped, and a `;` ends the buffered rule. */
  function Feed(cfg: Config, st: LoaderState, line: string): Result<LoaderState, LoadError>
  {
    var st' := Buffer(st, line);
    if EndsRule(line) then RuleStep(cfg, st') else Ok(st')
  }

  /** What a line adds to the buffer: its stripped content before any `#`. */
  function LineContent(line: string): string
  {
    if Strip(line) == [] then [] else Strip(Uncommented(Strip(line)))
  }

  function Contents(lines: seq<string>): string
  {
    if lines == [] then [] else LineContent(lines[0]) + Contents(lines[1..])
  }


  function FeedAll(cfg: Config, st: LoaderState, lines: seq<string>): Result<LoaderState, LoadError>
    decreases |lines|
  {
    if lines == [] then Ok(st)
    else
      match Feed(cfg, st, lines[0])
      case Err(e) => Err(e)
      case Ok(st') => FeedAll(cfg, st', lines[1..])
  }

  // ---------------------------------------------------------------------------
  // The loaded grammar

  /** The key of `lhs_to_rules`: (symbol, number of external nodes) for graphs, the symbol for strings. */
  datatype LhsKey = GraphLhs(symbol: string, arity: nat) | StringLhs(symbol: string)

  /**
   * A loaded grammar: rules `1..size` by id, the start symbol, the formats
   * of the two sides, and the reachability tables.
   */
  datatype Grammar = Grammar(
    rules: map<int, VoRule>,
    size: int,
    startSymbol: string,
    sync: bool,
    rhs1Type: Option<Format>,
    rhs2Type: Option<Format>,
    lhsToRules: map<LhsKey, set<int>>,
    ntToRules: map<string, set<int>>)

  /** The grammar a finished read yields before its tables are filled; `reverse` swaps the formats. */
  function Finish(cfg: Config, st: LoaderState): Grammar
  {
    var swap := st.sync && cfg.reverse;
    Grammar(st.rules, st.ruleCount - 1, st.startSymbol, st.sync,
            if swap then st.rhs2Type else st.rhs1Type,
            if swap then st.rhs1Type else st.rhs2Type,
            map[], map[])
  }

  /** The sides of a stored rule in file order (undoing `reverse`). */
  function FileSides(cfg: Config, r: VoRule): (Rhs, Option<Rhs>)
  {
    if cfg.reverse && r.rhs2.Some? then (r.rhs2.value, Some(r.rhs1)) else (r.rhs1, r.rhs2)
  }

  /** A stored rule agrees with the loader's running state. */
  ghost predicate RuleOk(cfg: Config, st: LoaderState, r: VoRule, i: int)
  {
    var (s1, s2) := FileSides(cfg, r);
    r.ruleId == i && Rules.WellFormed(r) &&
    (r.rhs2.Some? <==> st.sync) &&
    (s2.Some? ==> NtSet(s1) == NtSet(s2.value)) &&
    (st.rhs1Type == Some(GraphFormat) ==> s1.GraphRhs?) &&
    (st.rhs2Type == Some(GraphFormat) ==> s2.Some? && s2.value.GraphRhs?)
  }

  /** What holds of the loader's state after every line. */
  ghost predicate StateOk(cfg: Config, st: LoaderState)
  {
    HeadOk(st) && RulesOk(cfg, st)
  }

  /** The rule ids, the start symbol and the formats agree with the number of rules read. */
  ghost predicate HeadOk(st: LoaderState)
  {
    st.ruleCount >= 1 &&
    (forall i :: i in st.rules <==> 1 <= i < st.ruleCount) &&
    (st.ruleCount == 1 <==> st.rhs1Type.None?) &&
    (st.ruleCount == 1 ==> st.startSymbol == "truth" && !st.sync) &&
    (st.ruleCount > 1 ==> st.startSymbol == st.rules[1].symbol) &&
    (st.rhs2Type.Some? <==> st.sync)
  }

  ghost predicate RulesOk(cfg: Config, st: LoaderState)
  {
    forall i :: i in st.rules ==> RuleOk(cfg, st, st.rules[i], i)
  }

  lemma InitialOk(cfg: Config)
    ensures StateOk(cfg, Initial())
  {
  }

  lemma AddRuleOk(cfg: Config, st: LoaderState, weight: real, lhs: string, r1: Rhs, r2: Option<Rhs>,
                                     fmt1: Format, fmt2: Option<Format>)
    requires StateOk(cfg, st)
    requires r2.Some? ==> NtSet(r1) == NtSet(r2.value)
    requires st.rhs1Type.Some? ==> fmt1 == st.rhs1Type.value
    requires fmt1 == GraphFormat ==> r1.GraphRhs?
    requires r2.None? ==> fmt2 == st.rhs2Type
    requires r2.Some? ==> fmt2.Some? && (fmt2.value == GraphFormat ==> r2.value.GraphRhs?)
    requires r2.Some? && st.rhs2Type.Some? ==> fmt2 == st.rhs2Type
    requires st.ruleCount > 1 ==> (r2.Some? <==> st.sync)
    ensures AddRule(cfg, st, weight, lhs, r1, r2, fmt1, fmt2).Ok? ==> StateOk(cfg, AddRule(cfg, st, weight, lhs, r1, r2, fmt1, fmt2).value)
  {
    AddRuleHeadOk(cfg, st, weight, lhs, r1, r2, fmt1, fmt2);
    AddRuleRulesOk(cfg, st, weight, lhs, r1, r2, fmt1, fmt2);
  }

  lemma AddRuleHeadOk(cfg: Config, st: LoaderState, weight: real, lhs: string, r1: Rhs, r2: Option<Rhs>,
                                     fmt1: Format, fmt2: Option<Format>)
    requires StateOk(cfg, st)
    requires r2.Some? ==> NtSet(r1) == NtSet(r2.value)
    requires st.rhs1Type.Some? ==> fmt1 == st.rhs1Type.value
    requires fmt1 == GraphFormat ==> r1.GraphRhs?
    requires r2.None? ==> fmt2 == st.rhs2Type
    requires r2.Some? ==> fmt2.Some? && (fmt2.value == GraphFormat ==> r2.value.GraphRhs?)
    requires r2.Some? && st.rhs2Type.Some? ==> fmt2 == st.rhs2Type
    requires st.ruleCount > 1 ==> (r2.Some? <==> st.sync)
    ensures AddRule(cfg, st, weight, lhs, r1, r2, fmt1, fmt2).Ok? ==> HeadOk(AddRule(cfg, st, weight, lhs, r1, r2, fmt1, fmt2).value)
  {
    var res := AddRule(cfg, st, weight, lhs, r1, r2, fmt1, fmt2);
    if res.Ok? {
      var st' := res.value;
      assert forall i :: i in st'.rules <==> i == st.ruleCount || i in st.rules;
    }
  }

  lemma AddRuleRulesOk(cfg: Config, st: LoaderState, weight: real, lhs: string, r1: Rhs, r2: Option<Rhs>,
                                     fmt1: Format, fmt2: Option<Format>)
    requires StateOk(cfg, st)
    requires r2.Some? ==> NtSet(r1) == NtSet(r2.value)
    requires st.rhs1Type.Some? ==> fmt1 == st.rhs1Type.value
    requires fmt1 == GraphFormat ==> r1.GraphRhs?
    requires r2.None? ==> fmt2 == st.rhs2Type
    requires r2.Some? ==> fmt2.Some? && (fmt2.value == GraphFormat ==> r2.value.GraphRhs?)
    requires r2.Some? && st.rhs2Type.Some? ==> fmt2 == st.rhs2Type
    requires st.ruleCount > 1 ==> (r2.Some? <==> st.sync)
    ensures AddRule(cfg, st, weight, lhs, r1, r2, fmt1, fmt2).Ok? ==> RulesOk(cfg, AddRule(cfg, st, weight, lhs, r1, r2, fmt1, fmt2).value)
  {
    var res := AddRule(cfg, st, weight, lhs, r1, r2, fmt1, fmt2);
    if res.Ok? {
      var st' := res.value;
      NewRuleOk(cfg, st, weight, lhs, r1, r2, fmt1, fmt2);
      OldRulesOk(cfg, st, weight, lhs, r1, r2, fmt1, fmt2);
      assert forall i :: i in st'.rules ==> i == st.ruleCount || i in st.rules;
    }
  }

  /** The rule just added agrees with the new state. */
  lemma NewRuleOk(cfg: Config, st: LoaderState, weight: real, lhs: string, r1: Rhs, r2: Option<Rhs>,
                                     fmt1: Format, fmt2: Option<Format>)
    requires StateOk(cfg, st)
    requires r2.Some? ==> NtSet(r1) == NtSet(r2.value)
    requires st.rhs1Type.Some? ==> fmt1 == st.rhs1Type.value
    requires fmt1 == GraphFormat ==> r1.GraphRhs?
    requires r2.None? ==> fmt2 == st.rhs2Type
    requires r2.Some? ==> fmt2.Some? && (fmt2.value == GraphFormat ==> r2.value.GraphRhs?)
    requires r2.Some? && st.rhs2Type.Some? ==> fmt2 == st.rhs2Type
    requires st.ruleCount > 1 ==> (r2.Some? <==> st.sync)
    ensures AddRule(cfg, st, weight, lhs, r1, r2, fmt1, fmt2).Ok? ==> StoredOk(cfg, AddRule(cfg, st, weight, lhs, r1, r2, fmt1, fmt2).value, st.ruleCount)
  {
    var res := AddRule(cfg, st, weight, lhs, r1, r2, fmt1, fmt2);
    if res.Ok? {
      var rule := res.value.rules[st.ruleCount];
      assert FileSides(cfg, rule) == (r1, r2);
    }
  }

  /** The rules stored before still agree with the new state. */
  lemma OldRulesOk(cfg: Config, st: LoaderState, weight: real, lhs: string, r1: Rhs, r2: Option<Rhs>,
                                     fmt1: Format, fmt2: Option<Format>)
    requires StateOk(cfg, st)
    requires r2.Some? ==> NtSet(r1) == NtSet(r2.value)
    requires st.rhs1Type.Some? ==> fmt1 == st.rhs1Type.value
    requires fmt1 == GraphFormat ==> r1.GraphRhs?
    requires r2.None? ==> fmt2 == st.rhs2Type
    requires r2.Some? ==> fmt2.Some? && (fmt2.value == GraphFormat ==> r2.value.GraphRhs?)
    requires r2.Some? && st.rhs2Type.Some? ==> fmt2 == st.rhs2Type
    requires st.ruleCount > 1 ==> (r2.Some? <==> st.sync)
    ensures AddRule(cfg, st, weight, lhs, r1, r2, fmt1, fmt2).Ok? ==> forall i :: i in st.rules ==> StoredOk(cfg, AddRule(cfg, st, weight, lhs, r1, r2, fmt1, fmt2).value, i)
  {
    var res := AddRule(cfg, st, weight, lhs, r1, r2, fmt1, fmt2);
    if res.Ok? && st.ruleCount > 1 {
      var st' := res.value;
      assert st'.sync == st.sync && st'.rhs1Type == st.rhs1Type && st'.rhs2Type == st.rhs2Type;
      forall i | i in st.rules
        ensures RuleOk(cfg, st', st'.rules[i], i)
      {
        assert st'.rules[i] == st.rules[i];
        RuleOkTransfer(cfg, st, st', st.rules[i], i);
      }
    }
  }

  /** Rule `i` is stored and agrees with the state. */
  ghost predicate StoredOk(cfg: Config, st: LoaderState, i: int)
  {
    i in st.rules && RuleOk(cfg, st, st.rules[i], i)
  }

  /** Whether a stored rule is in order depends only on the loader's sync flag and formats. */
  lemma RuleOkTransfer(cfg: Config, st: LoaderState, st': LoaderState, r: VoRule, i: int)
    requires RuleOk(cfg, st, r, i)
    requires st'.sync == st.sync && st'.rhs1Type == st.rhs1Type && st'.rhs2Type == st.rhs2Type
    ensures RuleOk(cfg, st', r, i)
  {
  }

  lemma SidesStepOk(cfg: Config, st: LoaderState, weight: real, lhs: string, sync: bool, t1: string, t2: string)
    requires StateOk(cfg, st)
    requires st.ruleCount > 1 ==> (sync <==> st.sync)
    ensures SidesStep(cfg, st, weight, lhs, sync, t1, t2).Ok? ==> StateOk(cfg, SidesStep(cfg, st, weight, lhs, sync, t1, t2).value)
  {
    var a := ReadRhs1(cfg, t1, st.rhs1Type);
    if a.Ok? {
      var (r1, fmt1) := a.value;
      if !sync {
        AddRuleOk(cfg, st, weight, lhs, r1, None, fmt1, st.rhs2Type);
      } else {
        var b := ReadRhs2(cfg, t2, st.rhs2Type);
        if b.Ok? && NtSet(r1) == NtSet(b.value.0) {
          AddRuleOk(cfg, st, weight, lhs, r1, Some(b.value.0), fmt1, Some(b.value.1));
        }
      }
    }
  }

  lemma RuleStepOk(cfg: Config, st: LoaderState)
    requires ';' in st.buf && StateOk(cfg, st)
    ensures RuleStep(cfg, st).Ok? ==> StateOk(cfg, RuleStep(cfg, st).value)
  {
    var hd := ReadHeader(cfg, st);
    if hd.Ok? {
      var h := hd.value;
      SidesStepOk(cfg, st, h.weight, h.lhs, h.sync, h.rhs1, h.rhs2);
    }
  }

  lemma FeedOk(cfg: Config, st: LoaderState, line: string)
    requires StateOk(cfg, st)
    ensures Feed(cfg, st, line).Ok? ==> StateOk(cfg, Feed(cfg, st, line).value)
  {
    var st' := Buffer(st, line);
    assert StateOk(cfg, st');
    if EndsRule(line) {
      RuleStepOk(cfg, st');
    }
  }

  /** Every state the loader reaches satisfies StateOk. */
  lemma {:induction false} FeedAllOk(cfg: Config, st: LoaderState, lines: seq<string>)
    requires StateOk(cfg, st)
    ensures FeedAll(cfg, st, lines).Ok? ==> StateOk(cfg, FeedAll(cfg, st, lines).value)
    decreases |lines|
  {
    if lines != [] {
      FeedOk(cfg, st, lines[0]);
      if Feed(cfg, st, lines[0]).Ok? {
        FeedAllOk(cfg, Feed(cfg, st, lines[0]).value, lines[1..]);
      }
    }
  }

  lemma {:induction false} FeedAllStep(cfg: Config, st: LoaderState, lines: seq<string>, i: nat)
    requires i < |lines|
    ensures FeedAll(cfg, st, lines[i..]) ==
      match Feed(cfg, st, lines[i])
      case Err(e) => Err(e)
      case Ok(st') => FeedAll(cfg, st', lines[i + 1..])
  {
    assert lines[i..][0] == lines[i];
    assert lines[i..][1..] == lines[i + 1..];
  }

  /** What a loaded grammar satisfies: see GrammarOk. */
  ghost predicate RuleFits(g: Grammar, r: VoRule, i: int)
  {
    r.ruleId == i && Rules.WellFormed(r) &&
    (r.rhs2.Some? <==> g.sync) &&
    (r.rhs2.Some? ==> NtSet(r.rhs1) == NtSet(r.rhs2.value)) &&
    (g.rhs1Type == Some(GraphFormat) ==> r.rhs1.GraphRhs?) &&
    (g.rhs2Type == Some(GraphFormat) ==> r.rhs2.Some? && r.rhs2.value.GraphRhs?)
  }

  /**
   * A loaded grammar: rule ids `1..size`, each rule stored under its id; the
   * start symbol is the first rule's left-hand side (or `truth` for an empty
   * file); either every rule has two sides, with the same nonterminals on
   * both, or none has; and a graph-format side is a graph in every rule.
   */
  ghost predicate GrammarOk(g: Grammar)
  {
    g.size >= 0 && (forall i :: i in g.rules <==> 1 <= i <= g.size) &&
    (g.size == 0 ==> g.startSymbol == "truth" && g.rhs1Type.None? && !g.sync) &&
    (g.size > 0 ==> g.startSymbol == g.rules[1].symbol && g.rhs1Type.Some?) &&
    (g.sync ==> g.rhs1Type.Some? && g.rhs2Type.Some?) &&
    (!g.sync ==> g.rhs2Type.None?) &&
    (forall i :: i in g.rules ==> RuleFits(g, g.rules[i], i))
  }

  lemma FinishOk(cfg: Config, st: LoaderState)
    requires StateOk(cfg, st)
    ensures GrammarOk(Finish(cfg, st))
  {
    var g := Finish(cfg, st);
    forall i | i in g.rules
      ensures RuleFits(g, g.rules[i], i)
    {
      assert RuleOk(cfg, st, st.rules[i], i);
    }
  }

  /** GrammarOk does not look at the tables. */
  lemma TablesAside(g: Grammar, h: Grammar)
    requires GrammarOk(g) && h == g.(lhsToRules := h.lhsToRules, ntToRules := h.ntToRules)
    ensures GrammarOk(h)
  {
    forall i | i in h.rules
      ensures RuleFits(h, h.rules[i], i)
    {
      assert RuleFits(g, g.rules[i], i);
    }
  }

  /** The defaultdict lookup: a missing key reads as the empty set. */
  function Get<K>(m: map<K, set<int>>, k: K): set<int>
  {
    if k in m then m[k] else {}
  }

  /** The `lhs_to_rules` key of a rule; None when the first side has no format. */
  function LhsKeyOf(fmt: Option<Format>, r: VoRule): Option<LhsKey>
  {
    match (fmt, r.rhs1)
    case (Some(GraphFormat), GraphRhs(gr)) => Some(GraphLhs(r.symbol, |gr.externals|))
    case (Some(StringFormat), _) => Some(StringLhs(r.symbol))
    case _ => None
  }

  /**
   * The nonterminal symbols of a side read in the given format.  A graph read
   * in string format is iterated over its node keys, none of which is a
   * nonterminal.
   */
  function SideNonterminals(fmt: Option<Format>, rhs: Rhs): set<string>
  {
    match (fmt, rhs)
    case (Some(GraphFormat), GraphRhs(gr)) => set t | t in gr.triples && t.rel.Nt? :: t.rel.nt.symbol
    case (Some(StringFormat), StringRhs(ls)) => TokenNonterminals(ls)
    case _ => {}
  }

  /**
   * The tables: `lhs_to_rules` maps each key to the rules with that key, and
   * `nonterminal_to_rules` maps a symbol to the rules whose first side
   * mentions it as a nonterminal.
   */
  ghost predicate TablesOk(g: Grammar)
  {
    (forall k :: Get(g.lhsToRules, k) == (set i | i in g.rules && LhsKeyOf(g.rhs1Type, g.rules[i]) == Some(k))) &&
    (forall x :: Get(g.ntToRules, x) == (set i | i in g.rules && x in SideNonterminals(g.rhs1Type, g.rules[i].rhs1)))
  }

  ghost predicate LhsUpTo(g: Grammar, lhs: map<LhsKey, set<int>>, n: int)
  {
    forall k :: Get(lhs, k) == (set i | i in g.rules && i < n && LhsKeyOf(g.rhs1Type, g.rules[i]) == Some(k))
  }

  ghost predicate NtsUpTo(g: Grammar, nts: map<string, set<int>>, n: int)
  {
    forall x :: Get(nts, x) == (set i | i in g.rules && i < n && x in SideNonterminals(g.rhs1Type, g.rules[i].rhs1))
  }

  /** Adds rule `i` under every symbol of `xs`. */
  method AddUnder(nts: map<string, set<int>>, xs: seq<string>, i: int) returns (r: map<string, set<int>>)
    ensures forall x :: Get(r, x) == Get(nts, x) + (if x in xs then {i} else {})
  {
    r := nts;
    for j := 0 to |xs|
      invariant forall x :: Get(r, x) == Get(nts, x) + (if x in xs[..j] then {i} else {})
    {
      assert xs[..j + 1] == xs[..j] + [xs[j]];
      r := r[xs[j] := Get(r, xs[j]) + {i}];
    }
    assert xs[..|xs|] == xs;
  }

  lemma LhsStep(g: Grammar, lhs: map<LhsKey, set<int>>, n: int, lhs': map<LhsKey, set<int>>)
    requires n in g.rules && LhsUpTo(g, lhs, n)
    requires forall k :: Get(lhs', k) == Get(lhs, k) + (if LhsKeyOf(g.rhs1Type, g.rules[n]) == Some(k) then {n} else {})
    ensures LhsUpTo(g, lhs', n + 1)
  {
    forall k
      ensures Get(lhs', k) == (set i | i in g.rules && i < n + 1 && LhsKeyOf(g.rhs1Type, g.rules[i]) == Some(k))
    {
      var a := set i | i in g.rules && i < n && LhsKeyOf(g.rhs1Type, g.rules[i]) == Some(k);
      var b := set i | i in g.rules && i < n + 1 && LhsKeyOf(g.rhs1Type, g.rules[i]) == Some(k);
      assert b == a + (if LhsKeyOf(g.rhs1Type, g.rules[n]) == Some(k) then {n} else {});
    }
  }

  lemma NtsStep(g: Grammar, nts: map<string, set<int>>, n: int, nts': map<string, set<int>>)
    requires n in g.rules && NtsUpTo(g, nts, n)
    requires forall x :: Get(nts', x) == Get(nts, x) + (if x in SideNonterminals(g.rhs1Type, g.rules[n].rhs1) then {n} else {})
    ensures NtsUpTo(g, nts', n + 1)
  {
    forall x
      ensures Get(nts', x) == (set i | i in g.rules && i < n + 1 && x in SideNonterminals(g.rhs1Type, g.rules[i].rhs1))
    {
      var a := set i | i in g.rules && i < n && x in SideNonterminals(g.rhs1Type, g.rules[i].rhs1);
      var b := set i | i in g.rules && i < n + 1 && x in SideNonterminals(g.rhs1Type, g.rules[i].rhs1);
      assert b == a + (if x in SideNonterminals(g.rhs1Type, g.rules[n].rhs1) then {n} else {});
    }
  }

  /** `_compute_reachability_table_lookup`: fills both tables, rule by rule. */
  method ComputeTables(g: Grammar) returns (h: Grammar)
    requires g.size >= 0 && forall i :: i in g.rules <==> 1 <= i <= g.size
    ensures h == g.(lhsToRules := h.lhsToRules, ntToRules := h.ntToRules)
    ensures TablesOk(h)
  {
    var lhs: map<LhsKey, set<int>> := map[];
    var nts: map<string, set<int>> := map[];
    for n := 1 to g.size + 1
      invariant LhsUpTo(g, lhs, n) && NtsUpTo(g, nts, n)
    {
      var rule := g.rules[n];
      var key := LhsKeyOf(g.rhs1Type, rule);
      var lhs' := if key.Some? then lhs[key.value := Get(lhs, key.value) + {n}] else lhs;
      LhsStep(g, lhs, n, lhs');
      var found := Enumerate(SideNonterminals(g.rhs1Type, rule.rhs1));
      var nts' := AddUnder(nts, found, n);
      NtsStep(g, nts, n, nts');
      lhs, nts := lhs', nts';
    }
    h := g.(lhsToRules := lhs, ntToRules := nts);
    forall k ensures Get(lhs, k) == (set i | i in g.rules && LhsKeyOf(g.rhs1Type, g.rules[i]) == Some(k)) {
      assert LhsUpTo(g, lhs, g.size + 1);
    }
    forall x ensures Get(nts, x) == (set i | i in g.rules && x in SideNonterminals(g.rhs1Type, g.rules[i].rhs1)) {
      assert NtsUpTo(g, nts, g.size + 1);
    }
  }

  /** The loop of `load_from_file` over the lines, stopping at the first error. */
  method ReadLines(cfg: Config, lines: seq<string>) returns (r: Result<LoaderState, LoadError>)
    ensures r == FeedAll(cfg, Initial(), lines)
  {
    var st := Initial();
    for i := 0 to |lines|
      invariant FeedAll(cfg, st, lines[i..]) == FeedAll(cfg, Initial(), lines)
    {
      FeedAllStep(cfg, st, lines, i);
      var next := Feed(cfg, st, lines[i]);
      if next.Err? {
        return Err(next.error);
      }
      st := next.value;
    }
    assert lines[|lines|..] == [];
    r := Ok(st);
  }

  /**
   * `load_from_file`: feeds the lines in order; the first failing line's
   * error is the result, and otherwise the finished grammar with its tables.
   */
  method LoadFromFile(cfg: Config, lines: seq<string>) returns (r: Result<Grammar, LoadError>)
    ensures FeedAll(cfg, Initial(), lines).Err? ==> r == Err(FeedAll(cfg, Initial(), lines).error)
    ensures FeedAll(cfg, Initial(), lines).Ok? ==> (r.Ok? &&
      r.value == Finish(cfg, FeedAll(cfg, Initial(), lines).value).(lhsToRules := r.value.lhsToRules, ntToRules := r.value.ntToRules))
    ensures r.Ok? ==> GrammarOk(r.value) && TablesOk(r.value)
  {
    var read := ReadLines(cfg, lines);
    if read.Err? {
      return Err(read.error);
    }
    var st := read.value;
    InitialOk(cfg);
    FeedAllOk(cfg, Initial(), lines);
    assert StateOk(cfg, st);
    FinishOk(cfg, st);
    var base := Finish(cfg, st);
    var g := ComputeTables(base);
    TablesAside(base, g);
    assert FeedAll(cfg, Initial(), lines) == Ok(st);
    r := Ok(g);
  }

  // ---------------------------------------------------------------------------
  // terminal_filter and reachable_rules

  /**
   * The terminal names of a side read in the given format; a graph read in
   * string format contributes its node keys.
   */
  function SideTerminals(fmt: Option<Format>, rhs: Rhs): set<string>
  {
    match (fmt, rhs)
    case (Some(GraphFormat), GraphRhs(gr)) => set t | t in gr.triples && t.rel.Terminal? :: t.rel.name
    case (Some(StringFormat), StringRhs(ls)) => TokenTerminals(ls)
    case (Some(StringFormat), GraphRhs(gr)) => Elems(gr.nodes)
    case _ => {}
  }

  /** Python truthiness of the second input: present and non-empty. */
  predicate Truthy(input: Option<Rhs>)
  {
    match input
    case None => false
    case Some(GraphRhs(gr)) => gr.nodes != []
    case Some(StringRhs(ls)) => ls != []
  }

  /** Inputs the grammar's formats can read: a graph where a side is a graph side. */
  predicate InputsFit(g: Grammar, input1: Rhs, input2: Option<Rhs>)
  {
    (g.rhs1Type == Some(GraphFormat) ==> input1.GraphRhs?) &&
    (Truthy(input2) && g.rhs2Type == Some(GraphFormat) ==> input2.value.GraphRhs?)
  }

  function Input2Terminals(g: Grammar, input2: Option<Rhs>): set<string>
  {
    if Truthy(input2) then SideTerminals(g.rhs2Type, input2.value) else {}
  }

  function Terminals1(g: Grammar, n: int): set<string>
    requires n in g.rules
  {
    SideTerminals(g.rhs1Type, g.rules[n].rhs1)
  }

  /** The second side's terminals count only when the second input is truthy. */
  function Terminals2(g: Grammar, n: int, input2: Option<Rhs>): set<string>
    requires n in g.rules
  {
    if Truthy(input2) && g.rules[n].rhs2.Some? then SideTerminals(g.rhs2Type, g.rules[n].rhs2.value) else {}
  }

  /** Every terminal of the rule occurs in the input (the second side only when a second input is given). */
  predicate Accepts(g: Grammar, n: int, input1: Rhs, input2: Option<Rhs>)
    requires n in g.rules
  {
    Terminals1(g, n) <= SideTerminals(g.rhs1Type, input1) &&
    (input2.None? || Terminals2(g, n, input2) <= Input2Terminals(g, input2))
  }

  predicate TerminalFree(g: Grammar, n: int, input2: Option<Rhs>)
    requires n in g.rules
  {
    Terminals1(g, n) == {} && Terminals2(g, n, input2) == {}
  }

  /** How often `terminal_filter` lists rule `n`: once if accepted, and once more if terminal-free. */
  function Picks(g: Grammar, n: int, input1: Rhs, input2: Option<Rhs>): nat
  {
    if n in g.rules then
      (if Accepts(g, n, input1, input2) then 1 else 0) + (if TerminalFree(g, n, input2) then 1 else 0)
    else 0
  }

  /** A terminal-free rule is always accepted, so it is listed exactly twice. */
  lemma TerminalFreeListedTwice(g: Grammar, n: int, input1: Rhs, input2: Option<Rhs>)
    requires n in g.rules && TerminalFree(g, n, input2)
    ensures Picks(g, n, input1, input2) == 2
  {
  }

  /** What one rule adds to the list: itself if accepted, and itself again if terminal-free. */
  function Listed(in1: set<string>, in2: set<string>, hasInput2: bool, t1: set<string>, t2: set<string>, n: int): (r: seq<int>)
    ensures forall x :: x in r ==> x == n
  {
    (if t1 <= in1 && (!hasInput2 || t2 <= in2) then [n] else []) + (if t1 == {} && t2 == {} then [n] else [])
  }

  ghost predicate ListedBelow(g: Grammar, input1: Rhs, input2: Option<Rhs>, accepted: seq<int>, n: int)
  {
    (forall m :: multiset(accepted)[m] == if m < n then Picks(g, m, input1, input2) else 0) &&
    (forall a, b :: 0 <= a < b < |accepted| ==> accepted[a] <= accepted[b]) &&
    (forall a :: 0 <= a < |accepted| ==> accepted[a] < n)
  }

  lemma ListedStep(g: Grammar, input1: Rhs, input2: Option<Rhs>, accepted: seq<int>, n: int, add: seq<int>)
    requires n in g.rules && ListedBelow(g, input1, input2, accepted, n)
    requires add == Listed(SideTerminals(g.rhs1Type, input1), Input2Terminals(g, input2), input2.Some?,
                           Terminals1(g, n), Terminals2(g, n, input2), n)
    ensures ListedBelow(g, input1, input2, accepted + add, n + 1)
  {
    assert multiset(add)[n] == Picks(g, n, input1, input2);
    forall m | m != n
      ensures multiset(add)[m] == 0
    {
      assert m !in add;
    }
    AscendingRun(accepted, add, n);
  }

  /** Appending copies of `n` to an ascending list of ids below `n`. */
  lemma AscendingRun(accepted: seq<int>, add: seq<int>, n: int)
    requires forall a, b :: 0 <= a < b < |accepted| ==> accepted[a] <= accepted[b]
    requires forall a :: 0 <= a < |accepted| ==> accepted[a] < n
    requires forall x :: x in add ==> x == n
    ensures forall a, b :: 0 <= a < b < |accepted + add| ==> (accepted + add)[a] <= (accepted + add)[b]
    ensures forall a :: 0 <= a < |accepted + add| ==> (accepted + add)[a] < n + 1
  {
    var c := accepted + add;
    forall a, b | 0 <= a < b < |c| ensures c[a] <= c[b] {
      if b >= |accepted| {
        assert c[b] == add[b - |accepted|] && add[b - |accepted|] in add;
        if a >= |accepted| {
          assert c[a] == add[a - |accepted|] && add[a - |accepted|] in add;
        }
      }
    }
    forall a | 0 <= a < |c| ensures c[a] < n + 1 {
      if a >= |accepted| {
        assert c[a] == add[a - |accepted|] && add[a - |accepted|] in add;
      }
    }
  }

  /** `terminal_filter`: the accepted rule ids in ascending order, terminal-free rules twice. */
  method TerminalFilter(g: Grammar, input1: Rhs, input2: Option<Rhs>) returns (accepted: seq<int>)
    requires GrammarOk(g) && InputsFit(g, input1, input2)
    ensures forall n :: multiset(accepted)[n] == Picks(g, n, input1, input2)
    ensures forall a, b :: 0 <= a < b < |accepted| ==> accepted[a] <= accepted[b]
  {
    var in1 := SideTerminals(g.rhs1Type, input1);
    var in2 := Input2Terminals(g, input2);
    accepted := [];
    for n := 1 to g.size + 1
      invariant ListedBelow(g, input1, input2, accepted, n)
    {
      var add := Listed(in1, in2, input2.Some?, Terminals1(g, n), Terminals2(g, n, input2), n);
      ListedStep(g, input1, input2, accepted, n, add);
      accepted := accepted + add;
    }
    assert ListedBelow(g, input1, input2, accepted, g.size + 1);
  }

  /** Every rule `terminal_filter` lists is an accepted one, and every accepted one is listed. */
  lemma ListedAreSeeds(g: Grammar, input1: Rhs, input2: Option<Rhs>, accepted: seq<int>)
    requires forall n :: multiset(accepted)[n] == Picks(g, n, input1, input2)
    ensures Elems(accepted) == Seeds(g, input1, input2)
  {
    forall n
      ensures n in accepted <==> n in Seeds(g, input1, input2)
    {
      assert n in accepted <==> multiset(accepted)[n] > 0;
    }
  }

  /** The rules whose left-hand side a rule's first side mentions: `nonterminal_to_rules[symbol]`. */
  function Callers(g: Grammar, n: int): set<int>
    requires n in g.rules
  {
    Get(g.ntToRules, g.rules[n].symbol)
  }

  /** The rules `terminal_filter` lists. */
  function Seeds(g: Grammar, input1: Rhs, input2: Option<Rhs>): set<int>
  {
    set n | n in g.rules && Accepts(g, n, input1, input2)
  }

  /** With each rule, the set holds every rule that mentions its left-hand side. */
  ghost predicate UpClosed(g: Grammar, s: set<int>)
  {
    forall n :: n in s && n in g.rules ==> Callers(g, n) <= s
  }

  /** The number of entries of `todo` that are already in `done`. */
  function CountIn(todo: seq<int>, done: set<int>): nat
  {
    if todo == [] then 0
    else CountIn(todo[..|todo| - 1], done) + (if todo[|todo| - 1] in done then 1 else 0)
  }

  lemma {:induction false} CountInNone(init: seq<int>, ext: seq<int>, done: set<int>)
    requires forall x :: x in ext ==> x !in done
    ensures CountIn(init + ext, done) == CountIn(init, done)
    decreases |ext|
  {
    if ext == [] {
      assert init + ext == init;
    } else {
      var e := ext[..|ext| - 1];
      assert (init + ext)[..|init + ext| - 1] == init + e;
      assert (init + ext)[|init + ext| - 1] == ext[|ext| - 1] && ext[|ext| - 1] in ext;
      CountInNone(init, e, done);
    }
  }

  ghost predicate ReachState(g: Grammar, seeds: set<int>, result: set<int>, todo: seq<int>)
  {
    result <= g.rules.Keys && Elems(todo) <= g.rules.Keys &&
    seeds <= result + Elems(todo) &&
    (forall n :: n in result ==> Callers(g, n) <= result + Elems(todo)) &&
    (forall s :: seeds <= s && UpClosed(g, s) ==> result <= s && Elems(todo) <= s)
  }

  lemma UpClosedCallers(g: Grammar, s: set<int>, n: int)
    requires UpClosed(g, s) && n in s && n in g.rules
    ensures Callers(g, n) <= s
  {
  }

  lemma ReachStep(g: Grammar, seeds: set<int>, result: set<int>, todo: seq<int>, ext: seq<int>)
    requires TablesOk(g) && todo != [] && ReachState(g, seeds, result, todo)
    requires var n := todo[|todo| - 1]; Elems(ext) == Callers(g, n) - (result + {n})
    ensures var n := todo[|todo| - 1]; ReachState(g, seeds, result + {n}, todo[..|todo| - 1] + ext)
  {
    var n := todo[|todo| - 1];
    var init := todo[..|todo| - 1];
    assert todo == init + [n];
    assert Elems(todo) == Elems(init) + {n};
    var result' := result + {n};
    var todo' := init + ext;
    assert Elems(todo') == Elems(init) + Elems(ext);
    forall m | m in Callers(g, n) ensures m in g.rules {
      assert Callers(g, n) == (set i | i in g.rules && g.rules[n].symbol in SideNonterminals(g.rhs1Type, g.rules[i].rhs1));
    }
    forall s | seeds <= s && UpClosed(g, s)
      ensures result' <= s && Elems(todo') <= s
    {
      assert n in s;
      UpClosedCallers(g, s, n);
    }
  }

  lemma ReachStart(g: Grammar, seeds: set<int>, todo: seq<int>)
    requires Elems(todo) == seeds && seeds <= g.rules.Keys
    ensures ReachState(g, seeds, {}, todo)
  {
  }

  lemma ReachDone(g: Grammar, seeds: set<int>, result: set<int>)
    requires ReachState(g, seeds, result, [])
    ensures seeds <= result && UpClosed(g, result)
  {
  }

  lemma ReachMeasure(g: Grammar, result: set<int>, todo: seq<int>, ext: seq<int>)
    requires todo != [] && Elems(todo) <= g.rules.Keys && result <= g.rules.Keys
    requires var n := todo[|todo| - 1]; forall x :: x in ext ==> x !in result + {n}
    ensures var n := todo[|todo| - 1]; var result' := result + {n};
      |g.rules.Keys - result'| < |g.rules.Keys - result| ||
      (|g.rules.Keys - result'| == |g.rules.Keys - result| && CountIn(todo[..|todo| - 1] + ext, result') < CountIn(todo, result))
  {
    var n := todo[|todo| - 1];
    var init := todo[..|todo| - 1];
    if n in result {
      assert result + {n} == result;
      CountInNone(init, ext, result);
    } else {
      assert n in g.rules.Keys - result;
      assert g.rules.Keys - (result + {n}) < g.rules.Keys - result;
    }
  }

  /** The worklist loop of `reachable_rules`. */
  method Close(g: Grammar, ghost seeds: set<int>, todo0: seq<int>) returns (result: set<int>)
    requires TablesOk(g) && ReachState(g, seeds, {}, todo0)
    ensures ReachState(g, seeds, result, [])
  {
    var todo := todo0;
    result := {};
    while todo != []
      invariant ReachState(g, seeds, result, todo)
      decreases |g.rules.Keys - result|, CountIn(todo, result)
    {
      var n := todo[|todo| - 1];
      var newRules := Enumerate(Callers(g, n) - (result + {n}));
      ReachStep(g, seeds, result, todo, newRules);
      ReachMeasure(g, result, todo, newRules);
      todo := todo[..|todo| - 1] + newRules;
      result := result + {n};
    }
  }

  /**
   * `reachable_rules`: starting from the filtered rules, repeatedly adds the
   * rules that mention the left-hand side of a reached rule.  The result is
   * the least set of rules that holds every filtered rule and is closed
   * under that step.
   */
  method ReachableRules(g: Grammar, input1: Rhs, input2: Option<Rhs>) returns (result: set<int>)
    requires GrammarOk(g) && TablesOk(g) && InputsFit(g, input1, input2)
    ensures result <= g.rules.Keys
    ensures Seeds(g, input1, input2) <= result && UpClosed(g, result)
    ensures forall s :: Seeds(g, input1, input2) <= s && UpClosed(g, s) ==> result <= s
  {
    var todo := TerminalFilter(g, input1, input2);
    ghost var seeds := Seeds(g, input1, input2);
    ListedAreSeeds(g, input1, input2, todo);
    ReachStart(g, seeds, todo);
    result := Close(g, seeds, todo);
    ReachDone(g, seeds, result);
  }

  // ---------------------------------------------------------------------------
  // Properties of the loader

  /**
   * Lines that do not end a rule are only buffered: their contents, comments
   * dropped, are concatenated and no rule is read.
   */
  lemma FeedQuiet(cfg: Config, st: LoaderState, line: string)
    requires !EndsRule(line)
    ensures Feed(cfg, st, line) == Ok(Buffer(st, line))
  {
  }

  /** A first line that does not end a rule is buffered and reading goes on with the rest. */
  lemma QuietHead(cfg: Config, st: LoaderState, lines: seq<string>)
    requires lines != [] && !EndsRule(lines[0])
    ensures FeedAll(cfg, st, lines) == FeedAll(cfg, Buffer(st, lines[0]), lines[1..])
  {
    FeedQuiet(cfg, st, lines[0]);
    FeedAllStep(cfg, st, lines, 0);
    assert lines[0..] == lines;
  }

  /** None of the lines ends a rule. */
  predicate Quiet(lines: seq<string>)
  {
    lines == [] || (!EndsRule(lines[0]) && Quiet(lines[1..]))
  }

  /** Buffers each of the lines in turn. */
  function BufferAll(st: LoaderState, lines: seq<string>): LoaderState
    decreases |lines|
  {
    if lines == [] then st else BufferAll(Buffer(st, lines[0]), lines[1..])
  }

  /**
   * A run of lines none of which ends a rule reads no rule: the state only
   * counts the lines and buffers their contents.
   */
  lemma {:induction false} LinesBuffered(cfg: Config, st: LoaderState, lines: seq<string>)
    requires Quiet(lines)
    ensures FeedAll(cfg, st, lines) == Ok(BufferAll(st, lines))
    decreases |lines|
  {
    if lines != [] {
      QuietHead(cfg, st, lines);
      LinesBuffered(cfg, Buffer(st, lines[0]), lines[1..]);
    }
  }

  lemma {:induction false} BufferAllContents(st: LoaderState, lines: seq<string>)
    ensures BufferAll(st, lines) == st.(lineCount := st.lineCount + |lines|, buf := st.buf + Contents(lines))
    decreases |lines|
  {
    if lines == [] {
      assert st.buf + Contents(lines) == st.buf;
    } else {
      BufferAllContents(Buffer(st, lines[0]), lines[1..]);
      BufferedTail(st, lines);
    }
  }

  lemma BufferedTail(st: LoaderState, lines: seq<string>)
    requires lines != []
    ensures var st' := Buffer(st, lines[0]);
      st'.(lineCount := st'.lineCount + |lines[1..]|, buf := st'.buf + Contents(lines[1..])) ==
      st.(lineCount := st.lineCount + |lines|, buf := st.buf + Contents(lines))
  {
    ContentsHead(st.buf, lines);
  }

  lemma ContentsHead(a: string, lines: seq<string>)
    requires lines != []
    ensures (a + LineContent(lines[0])) + Contents(lines[1..]) == a + Contents(lines)
  {
    ConcatAssoc(a, LineContent(lines[0]), Contents(lines[1..]));
  }

  /** A rule text with no `->` before its `;` fails with GrammarError. */
  lemma NoArrowFails(cfg: Config, st: LoaderState)
    requires ';' in st.buf && !Occurs(SplitOnce(st.buf, ';').0, "->")
    ensures RuleStep(cfg, st) == Err(LoadError(GrammarError, st.lineCount, st.ruleCount))
  {
    SplitAbsent(SplitOnce(st.buf, ';').0, "->");
  }

  /** In a synchronous rule, differing (symbol, index) sets on the two sides fail with GrammarError. */
  lemma NtMismatchFails(cfg: Config, st: LoaderState, weight: real, lhs: string, t1: string, t2: string)
    requires ReadRhs1(cfg, t1, st.rhs1Type).Ok? && ReadRhs2(cfg, t2, st.rhs2Type).Ok?
    requires NtSet(ReadRhs1(cfg, t1, st.rhs1Type).value.0) != NtSet(ReadRhs2(cfg, t2, st.rhs2Type).value.0)
    ensures SidesStep(cfg, st, weight, lhs, true, t1, t2) == Err(LoadError(GrammarError, st.lineCount, st.ruleCount))
  {
  }
}
