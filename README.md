# HRG chart parsing in tuw-nlp, modelled in Dafny

This project models the hyperedge-replacement-grammar (HRG) chart-parsing core of `tuw_nlp.sem.hrg` and proves properties of the model. The core has these parts:

- **Hypergraph store.** The multi-value `ListMap` and the `Hgraph` class:
  - the memoised breadth-first edge listing `triples()`;
  - `_add_triple`;
  - the structural queries: roots, ordered nodes, leaves, re-entrant nodes, nonterminal edges, and the terminal/nonterminal partition.
- **Nonterminal labels.** The `(symbol, index)` value with its `symbol$index` text form.
- **The grammar.** The line-buffered rule reader; the reachability tables; `terminal_filter`; and the `reachable_rules` fixpoint.
- **Rules and items.** `VoRule`, with default visit orders, identity by rule id, projections and `terminal_search`. The immutable chart item `HergItem`, with `can_shift`/`shift` and `can_complete`/`complete`.
- **The agenda parser.** A breadth-first search over items with `pending`/`visited`/`attempted` and two lookup tables. It has a step budget, and in the newer copy it can stop at the first full parse.
- **The CKY conversion.** A reachability walk over the raw chart, the recursive collapse of productions, and `filter_permutations`.
- **Derivation search.** The exhaustive search, the k-best search with a step budget, the greedy first derivation, and `items_length`.
- **Downstream helpers.** The derivation-tree walkers `get_labels`/`get_rules`; the unique-node-set k-best pruning; predicate resolution and argument numbering/permutation in post-processing; and the `Triplet` label map.

Code that changes state step by step is modelled as methods with loops and invariants. Each method is tied by its `ensures` to a specification function, and the properties are proved about that function. This covers `ListMap`, `Hgraph`, the loader loop, the table filling, `terminal_filter`, `reachable_rules`, `terminal_search`, the parser loop, the CKY walk, the derivation searches, `items_length`, `get_rules` with its counter, the k-best loop, post-processing and the `Triplet` constructor. Value code is modelled with datatypes and functions: labels, rules, items, `search_productions`, the first derivation and `get_labels`.

Where the behaviour described for the program and the code differ, the model follows the code:

- **`reachable_rules` closes upward.** `nonterminal_to_rules` is filled from the right-hand-side nonterminals of each rule. The closure therefore adds the rules that *mention* the left-hand side of a reached rule.
- **`can_complete` does not compare symbols.** It never compares the completing item's rule symbol with the outside symbol. Only the parser's lookup table (keyed by symbol) makes them agree.
- **`max_steps = 0` differs between parser and chart.** In the parser, 0 is falsy and means "no limit". In the chart search, `max_steps is None or all_steps < max_steps` means 0 explores no split at all.
- **Where `terminal_search` lives.** It exists only in `bolinas/parser_basic/vo_rule.py`.

Paths in the table are relative to the package root. All of them lie under `tuw_nlp/sem/hrg/`.

## Model

| member | source | states |
|---|---|---|
| ListMaps.SetItemRefusesPresentKey | tuw_nlp/sem/hrg/steps/bolinas/common/hgraph/hgraph.py:36-39 | `m[k] = v` fails with KeyError exactly when `k` is present; otherwise `k` then holds `v` |
| ListMaps.FirstIsHeadOfGetAll | tuw_nlp/sem/hrg/steps/bolinas/common/hgraph/hgraph.py:41-46 | `m[k]` is the head of `getall(k)` and fails exactly when that list is empty |
| ListMaps.AppendThenGetAll | tuw_nlp/sem/hrg/steps/bolinas/common/hgraph/hgraph.py:60-61 | `append(k, v)` puts `v` at the end of `k`'s list and leaves every other key's list alone |
| ListMaps.ReplaceThenGetAll | tuw_nlp/sem/hrg/steps/bolinas/common/hgraph/hgraph.py:57-58 | after `replace(k, v)` the key holds exactly `[v]`; other keys are unchanged |
| ListMaps.RemoveThenGetAll | tuw_nlp/sem/hrg/steps/bolinas/common/hgraph/hgraph.py:63-66 | `remove(k, v)` succeeds iff `v` is in the list; the key's list becomes `list.remove(v)` of the old one (one copy fewer), and the key is deleted when the list becomes empty; other keys are unchanged |
| ListMaps.AppendItems | tuw_nlp/sem/hrg/steps/bolinas/common/hgraph/hgraph.py:48-49 | `append` adds exactly one `(k, v)` pair to `items()` (as a multiset) |
| ListMaps.ItemsForIsItemsWithKey | tuw_nlp/sem/hrg/steps/bolinas/common/hgraph/hgraph.py:54-55 | `itemsfor(k)` is the sub-list of `items()` whose key is `k` |
| ListMaps.ValuesAreStored | tuw_nlp/sem/hrg/steps/bolinas/common/hgraph/hgraph.py:51-52 | a value comes out of `values()` iff some key's list holds it |
| ListMaps.Touch | tuw_nlp/sem/hrg/steps/bolinas/common/hgraph/hgraph.py:33-34 | the defaultdict insertion of a missing key changes no key's visible list |
| ListMaps.RemoveFirst | tuw_nlp/sem/hrg/steps/bolinas/common/hgraph/hgraph.py:64 | `list.remove(v)` takes exactly one copy of `v` out of the multiset |
| ListMaps.RemoveFirstCutsFirst | tuw_nlp/sem/hrg/steps/bolinas/common/hgraph/hgraph.py:64 | the copy removed is the first occurrence of `v`: the result is the list before it followed by the list after it |
| ListMapObjects.ListMap.SetItem | tuw_nlp/sem/hrg/steps/bolinas/common/hgraph/hgraph.py:36-39 | the in-place `__setitem__`: KeyError iff the key is present, state unchanged then; otherwise the new state is the functional `SetItem` |
| ListMapObjects.ListMap.Missing | tuw_nlp/sem/hrg/steps/bolinas/common/hgraph/hgraph.py:33-34 | the in-place defaultdict insertion, as `Touch` |
| ListMapObjects.ListMap.Get | tuw_nlp/sem/hrg/steps/bolinas/common/hgraph/hgraph.py:41-43 | the in-place `__getitem__`, as `First` |
| ListMapObjects.ListMap.GetAll | tuw_nlp/sem/hrg/steps/bolinas/common/hgraph/hgraph.py:45-46 | the in-place `getall`, as `GetAll` |
| ListMapObjects.ListMap.ItemsFor | tuw_nlp/sem/hrg/steps/bolinas/common/hgraph/hgraph.py:54-55 | the in-place `itemsfor`, as `ItemsFor` |
| ListMapObjects.ListMap.Replace | tuw_nlp/sem/hrg/steps/bolinas/common/hgraph/hgraph.py:57-58 | the in-place `replace`, as `Replace` |
| ListMapObjects.ListMap.Append | tuw_nlp/sem/hrg/steps/bolinas/common/hgraph/hgraph.py:60-61 | the in-place `append`, as `Append` |
| ListMapObjects.ListMap.Remove | tuw_nlp/sem/hrg/steps/bolinas/common/hgraph/hgraph.py:63-66 | the in-place `remove`, as `Remove` |
| Graphs.BfsOrderIsBfs | tuw_nlp/sem/hrg/steps/bolinas/common/hgraph/hgraph.py:421-449 | the listing expands every node at most once, in breadth-first order from the start nodes: each expanded node is a start node or a tail of an earlier-expanded node |
| Graphs.BfsCoversStarts | tuw_nlp/sem/hrg/steps/bolinas/common/hgraph/hgraph.py:425-428 | every start node (the roots, or `start_node`) is expanded |
| Graphs.BfsClosed | tuw_nlp/sem/hrg/steps/bolinas/common/hgraph/hgraph.py:441-449 | every tail of a listed edge is itself expanded |
| Graphs.BfsNodeEdges | tuw_nlp/sem/hrg/steps/bolinas/common/hgraph/hgraph.py:433 | a node's listed edges are exactly its out-edges, as a permutation, sorted by `str(label)`, with equal labels kept in stored order |
| Graphs.EdgeLeTotalPreorder | tuw_nlp/sem/hrg/steps/bolinas/common/hgraph/hgraph.py:433 | comparing edges by `str(label)` is a total preorder, so the sort is well defined |
| Hypergraphs.Hgraph.Triples | tuw_nlp/sem/hrg/steps/bolinas/common/hgraph/hgraph.py:413-456 | the cached listing is returned without `refresh`/`start_node`; otherwise the result is the BFS listing of the graph from `start_node` or the roots; only a call without `start_node` replaces the cache; the graph's edges are unchanged |
| Hypergraphs.Hgraph.Walk | tuw_nlp/sem/hrg/steps/bolinas/common/hgraph/hgraph.py:421-449 | the breadth-first loop returns exactly the specification listing `BfsTriples` |
| Hypergraphs.Hgraph.ExpandNode | tuw_nlp/sem/hrg/steps/bolinas/common/hgraph/hgraph.py:430-449 | one expansion lists the node's edges sorted by label and queues their tails that are not in `tabu` |
| Hypergraphs.ExpandEdges | tuw_nlp/sem/hrg/steps/bolinas/common/hgraph/hgraph.py:433-449 | the inner loop appends one triple per edge and queues the unvisited tails in order |
| Hypergraphs.PushTails | tuw_nlp/sem/hrg/steps/bolinas/common/hgraph/hgraph.py:443-449 | queues exactly the tails not in `tabu`, in order |
| Hypergraphs.Hgraph.Listing | tuw_nlp/sem/hrg/steps/bolinas/common/hgraph/hgraph.py:418-419 | `triples()` with no arguments: the cache when set; otherwise the BFS listing from the roots, which becomes the cache |
| Hypergraphs.Hgraph.ListingTwice | tuw_nlp/sem/hrg/steps/bolinas/common/hgraph/hgraph.py:451-454 | a second `triples()` call returns the same list as the first |
| Hypergraphs.Materialize | tuw_nlp/sem/hrg/steps/bolinas/common/hgraph/hgraph.py:524 | `self[n]` on the defaultdict adds `n` with an empty ListMap when missing, keeps every stored list, and changes no visible edge |
| Hypergraphs.AddTripleEffect | tuw_nlp/sem/hrg/steps/bolinas/common/hgraph/hgraph.py:515-529 | `_add_triple` appends the tail tuple at the end of the parent's list for the relation; it adds exactly that edge to the parent's out-edges and changes no other node's edges; parent and tails become nodes |
| Hypergraphs.Hgraph.AddTriple | tuw_nlp/sem/hrg/steps/bolinas/common/hgraph/hgraph.py:515-529 | the in-place insertion is `AddTripleTo`, whatever the self-edge and cycle warnings; roots, concepts and cache are untouched |
| Hypergraphs.Hgraph.Children | tuw_nlp/sem/hrg/steps/bolinas/common/hgraph/hgraph.py:270-276 | the children are exactly the nodes that occur in some tail tuple |
| Hypergraphs.Hgraph.DiscardReached | tuw_nlp/sem/hrg/steps/bolinas/common/hgraph/hgraph.py:279-290 | after the first loop, `not_found` has lost exactly the nodes mentioned by the listings from the roots |
| Hypergraphs.Discard | tuw_nlp/sem/hrg/steps/bolinas/common/hgraph/hgraph.py:282-290 | removes exactly the parents and tails of the listed triples |
| Hypergraphs.UnionValues | tuw_nlp/sem/hrg/steps/bolinas/common/hgraph/hgraph.py:272-276 | `children.update(v)` over one node's values adds exactly their nodes |
| Hypergraphs.Hgraph.Candidates | tuw_nlp/sem/hrg/steps/bolinas/common/hgraph/hgraph.py:293 | keeps exactly the nodes of `not_found` that have an out-edge |
| Hypergraphs.Hgraph.Lengths | tuw_nlp/sem/hrg/steps/bolinas/common/hgraph/hgraph.py:293 | each candidate's sort key is the length of its listing |
| Hypergraphs.Hgraph.PickRoot | tuw_nlp/sem/hrg/steps/bolinas/common/hgraph/hgraph.py:293-298 | the chosen root is a candidate with the longest listing |
| Hypergraphs.Hgraph.NextRoot | tuw_nlp/sem/hrg/steps/bolinas/common/hgraph/hgraph.py:292-298 | None exactly when no remaining node has an out-edge; otherwise a remaining node with out-edges whose listing is longest |
| Hypergraphs.Hgraph.AddRoot | tuw_nlp/sem/hrg/steps/bolinas/common/hgraph/hgraph.py:299-308 | the new root joins the roots; the nodes its listing mentions are found; `not_found` shrinks |
| Hypergraphs.Hgraph.NewRoot | tuw_nlp/sem/hrg/steps/bolinas/common/hgraph/hgraph.py:292-308 | one turn of the `while not_found` loop: it stops when no candidate is left, or adds a root and strictly shrinks `not_found`; the visible graph is unchanged |
| Hypergraphs.Hgraph.FirstRoots | tuw_nlp/sem/hrg/steps/bolinas/common/hgraph/hgraph.py:264-290 | the parent-minus-children roots, with `not_found` reduced by their listings |
| Hypergraphs.Hgraph.FindRoots | tuw_nlp/sem/hrg/steps/bolinas/common/hgraph/hgraph.py:259-309 | every node that is no tail is a root; every root is a node; every node is a root or is mentioned by a root's listing; the edges are unchanged |
| GraphQueries.OrderedNodes | tuw_nlp/sem/hrg/steps/bolinas/common/hgraph/hgraph.py:311-331 | the numbering is the positions of the nodes in first-appearance order over the listing |
| GraphQueries.NumberAll | tuw_nlp/sem/hrg/steps/bolinas/common/hgraph/hgraph.py:322-330 | numbers each unseen node with the next free number |
| GraphQueries.OrderedNodesBijective | tuw_nlp/sem/hrg/steps/bolinas/common/hgraph/hgraph.py:316-331 | the numbering covers exactly the nodes of the listing, is injective onto `0..n-1`, and orders nodes by first appearance |
| Hypergraphs.Hgraph.GetOrderedNodes | tuw_nlp/sem/hrg/steps/bolinas/common/hgraph/hgraph.py:311-331 | `get_ordered_nodes()` is that numbering over the cached listing |
| GraphQueries.OutCounts | tuw_nlp/sem/hrg/steps/bolinas/common/hgraph/hgraph.py:337-346 | every node met is counted, in order of first appearance, with its out-degree |
| GraphQueries.InCounts | tuw_nlp/sem/hrg/steps/bolinas/common/hgraph/hgraph.py:356-362 | every tail met is counted with its number of occurrences as a tail |
| GraphQueries.Select | tuw_nlp/sem/hrg/steps/bolinas/common/hgraph/hgraph.py:347 | keeps exactly the counted nodes whose count passes the test, without repeats |
| GraphQueries.FindLeaves | tuw_nlp/sem/hrg/steps/bolinas/common/hgraph/hgraph.py:333-350 | the leaves are exactly the listed nodes with no outgoing triple; no repeats; strictly sorted by the node numbering |
| Hypergraphs.Hgraph.FindLeaves | tuw_nlp/sem/hrg/steps/bolinas/common/hgraph/hgraph.py:333-350 | `find_leaves()` over the cached listing: exactly the nodes with no outgoing triple, without repeats, strictly sorted by the node numbering |
| GraphQueries.ReentrantNodes | tuw_nlp/sem/hrg/steps/bolinas/common/hgraph/hgraph.py:352-366 | exactly the nodes with in-degree above one; no repeats; strictly sorted by the node numbering |
| Hypergraphs.Hgraph.GetReentrantNodes | tuw_nlp/sem/hrg/steps/bolinas/common/hgraph/hgraph.py:352-366 | `get_reentrant_nodes()` over the cached listing: exactly the nodes with in-degree above one, without repeats, strictly sorted by the node numbering |
| GraphQueries.NonterminalEdges | tuw_nlp/sem/hrg/steps/bolinas/common/hgraph/hgraph.py:222-226 | exactly the listed triples with a nonterminal label, as a subsequence of the listing |
| Hypergraphs.Hgraph.GetNonterminalEdges | tuw_nlp/sem/hrg/steps/bolinas/common/hgraph/hgraph.py:222-226 | `nonterminal_edges()` over the cached listing |
| GraphQueries.TerminalsAndNonterminals | tuw_nlp/sem/hrg/steps/bolinas/common/hgraph/hgraph.py:228-244 | KeyError iff `nodelabels` and some terminal edge touches a node without a concept; otherwise the nonterminal set is exactly the nonterminal symbols, and the terminal set is exactly the terminal labels (or the labelled triples under `nodelabels`) |
| Hypergraphs.Hgraph.GetTerminalsAndNonterminals | tuw_nlp/sem/hrg/steps/bolinas/common/hgraph/hgraph.py:228-244 | over the cached listing: KeyError iff `nodelabels` and a terminal edge has an endpoint without a concept; otherwise the terminal keys of exactly the terminal edges and the symbols of exactly the nonterminal edges |
| Labels.NtToString | tuw_nlp/sem/hrg/steps/bolinas/common/nonterminal.py:22-26 | the text is the symbol, a `$`, then the index (nothing after `$` when there is no index) |
| Labels.NtFromString | tuw_nlp/sem/hrg/steps/bolinas/common/nonterminal.py:31-34 | succeeds exactly for text with one `$`; the symbol has no `$` and an empty index becomes None |
| Labels.NtRoundTrip | tuw_nlp/sem/hrg/steps/bolinas/common/nonterminal.py:13-34 | `from_string(str(nt)) == nt` for labels whose parts hold no `$` and whose index is not empty |
| Labels.NtFromStringToString | tuw_nlp/sem/hrg/bolinas/common/cfg.py:26-38 | every label `from_string` produces prints back as the text it came from, and is well formed |
| Labels.NtToStringInjective | tuw_nlp/sem/hrg/steps/bolinas/common/cfg.py:30-42 | two well-formed labels print alike only when they are equal |
| Labels.LabelEqIsEquality | tuw_nlp/sem/hrg/steps/bolinas/common/nonterminal.py:13-17 | `__eq__` holds iff symbol and index agree; a nonterminal never equals a terminal |
| Labels.EqualLabelsHashAlike | tuw_nlp/sem/hrg/steps/bolinas/common/nonterminal.py:28-29 | labels that compare equal have equal hashes, whatever the hash of the parts |
| Grammars.ParseTokensFails | tuw_nlp/sem/hrg/steps/bolinas/common/grammar.py:22-27 | reading a right-hand side fails, with ValueError, exactly when some `$` token lacks exactly one `$` |
| Grammars.ParseTokensLabels | tuw_nlp/sem/hrg/steps/bolinas/common/grammar.py:15-31 | token `i` becomes its terminal or nonterminal, an unindexed nonterminal getting `_k`, where `k` counts the unindexed nonterminals before it |
| Grammars.FreshIndicesDistinct | tuw_nlp/sem/hrg/steps/bolinas/common/grammar.py:25-27 | two unindexed nonterminals of one right-hand side never share an index |
| Grammars.FreshCountGrows | tuw_nlp/sem/hrg/steps/bolinas/common/grammar.py:25-27 | the fresh-index counter strictly grows past each unindexed nonterminal |
| Grammars.ParseString | tuw_nlp/sem/hrg/steps/bolinas/common/grammar.py:15-31 | `parse_string(s)` reads the whitespace-separated tokens of the stripped string in order |
| Grammars.TerminalsAndNtsFromString | tuw_nlp/sem/hrg/steps/bolinas/common/grammar.py:34-42 | every token's name goes to exactly one of the two sets, by its kind |
| Grammars.LinesBuffered | tuw_nlp/sem/hrg/steps/bolinas/common/grammar.py:85-95 | lines that do not end a rule are only counted and buffered: their stripped content before `#` is appended |
| Grammars.FeedQuiet | tuw_nlp/sem/hrg/steps/bolinas/common/grammar.py:85-94 | a single line without `;` in its content is only buffered |
| Grammars.QuietHead | tuw_nlp/sem/hrg/steps/bolinas/common/grammar.py:85-95 | a first line that does not end a rule is buffered, and reading goes on with the rest |
| Grammars.Uncommented | tuw_nlp/sem/hrg/steps/bolinas/common/grammar.py:89-92 | the content is the part of the line before its first `#` |
| Grammars.Buffer | tuw_nlp/sem/hrg/steps/bolinas/common/grammar.py:86-93 | counts the line and appends its content; a `;` in the content reaches the buffer |
| Grammars.SemicolonBuffered | tuw_nlp/sem/hrg/steps/bolinas/common/grammar.py:93-94 | a `;` in a line's content is still in the buffer after stripping |
| Grammars.ParseWeight | tuw_nlp/sem/hrg/steps/bolinas/common/grammar.py:97-98 | an empty weight field gives 0.0; under `logprob` the number is taken as written |
| Grammars.ReadHeader | tuw_nlp/sem/hrg/steps/bolinas/common/grammar.py:95-124 | once synchronous, always synchronous; after the first rule the kind never changes; an error carries the current line and rule numbers |
| Grammars.NoArrowFails | tuw_nlp/sem/hrg/steps/bolinas/common/grammar.py:102-105 | a rule text without `->` fails with GrammarError at the current line and rule |
| Grammars.NtMismatchFails | tuw_nlp/sem/hrg/steps/bolinas/common/grammar.py:158-160 | in a synchronous rule, differing (symbol, index) sets on the two sides fail with GrammarError |
| Grammars.ReadRhs1 | tuw_nlp/sem/hrg/steps/bolinas/common/grammar.py:126-139 | once the first side's format is fixed it is kept; in graph format an unreadable graph is an error; otherwise an unreadable graph is read as a string |
| Grammars.ReadRhs2 | tuw_nlp/sem/hrg/steps/bolinas/common/grammar.py:141-157 | the same for the second side, with ParserError in graph format |
| Grammars.AsString | tuw_nlp/sem/hrg/steps/bolinas/common/grammar.py:136-139 | a side read as a string gives a string right-hand side in string format; its failure is the ValueError of `parse_string` |
| Grammars.FeedAllOk | tuw_nlp/sem/hrg/steps/bolinas/common/grammar.py:85-175 | after every line the rule ids are `1..n` in file order, the first rule's left-hand side is the start symbol, the sync kind is consistent, and the stored rules agree with their sides |
| Grammars.AddRuleOk | tuw_nlp/sem/hrg/steps/bolinas/common/grammar.py:163-174 | storing a rule under the next id keeps that invariant |
| Grammars.ReadLines | tuw_nlp/sem/hrg/steps/bolinas/common/grammar.py:85-175 | the line loop stops at the first error and otherwise ends in the specification state `FeedAll` |
| Grammars.LoadFromFile | tuw_nlp/sem/hrg/steps/bolinas/common/grammar.py:64-183 | fails exactly when the line loop fails, carrying its error; otherwise the grammar satisfies GrammarOk and its tables are filled |
| Grammars.FinishOk | tuw_nlp/sem/hrg/steps/bolinas/common/grammar.py:176-180 | the grammar left by the line loop satisfies GrammarOk |
| Grammars.ComputeTables | tuw_nlp/sem/hrg/steps/bolinas/common/grammar.py:185-200 | fills `lhs_to_rules` and `nonterminal_to_rules` with exactly the rules each key selects, and changes nothing else |
| Grammars.AddUnder | tuw_nlp/sem/hrg/steps/bolinas/common/grammar.py:194-200 | adds the rule under exactly the listed symbols |
| Grammars.TerminalFilter | tuw_nlp/sem/hrg/steps/bolinas/common/grammar.py:202-237 | each rule id is listed as often as `Picks` says (once if its terminals occur in the input, once more if it has none), in ascending order |
| Grammars.TerminalFreeListedTwice | tuw_nlp/sem/hrg/steps/bolinas/common/grammar.py:234-235 | a terminal-free rule is always listed exactly twice |
| Grammars.ListedAreSeeds | tuw_nlp/sem/hrg/steps/bolinas/common/grammar.py:231-235 | the ids listed are exactly the accepted rules |
| Grammars.ReachableRules | tuw_nlp/sem/hrg/steps/bolinas/common/grammar.py:239-246 | the result is the least set of rules that holds the filtered rules and is closed upward (with each rule, every rule mentioning its left-hand side) |
| Grammars.Close | tuw_nlp/sem/hrg/steps/bolinas/common/grammar.py:242-245 | the worklist loop terminates with the closure invariant and no work left |
| Rules.VisitOrder | tuw_nlp/sem/hrg/steps/bolinas/parser_basic/vo_rule.py:40-51 | a given visit order is kept; a missing one is `0..n-1` over the side's triples or tokens |
| Rules.Range | tuw_nlp/sem/hrg/steps/bolinas/parser_basic/vo_rule.py:40-45 | `range(n)` as a list: length `n`, holding `i` at position `i` |
| Rules.MakeRule | tuw_nlp/sem/hrg/steps/bolinas/parser_basic/vo_rule.py:11-56 | fails exactly when a graph first side has other than one root; a built rule keeps its arguments, is terminal iff its first side is all terminal (the intended `is_terminal`, see Findings), and has the default visit orders (the second only when there is a second side) |
| Rules.TerminalIffNoNonterminal | tuw_nlp/sem/hrg/steps/bolinas/parser_basic/vo_rule.py:39-43 | a side has no nonterminal edge or token iff it is all terminal |
| Rules.IsTerminalAsWritten | tuw_nlp/sem/hrg/steps/bolinas/parser_basic/vo_rule.py:37-44 | `is_terminal` as the constructor computes it: a graph side is terminal iff it is all terminal, and every string side the grammar reader builds counts as terminal |
| Rules.StringSideAlwaysTerminal | tuw_nlp/sem/hrg/steps/bolinas/parser_basic/vo_rule.py:43 | the string side `a B$` holds a nonterminal, yet the test as written calls it terminal |
| Rules.RuleStringFields | tuw_nlp/sem/hrg/bolinas/common/rule.py:8-21 | the printed rule `<symbol> -> <rhs1>[ | <rhs2>] ; <weight>` splits at `;` into the rule text and the printed weight (`exp` of it unless `logprob`), the two fields oie.py reads back |
| Rules.SameRuleHash | tuw_nlp/sem/hrg/steps/bolinas/parser_basic/vo_rule.py:61-65 | two rules are equal iff their hashes (the rule ids) agree; contents are ignored, so different rules can be equal |
| Rules.ProjectLeft | tuw_nlp/sem/hrg/bolinas/parser_basic/vo_rule.py:64-67 | keeps id, symbol, weight, first side and its visit order; drops the second side; does not pass `logprob` on |
| Rules.ProjectRight | tuw_nlp/sem/hrg/bolinas/parser_basic/vo_rule.py:59-62 | AttributeError without a second side; otherwise the second side and its visit order become the first, failing when it is a graph with other than one root |
| Rules.ProjectionsSettle | tuw_nlp/sem/hrg/bolinas/parser_basic/vo_rule.py:59-67 | projecting a projection changes nothing, and a projection has no right side left |
| Rules.AddChildren | tuw_nlp/sem/hrg/bolinas/parser_basic/vo_rule.py:161-168 | records exactly the new children and pushes their tails |
| Rules.TerminalSearch | tuw_nlp/sem/hrg/bolinas/parser_basic/vo_rule.py:152-169 | returns only terminal triples of the list; the result is closed (every terminal triple leaving a frontier node is in it) and is the least such set |
| Items.Axiom | tuw_nlp/sem/hrg/bolinas/parser_basic/vo_item.py:26-48 | an axiom has consumed nothing, maps nothing, and its nodeset is empty |
| Items.DefaultRuleFits | tuw_nlp/sem/hrg/bolinas/parser_basic/vo_item.py:26-48 | a rule built over a one-root graph with the default visit order can carry items |
| Items.SameItemHash | tuw_nlp/sem/hrg/bolinas/parser_basic/vo_item.py:69-81 | equal items hash alike; for items of one rule with a consistent nodeset, `__eq__` is equality |
| Items.ShiftEffect | tuw_nlp/sem/hrg/bolinas/parser_basic/vo_item.py:155-176 | a shift keeps the rule, adds one to size, adds the edge to `shifted`, maps the outside edge's nodes to the edge's nodes, and adds the edge's endpoints to the nodeset |
| Items.ShiftExtends | tuw_nlp/sem/hrg/bolinas/parser_basic/vo_item.py:93-176 | a shift `can_shift` allows has matching arity, keeps every existing mapping, and consumes one new edge |
| Items.ShiftNodeset | tuw_nlp/sem/hrg/bolinas/parser_basic/vo_item.py:170-176 | shifting keeps the nodeset equal to the endpoints of the consumed edges |
| Items.AssignKeys | tuw_nlp/sem/hrg/bolinas/parser_basic/vo_item.py:164-170 | the mapping loop adds exactly the written keys and keeps every other key's value |
| Items.AssignAgrees | tuw_nlp/sem/hrg/bolinas/parser_basic/vo_item.py:164-170 | a key whose every write repeats its value keeps that value |
| Items.AssignLast | tuw_nlp/sem/hrg/bolinas/parser_basic/vo_item.py:164-170 | the last write to a key decides its value |
| Items.CanCompleteMeans | tuw_nlp/sem/hrg/bolinas/parser_basic/vo_item.py:178-236 | an allowed completion has an open item with a nonterminal outside edge, a closed partner, disjoint consumed edges, matching arity, consistent images of the outside source and tails, and no foreign reuse of mapped nodes |
| Items.TailsAgree | tuw_nlp/sem/hrg/bolinas/parser_basic/vo_item.py:221-228 | a tail check that passes means every mapped tail agrees with the partner's external node |
| Items.Images | tuw_nlp/sem/hrg/bolinas/parser_basic/vo_item.py:244-249 | the images exist iff every node is mapped, and are the mapped nodes in order; otherwise KeyError |
| Items.CompleteEffect | tuw_nlp/sem/hrg/bolinas/parser_basic/vo_item.py:238-257 | a completion keeps the rule, adds one to size, unites the consumed edges (sizes adding up), keeps the existing mapping, and maps the source to the partner's root and tail `i` to its external node `i` |
| Items.CompleteNodeset | tuw_nlp/sem/hrg/bolinas/parser_basic/vo_item.py:238-257 | completing keeps the nodeset equal to the endpoints of the consumed edges |
| Parsing.Axioms | tuw_nlp/sem/hrg/steps/bolinas/parser_basic/parser.py:74-79 | the queue starts with one axiom per rule, in order, with `pending` agreeing with it; axioms expecting a nonterminal are indexed in `reverse_lookup` |
| Parsing.AddAxiom | tuw_nlp/sem/hrg/steps/bolinas/parser_basic/parser.py:75-79 | one axiom is queued, marked pending and indexed |
| Parsing.PushOk | tuw_nlp/sem/hrg/steps/bolinas/parser_basic/parser.py:143-145 | a derived item is queued only when neither pending nor visited, keeping `pending` equal to the queue |
| Parsing.AddProd | tuw_nlp/sem/hrg/steps/bolinas/parser_basic/parser.py:142 | `chart[k].add(p)` adds the production under `k` once and changes no other key |
| Parsing.Enlist | tuw_nlp/sem/hrg/steps/bolinas/parser_basic/parser.py:111 | `table[s].add(x)` on an ordered set: `s` becomes a key, other keys are unchanged, and `s` lists exactly its old items plus `x` |
| Parsing.Pop | tuw_nlp/sem/hrg/steps/bolinas/parser_basic/parser.py:97-99 | the head is popped, leaves `pending`, joins `visited`, and the step count grows by one |
| Parsing.RecordStartOk | tuw_nlp/sem/hrg/steps/bolinas/parser_basic/parser.py:101-108 | a closed item enters `START` as a successful parse, or in partial mode by its start symbol alone; nothing else is recorded |
| Parsing.VisitClosed | tuw_nlp/sem/hrg/steps/bolinas/parser_basic/parser.py:101-126 | stops exactly at a successful parse under `stop_at_first`; otherwise indexes the item and wakes exactly the items waiting for its symbol |
| Parsing.WakeUp | tuw_nlp/sem/hrg/steps/bolinas/parser_basic/parser.py:119-123 | re-queues the waiting items not pending, keeping the queue's prefix and `pending` agreement |
| Parsing.TryComplete | tuw_nlp/sem/hrg/steps/bolinas/parser_basic/parser.py:134-145 | each `(item, other)` pair is attempted once, recorded in `attempted`, and a completion is recorded as a two-item production |
| Parsing.Completions | tuw_nlp/sem/hrg/steps/bolinas/parser_basic/parser.py:129-148 | the item is indexed in `reverse_lookup`, and every closed item listed under its outside symbol is attempted |
| Parsing.EdgesLabelled | tuw_nlp/sem/hrg/steps/bolinas/parser_basic/parser.py:70-72 | `edge_terminal_lookup[rel]` holds exactly the graph edges with that label |
| Parsing.Shifts | tuw_nlp/sem/hrg/steps/bolinas/parser_basic/parser.py:150-165 | fails exactly when the graph is empty (`assert graph`); otherwise every allowed shift over a graph edge is recorded as a one-item production |
| Parsing.ShiftOne | tuw_nlp/sem/hrg/steps/bolinas/parser_basic/parser.py:153-162 | one shift is recorded; earlier productions are kept and `START` is untouched |
| Parsing.SameStartSuccess | tuw_nlp/sem/hrg/steps/bolinas/parser_basic/parser.py:178-185 | whether the chart holds a successful parse depends only on its `START` entries |
| Parsing.ParseStep | tuw_nlp/sem/hrg/steps/bolinas/parser_basic/parser.py:92-165 | one loop turn keeps the agenda invariant and counts one step; under `stop_at_first` it stops exactly when a success appears, and there is at most one |
| Parsing.VisitStep | tuw_nlp/sem/hrg/steps/bolinas/parser_basic/parser.py:101-126 | the closed-item turn, with the same invariant |
| Parsing.AdvanceStep | tuw_nlp/sem/hrg/steps/bolinas/parser_basic/parser.py:128-165 | the open-item turn, with the same invariant; it never adds a success |
| Parsing.Parse | tuw_nlp/sem/hrg/steps/bolinas/parser_basic/parser.py:39-176 | the loop keeps the agenda invariant (queue and `pending` agree, lookups index correctly, every production is sound); at most `max_steps` items are popped; it ends with an empty queue, at the budget, or at the first success under `stop_at_first`, which then holds exactly one |
| Parsing.ParseAll | tuw_nlp/sem/hrg/bolinas/parser_basic/parser.py:29-162 | the older loop without early stop: same invariant, ending with an empty queue or at the budget |
| Cky.Put | tuw_nlp/sem/hrg/steps/bolinas/parser_basic/parser.py:216-217 | `d[symbol] = child` sets that slot and leaves the others |
| Cky.Extend | tuw_nlp/sem/hrg/steps/bolinas/parser_basic/parser.py:212-220 | one option per earlier-step option, each with the slot set to the child, or `{slot: child}` alone when there are none |
| Cky.CombineMeans | tuw_nlp/sem/hrg/steps/bolinas/parser_basic/parser.py:208-221 | the options of a completion are exactly those obtained by extending the earlier step's options with the completed child |
| Cky.Search | tuw_nlp/sem/hrg/steps/bolinas/parser_basic/parser.py:195-223 | no productions give no options; `START` gets one option per production, mapping its slot to the production's item |
| Cky.StepKind | tuw_nlp/sem/hrg/steps/bolinas/parser_basic/parser.py:142-159 | a recorded production derives its item from an item of the same rule one step smaller: a shift exactly when that item expects a terminal, a completion exactly when it expects a nonterminal |
| Cky.SearchCoherent | tuw_nlp/sem/hrg/steps/bolinas/parser_basic/parser.py:195-223 | on a coherent chart no assertion of `search_productions` fails |
| Cky.ChartCoherent | tuw_nlp/sem/hrg/steps/bolinas/parser_basic/parser.py:203-209 | every chart the parser builds is coherent: productions of one key have one arity, and a completion's first item expects a nonterminal |
| Cky.CoherentConverts | tuw_nlp/sem/hrg/steps/bolinas/parser_basic/parser.py:195-223 | on any chart the parser builds, `search_productions` succeeds for every key |
| Cky.Walk | tuw_nlp/sem/hrg/steps/bolinas/parser_basic/parser.py:225-234 | the stack walk visits exactly the keys reachable from `START` |
| Cky.SortedSet | tuw_nlp/sem/hrg/steps/bolinas/parser_basic/parser.py:258-262 | `sorted(set)`: exactly the set's strings, once each, in ascending order |
| Cky.FilterPermutations | tuw_nlp/sem/hrg/steps/bolinas/parser_basic/parser.py:254-267 | keeps the first production of each (rule names, node set) signature: an order-preserving sublist with one entry per signature; every dropped entry has an earlier kept twin; idempotent |
| Cky.GetCkyChart | tuw_nlp/sem/hrg/steps/bolinas/parser_basic/parser.py:188-251 | the keys are exactly the reachable `START`/closed keys with a non-empty production list; each holds its options, filtered unless permutations are kept; an error only when some such key's search fails, and none if all succeed |
| Cky.GetCkyChartAll | tuw_nlp/sem/hrg/bolinas/parser_basic/parser.py:176-233 | the older conversion: the same keys, with every option kept |
| Derivations.AllDerivations | tuw_nlp/sem/hrg/bolinas/common/cfg.py:46-86 | a leaf yields its weight (START yields nothing); every entry is a derivation of the key scored by the sum of its rule weights; the list is sorted best first and holds every derivation within the depth bound |
| Derivations.SplitAll | tuw_nlp/sem/hrg/bolinas/common/cfg.py:65-84 | one split yields valid derivations, including every derivation through that split |
| Derivations.ChildrenAll | tuw_nlp/sem/hrg/bolinas/common/cfg.py:68-70 | the children's lists are valid and complete |
| Derivations.PoolAll | tuw_nlp/sem/hrg/bolinas/common/cfg.py:71-84 | one valid entry per combination of the child lists, every combination present |
| Derivations.PoolComplete | tuw_nlp/sem/hrg/bolinas/common/cfg.py:65-86 | pools complete for every split make a complete result |
| Derivations.CombosComplete | tuw_nlp/sem/hrg/bolinas/common/cfg.py:71-84 | every derivation through a split is the node of some combination of the children's derivations |
| Derivations.Product | tuw_nlp/sem/hrg/bolinas/common/cfg.py:71 | `itertools.product(*ls)` holds exactly the choices of one element from each list, in order |
| Derivations.JoinedValid | tuw_nlp/sem/hrg/steps/bolinas/common/chart.py:55-62 | a combination of valid children makes a valid derivation scored by children plus rule weight |
| Derivations.JoinedOf | tuw_nlp/sem/hrg/steps/bolinas/common/chart.py:55-62 | every derivation through a split is the node built from its kids' scored derivations |
| Derivations.SortDesc | tuw_nlp/sem/hrg/steps/bolinas/common/chart.py:68 | the stable sort puts better scores first and is a permutation |
| Derivations.AtLeastTotal | tuw_nlp/sem/hrg/steps/bolinas/common/chart.py:68 | comparing by score is a total preorder, so the best-first sort is well defined |
| Derivations.Take | tuw_nlp/sem/hrg/steps/bolinas/common/chart.py:68 | `s[:k]` is a prefix of the right length (None keeps all; negative `k` drops from the end) |
| Derivations.TakeSorted | tuw_nlp/sem/hrg/steps/bolinas/common/chart.py:68 | a truncated sorted list stays sorted and keeps only entries of the list |
| Derivations.PushBest | tuw_nlp/sem/hrg/steps/bolinas/common/chart.py:61-66 | pushing the top `k_best` of valid combinations keeps the pool valid, and adds all of them without a bound |
| Derivations.KBest | tuw_nlp/sem/hrg/steps/bolinas/common/chart.py:23-68 | a leaf yields its weight (START yields nothing); at the budget nothing is explored; every entry is a valid derivation, sorted best first, at most `k_best` of them; with no bound and no budget the result is complete |
| Derivations.SplitKBest | tuw_nlp/sem/hrg/steps/bolinas/common/chart.py:44-66 | one split adds valid entries; without bounds, every derivation through the split |
| Derivations.ChildrenKBest | tuw_nlp/sem/hrg/steps/bolinas/common/chart.py:46-49 | the children's searches are valid, and complete without bounds |
| Derivations.PoolKBest | tuw_nlp/sem/hrg/steps/bolinas/common/chart.py:51-66 | the pushed entries are valid; without a bound every combination is present |
| Derivations.FirstDerivationSound | tuw_nlp/sem/hrg/steps/bolinas/common/chart.py:70-94 | the first derivation follows the first split of every key it passes, is scored by its rule weights, and is no deeper than the bound |
| Derivations.FirstKidsSound | tuw_nlp/sem/hrg/steps/bolinas/common/chart.py:86-94 | the first derivations of a split's children are sound, one per child |
| Derivations.FirstKids | tuw_nlp/sem/hrg/steps/bolinas/common/chart.py:87-89 | the first derivations of a split's children, one per child |
| Derivations.Derivations | tuw_nlp/sem/hrg/steps/bolinas/common/chart.py:11-21 | with `only_first`, a one-element list following first splits, and an error when START has no entry; otherwise sorted, at most `k_best`; always valid derivations |
| Derivations.SizeOverOrder | tuw_nlp/sem/hrg/steps/bolinas/common/chart.py:96-102 | the slot total does not depend on the order the keys are visited in |
| Derivations.ItemsLength | tuw_nlp/sem/hrg/steps/bolinas/common/chart.py:96-102 | `items_length()` is the number of child entries over all productions, for any order of the keys |
| Oie.GatherMeaning | tuw_nlp/sem/hrg/steps/bolinas/common/oie.py:12-18 | the merge loop succeeds iff every part succeeds and every two parts pass the assertion; the result is then the union, of total size when keys must be disjoint |
| Oie.WalkFlat | tuw_nlp/sem/hrg/steps/bolinas/common/oie.py:11-18 | the nested merge over a tree equals the flat merge over its keys in visiting order |
| Oie.LabelsMeaning | tuw_nlp/sem/hrg/steps/bolinas/common/oie.py:6-18 | `get_labels` succeeds iff the keys' labels are pairwise disjoint, and then holds exactly their union |
| Oie.RulesPairwise | tuw_nlp/sem/hrg/steps/bolinas/common/oie.py:33 | the repeated-id assertion holds iff items of the same rule id have the same printed rule (`Rule.__str__`) |
| Oie.RuleStringsMeaning | tuw_nlp/sem/hrg/steps/bolinas/common/oie.py:21-35 | `get_rules` succeeds iff no rule id is shared by two rules that print differently, and then maps exactly the used rule ids to their printed rules (`Rule.__str__`) |
| Oie.RuleCounter.Bump | tuw_nlp/sem/hrg/steps/bolinas/common/oie.py:26 | `cnt[id] += 1` raises that count by one and no other |
| Oie.KeyRules | tuw_nlp/sem/hrg/steps/bolinas/common/oie.py:22-27 | one key yields the entry from its rule id to its printed rule and counts its rule once |
| Oie.GetRules | tuw_nlp/sem/hrg/steps/bolinas/common/oie.py:21-35 | the result is the specification dictionary; on success every rule id is counted once per item of that rule in the tree |
| Oie.KidsRules | tuw_nlp/sem/hrg/steps/bolinas/common/oie.py:29-35 | the subtree loop merges the subtrees' dictionaries and counts their items |
| KBest.SortedNodesMeaning | tuw_nlp/sem/hrg/bolinas/kbest/kbest.py:26-27 | sorting succeeds iff every node id has a number after its first character, and gives the set's ids once each in ascending number order |
| KBest.NodesKeyInjective | tuw_nlp/sem/hrg/bolinas/kbest/kbest.py:26-28 | two node sets give the same joined string iff they are equal |
| KBest.FinalItem | tuw_nlp/sem/hrg/bolinas/kbest/kbest.py:25 | the final item is the head of the `START` child; it fails when there is none |
| KBest.UniqueFails | tuw_nlp/sem/hrg/steps/bolinas/kbest/kbest.py:20-23 | the loop fails exactly when a derivation it reaches has no signature |
| KBest.UniqueKept | tuw_nlp/sem/hrg/steps/bolinas/kbest/kbest.py:21-26 | the kept derivations are the first of each signature among those examined: an order-preserving sublist with distinct signatures, and every dropped one has an earlier kept twin |
| KBest.UniqueValue | tuw_nlp/sem/hrg/steps/bolinas/kbest/kbest.py:24-26 | the kept list is the first-of-each-signature sublist of the derivations the loop examined |
| KBest.UniqueStops | tuw_nlp/sem/hrg/steps/bolinas/kbest/kbest.py:27-28 | the loop stops at the first point where `k` are kept, or at the end |
| KBest.ExaminedStops | tuw_nlp/sem/hrg/steps/bolinas/kbest/kbest.py:27-28 | the scan stops at the first point where `k` are kept, and only there or at the end |
| KBest.UniqueBound | tuw_nlp/sem/hrg/steps/bolinas/kbest/kbest.py:20-28 | at most `k` are kept (at most one for `k <= 0`); an empty chart gives nothing |
| KBest.UniqueSorted | tuw_nlp/sem/hrg/bolinas/kbest/kbest.py:24-30 | the best-first order of the input survives |
| KBest.SeenCount | tuw_nlp/sem/hrg/steps/bolinas/kbest/kbest.py:29 | the assertion after the loop holds: as many signatures seen as derivations kept |
| KBest.KeepUnique | tuw_nlp/sem/hrg/steps/bolinas/kbest/kbest.py:20-28 | the loop computes the specification `Unique` |
| KBest.GetKBestUnique | tuw_nlp/sem/hrg/steps/bolinas/kbest/kbest.py:17-32 | `get_k_best_unique_derivation` is `Unique` with the final-item signature |
| KBest.NonPositiveKeepsOne | tuw_nlp/sem/hrg/steps/bolinas/kbest/kbest.py:26-28 | as written, `k <= 0` still keeps the first derivation |
| KBest.UniqueBoundedMeaning | tuw_nlp/sem/hrg/steps/bolinas/kbest/kbest.py:20-28 | the bound checked first keeps at most `max(k, 0)`, and agrees with the loop for `k > 0` |
| KBest.KeepUniqueBounded | tuw_nlp/sem/hrg/steps/bolinas/kbest/kbest.py:20-28 | the corrected loop computes `UniqueBounded` |
| KBest.GetKBestUniqueBounded | tuw_nlp/sem/hrg/steps/bolinas/kbest/kbest.py:17-32 | the corrected function with the final-item signature |
| PostProc.Verbs | tuw_nlp/sem/hrg/postproc/postproc.py:10 | exactly the ids tagged VERB |
| PostProc.FindIndex | tuw_nlp/sem/hrg/postproc/postproc.py:20 | `list.index` gives the first position holding the value, or nothing iff it is absent |
| PostProc.MinOfMeaning | tuw_nlp/sem/hrg/postproc/postproc.py:18-22 | the minimum loop succeeds iff every verb has a position, and returns the least; otherwise the first error |
| PostProc.FirstVerb | tuw_nlp/sem/hrg/postproc/postproc.py:18-22 | the verb position chosen lies within the topological order |
| PostProc.LeastIndex | tuw_nlp/sem/hrg/postproc/postproc.py:18-22 | the loop computes `MinOf` |
| PostProc.ResolvedShape | tuw_nlp/sem/hrg/postproc/postproc.py:6-25 | an existing `P` leaves the labels unchanged; otherwise exactly one key is written, with `P` |
| PostProc.ResolvedFails | tuw_nlp/sem/hrg/postproc/postproc.py:10-22 | fails exactly when `top_order[1]` is missing (no verb), or some verb is not a number in the order |
| PostProc.ResolvedChoice | tuw_nlp/sem/hrg/postproc/postproc.py:10-25 | with no verb, `str(top_order[1])` gets `P`; with one, that verb; with several, the verb earliest in the order |
| PostProc.ResolvePred | tuw_nlp/sem/hrg/postproc/postproc.py:6-25 | the in-place update is `Resolved`, or the error it raises |
| PostProc.NumberedLabels | tuw_nlp/sem/hrg/postproc/postproc.py:29-41 | every key `1..length` exists; absent ones become `O`; non-`A` labels are unchanged; other keys are untouched |
| PostProc.NumberedRuns | tuw_nlp/sem/hrg/postproc/postproc.py:36-41 | an `A` after a label starting with `A` joins the current group; otherwise it opens the next group |
| PostProc.NumberedFromZero | tuw_nlp/sem/hrg/postproc/postproc.py:30-38 | when no original label starts with `A` except `A` itself, the groups are numbered 0, 1, 2, … and `idx` is the last |
| PostProc.NumberedGroups | tuw_nlp/sem/hrg/postproc/postproc.py:31-40 | every word of a group was an `A` and carries its group's label; every `A` word is in a group |
| PostProc.ArgLabelInjective | tuw_nlp/sem/hrg/postproc/postproc.py:40 | `A<n>` labels of different numbers differ |
| PostProc.NumberWords | tuw_nlp/sem/hrg/postproc/postproc.py:29-41 | the loop leaves the specification labels, groups and group order of `Numbered` |
| PostProc.RelabelMeaning | tuw_nlp/sem/hrg/postproc/postproc.py:47-50 | in a relabelling, the i-th group of the ordering gets `A<i>` and every other entry is unchanged |
| PostProc.RelabelCopy | tuw_nlp/sem/hrg/postproc/postproc.py:47-51 | the copy loop computes `Relabel` |
| PostProc.ArgPermMeaning | tuw_nlp/sem/hrg/postproc/postproc.py:44-52 | each ordering of the groups relabels every word of its i-th group `A<i>` and leaves the other words alone |
| PostProc.AddArgIdx | tuw_nlp/sem/hrg/postproc/postproc.py:28-52 | the labels are numbered in place; without `arg_perm` the result is the same object alone; with it, one fresh relabelled copy per permutation of the groups, in order |
| PostProc.NumberingKeepsPred | tuw_nlp/sem/hrg/postproc/postproc.py:28-52 | numbering and every permutation keep a `P` label |
| PostProc.Postprocess | tuw_nlp/sem/hrg/postproc/postproc.py:55-57 | `resolve_pred`, then `add_arg_idx` with `len(pos_tags)` words; the error of `resolve_pred` leaves the labels as they were |
| PostProc.PostprocessedHasPred | tuw_nlp/sem/hrg/postproc/postproc.py:55-57 | every labelling `postprocess` returns has a predicate |
| Itertools.PermutationsCount | tuw_nlp/sem/hrg/postproc/postproc.py:45 | `itertools.permutations` of n groups yields n! orderings |
| Itertools.PermutationsSound | tuw_nlp/sem/hrg/postproc/postproc.py:45 | each ordering is a permutation of the groups |
| Itertools.PermutationsComplete | tuw_nlp/sem/hrg/postproc/postproc.py:45 | every permutation is produced |
| Itertools.PermutationsDistinct | tuw_nlp/sem/hrg/postproc/postproc.py:45 | for distinct groups, no ordering is produced twice |
| Itertools.PermutationElems | tuw_nlp/sem/hrg/postproc/postproc.py:45 | an ordering of distinct groups holds each group exactly once |
| Triplets.NodeLabelsMeaning | tuw_nlp/sem/hrg/common/triplet.py:6-13 | the constructor succeeds iff the argument nodes are distinct and none is a predicate node; then predicate nodes map to `P` and argument nodes to their argument's label, and nothing else is mapped; a failure names an argument node |
| Triplets.InsertMeaning | tuw_nlp/sem/hrg/common/triplet.py:10-13 | inserting pairs succeeds iff the nodes are new and pairwise distinct, and then adds exactly those pairs |
| Triplets.BuildNodeLabels | tuw_nlp/sem/hrg/common/triplet.py:9-13 | the loops compute `NodeLabels` |
| Triplets.AddArgument | tuw_nlp/sem/hrg/common/triplet.py:11-13 | the inner loop labels one argument's nodes, or stops at the first one labelled already |
| Triplets.Triplet.New | tuw_nlp/sem/hrg/common/triplet.py:6-13 | a failed assertion gives the error; otherwise a triplet holding the inputs and their label map |
| Triplets.Triplet.GetLabel | tuw_nlp/sem/hrg/common/triplet.py:29-30 | a label exactly for mapped nodes |
| Triplets.GetLabelMeaning | tuw_nlp/sem/hrg/common/triplet.py:29-30 | a predicate node gets `P`, an argument node its argument's label, and any other node nothing |

## Left out

- Hash-based graph equality. `Hgraph._get_node_hashes`, `__hash__` and `__eq__` rely on Python's `hash()`, which has no model here.
- Graph text parsing and rendering. `Hgraph.from_string` depends on a graph-description parser (`graph_description_parser` is not part of this model). Graphs appear as already-parsed triples, and the loader takes a `parseGraph` parameter. `dfs`, `to_bolinas_str` and `to_string` are text rendering.
- Weights are `real`. `math.log` and `float()` are parameters of the loader; only sums and comparisons are used.
- Timing, printing, log strings, `log_length` and the `warn` streams are left out. The steps `cfg.py` `derivations(log_lines, ...)` wrapper only adds log lines around `_derivations`, and is not modelled separately.
- The `ParseTooLongException`/`CkyTooLongException` budget exceptions are never raised by the parser: the budget is a plain `break`.
- `VoRule.binarize`, `binarize_tree`, `reweight` and `canonicalize_amr` use attributes and helpers this code does not define.
- Drivers, file I/O, pickling, evaluation, statistics, NLP preprocessing, random baselines and `extract_for_kth_derivation` formatting are left out.
- `Triplet.to_file`/`from_file` are JSON file I/O. Triplet nodes are integers.
- Python's iteration order of sets, dictionaries and heaps is modelled as insertion order:
  - the parser's production sets and `nonterminal_to_rules` sets;
  - the chart splits and the `pos_tags` dictionary (a list of pairs);
  - the CKY `visit_items` set (the conversion result is a map, so order does not matter there).
- Ties in `sorted` follow that insertion order.
- `KBest.SortedNodes`: nodes with the same number (`a1` and `b1`) are ordered by their strings, because the set is turned into a sorted list first. Python keeps the set's hash order for them.
- `HergItem` with `nodelabels=True` is left out: the item and parser ignore node labels. `Hgraph.triples(nodelabels=...)` only produces the unlabelled listing.
- `rev_mapping` is taken as the set of mapped graph nodes. With a non-injective mapping the Python dictionary keeps the last preimage, and the model does not capture that.
- The parser's `tried` bookkeeping and queue-size statistics are left out.
- Equality by object identity is replaced by value equality. This includes the parser's `pending`/`visited` sets over items, whose `__eq__` the model proves equal to value equality for consistent items.
- `Parsing.Parse`: the loop without `max_steps` (or with 0) is bounded by a `fuel` parameter. The model does not capture a run longer than the fuel.
- `Parsing.ParseAll`: same fuel bound as `Parsing.Parse`.
- `Parsing.Parse` requires distinct rules that can carry items (graph first side with one root). `reachable_rules` returns a set, and string-side items are outside `vo_item.py`'s graph semantics.
- `Parsing.Parse` states soundness invariants, not completeness: it is not proved that every derivable item is found.
- `Derivations.AllDerivations`: recursion depth is bounded by `fuel`, and the result is complete only up to that depth. A cyclic chart makes Python raise RecursionError.
- `Derivations.AllDerivations`: the exact length (one entry per combination) is stated for each split's pool by `Derivations.PoolAll`, not for the final list.
- `Derivations.KBest`: the result is stated as sorted, bounded and valid, not as an exact count.
  - The top-k push runs inside the per-combination loop, so entries can repeat.
  - `heappush` appends before comparing, so a swallowed TypeError on a score tie drops nothing; it is not modelled.
- `Derivations.FirstDerivationSound`: the first derivation is bounded by `fuel` in the same way.
- `Cky.GetCkyChart` requires a settled chart (every production's first item is smaller than the item it derives). `Cky.ChartCoherent` proves this for every chart the parser builds. On other charts `search_productions` may recurse without end.
- `Hypergraphs.Hgraph.FindRoots` requires that `""` is not a node. `triples(start_node="")` falls back to the roots because the empty string is falsy, and the root search could then loop.
- `Grammars.ReachableRules` and `Grammars.TerminalFilter` require a loaded grammar (GrammarOk) and inputs whose kind matches the grammar's formats.
- The loader's `Hgraph.from_string` failures are a parser parameter, and `rule_class` construction errors appear only as the one-root check.
- `get_rules` on a clashing tree has already updated some counts when the assertion fails. `Oie.GetRules` states the counts only on success.
- Python's `hash()` of labels is a parameter of `Labels.NtHash`.
- `Triplets.Triplet.New`: the constructor is a static method returning a Result, so a failed assertion is the error case rather than an exception.
- `Strings.ParseInt` follows Python `int()` on ASCII text: surrounding whitespace and a sign are accepted. The `_` digit separators (`1_000`) and non-ASCII digits and whitespace that Python also accepts are rejected.
- `tuw_nlp.sem.hrg.steps.bolinas.common.rule` is not part of this model. The printed rule follows `Rule.__str__` of the bolinas copy, `tuw_nlp/sem/hrg/bolinas/common/rule.py`.
- A graph side's `to_string()`, the `%.10f` weight format and `math.exp` are parameters of the printed rule (`Rules.Printer`).
- The `Labelling` objects returned with `arg_perm` are fresh copies. Aliasing is modelled only for the `arg_perm=False` result, which is the input object itself.

## Findings

| source | as written | input that shows it | evidently intended | confidence | as-written member | corrected member |
|---|---|---|---|---|---|---|
| tuw_nlp/sem/hrg/steps/bolinas/parser_basic/vo_rule.py:43 | `type(t) is NonterminalLabel` tests the class imported at line 2 from `nonterminal.py`, while the grammar reader (grammar.py:5,24) builds its tokens from the class of `cfg.py`; so every string first side is terminal | the rule `S -> a B$ ;`: `is_terminal` is True though `B$` is a nonterminal | a string side is terminal iff none of its tokens is a nonterminal | not executed | Rules.StringSideAlwaysTerminal | Rules.MakeRule |
| tuw_nlp/sem/hrg/steps/bolinas/kbest/kbest.py:24-28 | a derivation is appended before `len >= k` is checked, so `k <= 0` still returns one derivation | `k = 0` and a chart of one derivation: the result has one entry | at most `k` derivations, none for `k <= 0` | not executed | KBest.NonPositiveKeepsOne | KBest.GetKBestUniqueBounded |

Nothing in the modelled code reads `is_terminal`, so the first finding does not change what the parser builds.
