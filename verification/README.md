# reclass inventory queries in Dafny

reclass is a node classifier. It builds a parameter tree and an export tree
for each node. A string value of the form `$[ ... ]` in such a tree is an
*inventory query*. A query asks the other nodes' exports for data:

- `$[ exports:a ]` maps each node to its export `a`;
- `$[ if exports:b == 2 ]` lists the nodes whose export `b` is 2;
- `$[ exports:a if exports:b == self:x and exports:c == True ]` combines a
  value path with a condition;
- a leading `+AllEnvs` also admits nodes outside the querying node's
  environment.

This project models the engine behind those queries as immutable datatypes and
pure functions:

- `ast.dfy`: the query syntax tree (`Query`, `Cond`, `Comparison`, `Operand`).
- `values.dfy`: parameter and export trees. Dictionaries keep their keys in
  insertion order. Containers carry a *typed* tag, the stand-in for the
  `ParameterDict`/`ParameterList` classes.
- `lexer.dfy`: whitespace words and delimiter-separated paths.
- `parser.dfy`: word classification, the recursive-descent grammar, and the
  printer. The printer is the partner of the parser (`ParsePrint`).
- `inventory.dfy`: evaluation against an ordered inventory of nodes. It covers
  candidates, value and list results, the `self:` pre-pass, accumulated
  queries, and environment scope.
- `parameters.dfy`: whole trees. It covers eager construction (queries are
  parsed when the tree is built), `overwrite`, deep `merge` with query
  accumulation, and `interpolate`, which evaluates every pending query and
  turns the tree's own typed containers into plain ones.
- `query_texts.dfy`: the literal query texts of the repository's query tests.
  The malformed ones are rejected with the expected error; the others read as
  the expected query.
- `test_cases.dfy`: each query test as a lemma. It starts from the raw tree and
  the inventory, and proves the exact interpolated result.

Paths use ':' as the delimiter, reclass's default. The delimiter is a parameter
of the parser, since the settings object is not modelled.

## Model

| member | source | states |
|---|---|---|
| Parser.ParseQuery | reclass/datatypes/tests/test_exports.py:45-57 | a text not starting with `$[` is no query; one that starts with `$[` but does not end with `]`, or holds `$`, `[`, `]`, `{` or `}` between its brackets, is rejected with `UnbalancedBracket`; every query it accepts comes from a balanced text and is well formed |
| Parser.ParsePrint | reclass/datatypes/tests/test_exports.py:59-129 | for any well-formed query, printing it as `$[ w1 ... wn ]` gives a balanced text, and parsing that text gives back the same query (parse and print are inverse) |
| Parser.TightClose | reclass/datatypes/tests/test_exports.py:154-157 | a closing `]` written directly after the last word (`== 2]`) reads exactly like one preceded by a space |
| Parser.ParseQueryTokens | reclass/datatypes/tests/test_exports.py:59-129 | the grammar accepts the token sequence of every well-formed query and rebuilds that query, with flag, value path, connector and comparisons intact |
| Parser.ParseTokensCanonical | reclass/datatypes/tests/test_exports.py:45-57 | conversely, a token sequence is accepted only if it is exactly the canonical token sequence of the query it yields, so every other arrangement of operands, keywords and connectors is rejected |
| Parser.ParsedTextCanonical | reclass/datatypes/tests/test_exports.py:45-57 | the words of any accepted query text classify to exactly the canonical tokens of the query read from it |
| Parser.ClassifySpelling | reclass/datatypes/tests/test_exports.py:87-92 | each operand and keyword is written as one word that is classified back as the same token (`True` as a boolean, `4` as an integer, `exports:`/`self:` paths as references) |
| Lexer.TokensUnwords | reclass/datatypes/tests/test_exports.py:61 | words written with single spaces are split back into exactly those words |
| Lexer.SplitJoin | reclass/datatypes/tests/test_exports.py:75 | path segments free of the delimiter, joined with it and split again, give back the segments |
| Lexer.JoinSplit | reclass/datatypes/tests/test_exports.py:75 | splitting a path text on the delimiter and joining again gives back the text |
| QueryTexts.RejectsMissingIf | reclass/datatypes/tests/test_exports.py:47 | `$[ exports:a exports:b == self:test_value ]` is rejected: a second operand follows the value path where `if` is required |
| QueryTexts.RejectsMissingEquals | reclass/datatypes/tests/test_exports.py:49 | `$[ exports:a if exports:b self:test_value ]` is rejected: two operands without `==` between them |
| QueryTexts.RejectsMissingOperand | reclass/datatypes/tests/test_exports.py:51 | `$[ exports:a if exports:b == ]` is rejected: `==` without a right operand |
| QueryTexts.RejectsSingleEquals | reclass/datatypes/tests/test_exports.py:53 | the query whose second comparison uses a single `=` is rejected: `=` is not the comparison operator |
| QueryTexts.RejectsTruncatedOr | reclass/datatypes/tests/test_exports.py:55 | the query ending in `or exports:c == ]` is rejected: the last comparison has no right operand |
| QueryTexts.RejectsUnknownConnector | reclass/datatypes/tests/test_exports.py:57 | the query joining two comparisons with `anddd` is rejected: only `and` and `or` connect comparisons |
| QueryTexts.ReadsValue | reclass/datatypes/tests/test_exports.py:61 | `$[ exports:a ]` is a value query on path `a`, with no condition and no flag |
| QueryTexts.ReadsFiltered | reclass/datatypes/tests/test_exports.py:68 | `$[ exports:a if exports:b == 4 ]` is a value query on `a` with the single comparison `b == 4` |
| QueryTexts.ReadsSelf | reclass/datatypes/tests/test_exports.py:75 | `self:test_value` reads as a reference into the issuing tree, not as a literal |
| QueryTexts.ReadsList | reclass/datatypes/tests/test_exports.py:82 | `$[ if exports:b == 2 ]` is a list query (no value path) |
| QueryTexts.ReadsAnd | reclass/datatypes/tests/test_exports.py:89 | `... and exports:c == True` gives an all-of condition whose second comparison has the boolean literal true |
| QueryTexts.ReadsOr | reclass/datatypes/tests/test_exports.py:96 | `... or exports:b == 3` gives an any-of condition of two comparisons |
| QueryTexts.ReadsGreen | reclass/datatypes/tests/test_exports.py:106 | the bare word `green` reads as a string literal inside an all-of list query |
| QueryTexts.ReadsListOr | reclass/datatypes/tests/test_exports.py:126 | `$[ if exports:b == 2 or exports:b == 4 ]` is an any-of list query |
| QueryTexts.ReadsAIsOne | reclass/datatypes/tests/test_exports.py:133 | `$[ if exports:a == 1 ]` is a list query with the single comparison `a == 1` |
| QueryTexts.ReadsAIsTwo | reclass/datatypes/tests/test_exports.py:134 | `$[ if exports:a == 2 ]` is a list query with the single comparison `a == 2` |
| QueryTexts.ReadsAllEnvsValue | reclass/datatypes/tests/test_exports.py:144 | `$[ +AllEnvs exports:a ]` is the value query on `a` with the flag set |
| QueryTexts.ReadsBIsTwo | reclass/datatypes/tests/test_exports.py:155 | `$[ exports:a if exports:b == 2 ]` is the value query on `a` filtered by `b == 2`, without the flag |
| QueryTexts.ReadsAllEnvsBIsTwo | reclass/datatypes/tests/test_exports.py:156 | `$[ +AllEnvs exports:a if exports:b == 2]` is the same query with the flag set |
| QueryTexts.ReadsAllEnvsAIsTwo | reclass/datatypes/tests/test_exports.py:169 | `$[ +AllEnvs if exports:a == 2]` is a list query with the flag set |
| Eval.CondHolds | reclass/datatypes/tests/test_exports.py:87-99 | an `and` condition holds iff every comparison holds; an `or` condition holds iff at least one does |
| Eval.AllHold | reclass/datatypes/tests/test_exports.py:87-92 | the recursive `and` evaluation is true exactly when every comparison of the chain holds |
| Eval.AnyHolds | reclass/datatypes/tests/test_exports.py:94-99 | the recursive `or` evaluation is true exactly when some comparison of the chain holds |
| Eval.MissingExportFails | reclass/datatypes/tests/test_exports.py:111-119 | a comparison that reads an export path the node lacks is false, whatever the other side |
| Eval.MissingExportExcludes | reclass/datatypes/tests/test_exports.py:111-119 | under `and`, one comparison on a missing export excludes the node; evaluation goes on without error |
| Eval.Candidates | reclass/datatypes/tests/test_exports.py:80-85 | the candidates are exactly the inventory nodes that are in scope (or the query has `+AllEnvs`) and satisfy the condition, in inventory order |
| Eval.ListResult | reclass/datatypes/tests/test_exports.py:80-85 | a list query yields a name iff some matching node has it; the names keep inventory order and, with unique node names, have no repeats |
| Eval.ListResultDetermined | reclass/datatypes/tests/test_exports.py:80-85 | with unique node names, any sequence that lists exactly the matching nodes' names in inventory order is the list result |
| Eval.CandidatesDetermined | reclass/datatypes/tests/test_exports.py:80-85 | with unique node names, any subsequence of the inventory that holds exactly the matching nodes is the candidate list |
| Eval.ValueResult | reclass/datatypes/tests/test_exports.py:59-64 | a value query has an entry `name: v` iff a candidate of that name has `v` at the value path; keys follow candidate order |
| Eval.ValueResultDetermined | reclass/datatypes/tests/test_exports.py:59-64 | with unique candidate names, any entry sequence that maps exactly the candidates having the path to their values, keyed in candidate order, is the value result |
| Eval.Evaluate | reclass/datatypes/tests/test_exports.py:59-71 | a query with a value path gives an untyped mapping from candidate names to values; one without gives the untyped list of candidate names; over plain exports the result is plain |
| Eval.ScopedQuerySeesInScopeOnly | reclass/datatypes/tests/test_exports.py:140-148 | without `+AllEnvs`, the candidates are those the flagged query picks from the in-scope nodes alone |
| Eval.AllEnvsWidens | reclass/datatypes/tests/test_exports.py:150-161 | the scoped candidates are a subsequence of the `+AllEnvs` candidates: the flag only adds nodes |
| Eval.AllEnvsIgnoresScope | reclass/datatypes/tests/test_exports.py:163-174 | with `+AllEnvs`, marking every node in scope first changes nothing about which nodes are selected |
| Eval.ResolveOperand | reclass/datatypes/tests/test_exports.py:73-78 | a `self:` operand is replaced by the scalar at its path in the issuing tree, or fails naming that path; other operands are kept; the operand's value is unchanged |
| Eval.ResolveComparisons | reclass/datatypes/tests/test_exports.py:73-78 | the pre-pass succeeds iff every `self:` path leads to a scalar; the result has no `self:` operand and every comparison holds exactly when the original does; on failure the error names the unresolved `self:` path of the first comparison that has one |
| Eval.ResolveQuery | reclass/datatypes/tests/test_exports.py:73-78 | resolving `self:` keeps flag and value path, leaves no `self:` operand, and selects exactly the nodes the original query selects; on failure it names the first unresolved `self:` path of the condition |
| Eval.SelfFreeIgnoresSelf | reclass/datatypes/tests/test_exports.py:73-78 | once no `self:` operand is left, which nodes match no longer depends on the issuing tree |
| Eval.ResolveAll | reclass/datatypes/tests/test_exports.py:131-138 | the accumulated queries are resolved in order, or the error is that of the first query whose `self:` paths do not all resolve |
| Eval.SingleQueryEvaluates | reclass/datatypes/tests/test_exports.py:73-78 | a key holding one query evaluates to that query's result read with its `self:` operands in place |
| Eval.AccumulatedNames | reclass/datatypes/tests/test_exports.py:131-138 | the names of several list queries are the union of their list results, each name once, given unique node names |
| Eval.AccumulatedPrefix | reclass/datatypes/tests/test_exports.py:131-138 | a later query only appends: the names accumulated from the first `k` queries are a prefix of those from all of them |
| Eval.AccumulatedStep | reclass/datatypes/tests/test_exports.py:131-138 | each further query appends exactly its own names not listed before, in inventory order |
| Eval.AccumulatedFirst | reclass/datatypes/tests/test_exports.py:131-138 | the first query's names come first, in its own order |
| Eval.EvalPending | reclass/datatypes/tests/test_exports.py:131-138 | a key's pending queries evaluate iff every `self:` path resolves and there is one query or all are list queries; against an inventory with plain exports the result is plain (a typed export is copied into a value result as it is); a failed `self:` path is reported for the first query that has one |
| Eval.TwoListQueriesUnion | reclass/datatypes/tests/test_exports.py:131-138 | two accumulated list queries give the first one's names followed by the second one's new names, in order, without repeats |
| Eval.ListQueriesAccumulate | reclass/datatypes/tests/test_exports.py:131-138 | any number of accumulated list queries whose `self:` paths resolve evaluate to the ordered, repeat-free union of their list results |
| Seqs.Union | reclass/datatypes/tests/test_exports.py:135 | the union holds exactly the elements of both sequences and starts with the first one unchanged; what follows is new elements only, without repeats, in the second sequence's order; no repeats at all when the first has none |
| Seqs.UnionIsAppend | reclass/datatypes/tests/test_exports.py:135 | when the second sequence has no repeats, the union is the first followed by the second's new elements in order (`Without`, the reference filter) |
| Parameters.Construct | reclass/datatypes/tests/test_exports.py:45-57 | building a tree succeeds iff every query-shaped string in it (one starting with `$[`) parses, so a malformed or unbalanced query fails at construction; on success each query-shaped string is stored as its parsed query, other scalars are kept, and containers keep keys and order and are typed; data without queries keeps its content |
| Parameters.BuiltUnique | reclass/datatypes/tests/test_exports.py:28-43 | the tree built from given raw data is unique: the built result is a function of the raw data alone |
| Parameters.ConstructQueryKey | reclass/datatypes/tests/test_exports.py:59-64 | a key that holds query text holds, once built, the pending query parsed from that text |
| Parameters.ConstructThenInterpolateQuery | reclass/datatypes/tests/test_exports.py:59-64 | building then interpolating: a key that held query text ends up holding the evaluation of the parsed query against the inventory |
| Parameters.Overwrite | reclass/datatypes/tests/test_exports.py:28-33 | overwrite succeeds iff the new data's queries parse, and the result is the tree built from the new data, which by `BuiltUnique` does not depend on the old tree |
| Parameters.Merge | reclass/datatypes/tests/test_exports.py:131-138 | merging two mappings gives the ordered union of their keys; merging two lists concatenates them |
| Parameters.MergeAccumulates | reclass/datatypes/tests/test_exports.py:131-138 | when both trees hold pending queries under a key, the merged key holds the first tree's queries followed by the second's |
| Parameters.Resolve | reclass/datatypes/tests/test_exports.py:35-43 | resolution succeeds iff every pending value evaluates; a query needs an inventory; the shape is kept and every pending value, at any depth, becomes the evaluation of its queries; a query-free value comes out as the same data in plain containers |
| Parameters.Interpolate | reclass/datatypes/tests/test_exports.py:35-43 | interpolating fails without an inventory iff a query is present; it keeps keys and order, replaces every pending value at any depth by its evaluation against the inventory with the tree itself as the `self:` root, and gives plain containers over plain exports |
| Parameters.InterpolateQueryKey | reclass/datatypes/tests/test_exports.py:59-64 | after interpolation, a key that held queries holds their evaluation against the inventory |
| Parameters.InterpolateKeepsPlainKey | reclass/datatypes/tests/test_exports.py:73-78 | after interpolation, a key without queries (`test_value`) holds its old content |
| Parameters.InterpolateIdempotent | reclass/datatypes/tests/test_exports.py:40-43 | against an inventory with plain exports (or none), interpolating an interpolated tree again, with or without an inventory, changes nothing |
| Parameters.ConstructThenInterpolate | reclass/datatypes/tests/test_exports.py:35-43 | plain query-free data is built into typed containers, and interpolation gives the same data back in plain containers |
| Parameters.OverwriteThenInterpolate | reclass/datatypes/tests/test_exports.py:28-33 | after overwriting with plain query-free data, interpolation yields exactly that data |
| Parameters.MergedListQueries | reclass/datatypes/tests/test_exports.py:131-138 | two trees with a list query under the same key, merged then interpolated, give that key the union of both queries' node lists, with `self:` operands read from the merged tree |
| Examples.OverwriteExample | reclass/datatypes/tests/test_exports.py:28-33 | overwriting `{alpha: {one: 1, two: 2}}` with `{alpha: {three: 3, four: 4}}` and interpolating gives exactly the new data |
| Examples.TypesExample | reclass/datatypes/tests/test_exports.py:35-43 | `{alpha: {...}, beta: [1, 2]}` is built with typed containers and interpolates to the same data in plain containers |
| Examples.BuildRejects | reclass/datatypes/tests/test_exports.py:45-57 | building `{k: text}` fails with exactly the error the parser gives for a query-shaped `text` |
| Examples.UnbalancedQueries | reclass/datatypes/tests/test_exports.py:45-57 | a text that opens a query with `$[` but is not closed (`$[ exports:a`), or holds a stray `]` inside (`$[ if exports:a == ] ]`), makes building the tree fail with `UnbalancedBracket` |
| Examples.MalformedQueries | reclass/datatypes/tests/test_exports.py:45-57 | each of the six malformed texts makes building `{exp: <text>}` fail with its parse error, before any interpolation |
| Examples.ValueQuery | reclass/datatypes/tests/test_exports.py:59-64 | `$[ exports:a ]` over node1 `{a: 1, b: 2}` and node2 `{a: 3, b: 4}` interpolates to `{exp: {node1: 1, node2: 3}}` |
| Examples.FilteredQuery | reclass/datatypes/tests/test_exports.py:66-71 | `$[ exports:a if exports:b == 4 ]` over the same nodes gives `{exp: {node2: 3}}` |
| Examples.SelfQuery | reclass/datatypes/tests/test_exports.py:73-78 | with `test_value: 2`, `$[ exports:a if exports:b == self:test_value ]` gives `{exp: {node1: 1}, test_value: 2}` |
| Examples.ListQuery | reclass/datatypes/tests/test_exports.py:80-85 | `$[ if exports:b == 2 ]` lists `[node1, node3]` |
| Examples.AndQuery | reclass/datatypes/tests/test_exports.py:87-92 | `$[ exports:a if exports:b == 4 and exports:c == True ]` gives `{exp: {node2: 3}}` |
| Examples.OrQuery | reclass/datatypes/tests/test_exports.py:94-99 | `$[ exports:a if exports:b == 4 or exports:b == 3 ]` gives `{exp: {node1: 1, node2: 3}}` |
| Examples.GreenQuery | reclass/datatypes/tests/test_exports.py:101-109 | `$[ if exports:b == 2 and exports:c == green ]` lists `[node1]` when node3's `c` is `red` |
| Examples.MissingPathQuery | reclass/datatypes/tests/test_exports.py:111-119 | the same query lists `[node1]` when node3 has no `c` at all, without error |
| Examples.ListOrQuery | reclass/datatypes/tests/test_exports.py:121-129 | `$[ if exports:b == 2 or exports:b == 4 ]` lists `[node1, node3]` |
| Examples.MergedQueries | reclass/datatypes/tests/test_exports.py:131-138 | merging `$[ if exports:a == 1 ]` with `$[ if exports:a == 2 ]` under `exp` and interpolating lists `[node1, node2, node3]` |
| Examples.ValueFlagQueries | reclass/datatypes/tests/test_exports.py:140-148 | `alpha` sees the in-scope nodes `{node1: 1, node2: 2}`; the `+AllEnvs` key `beta` also sees `node3: 3` |
| Examples.FilterFlagQueries | reclass/datatypes/tests/test_exports.py:150-161 | `alpha` gives `{node2: 2}`; with `+AllEnvs`, `beta` gives `{node2: 2, node3: 3}` |
| Examples.ListFlagQueries | reclass/datatypes/tests/test_exports.py:163-174 | `alpha` lists `[node2]`; with `+AllEnvs`, `beta` lists `[node2, node3]` |

## Left out

- The `Settings` object is not modelled. The path delimiter is a parameter, and the examples use ':'.
- Loaders, node and class storage, and the `iteritems`-based building of the inventory mapping are not modelled. An inventory is given as an ordered sequence of nodes; its order stands for the mapping's iteration order.
- `${...}` parameter references are not modelled, and neither is the deep merge of plain values beyond what query accumulation needs. Only inventory queries are parsed.
- Parse error messages and the `uri` argument are not modelled. Errors are the constructors of `ParseError` and `InterpolationError`.
- Mixed `and`/`or` in one condition is rejected with `MixedConnectors`. The tests never mix them, so no precedence is guessed.
- Eval.EvalPending: accumulated value queries, or a mix of value and list queries under one key, give `UnsupportedAccumulation`. reclass merges such mappings left to right, later entries winning; that is not modelled.
- Eval.ValueResult: a candidate node that lacks the value path is skipped. The tests never show this case.
- Eval.Holds: comparison is structural equality of scalars. Python's `1 == True` is not reproduced: the integer 1 and the boolean true differ here.
- Class identity (`ParameterDict` against `dict`, `ParameterList` against `list`) is modelled by a typed tag on each container.
- Lexer.Tokens: words are split on whitespace only, so `==` must stand alone as a word. A single `=` is then an ordinary word, which makes the rejection of the query on line 53 an `ExpectedEquals` error.
- Parser.ParseQuery: a query must fill the whole string, from `$[` to the final `]`. A string with text after the query is rejected as `UnbalancedBracket`, and one with text before it is kept as a plain string; neither is read as mixed text. A `${...}` reference inside a query is rejected as `UnbalancedBracket` too.
- Parser.PathToken: a path with an empty segment (`exports:` alone, or `exports:a::b`) is rejected as `MalformedPath`.
- QueryTexts: each test text is modelled as its words separated by single spaces. The texts on lines 156 and 169, whose `]` follows the last word directly, use `TightQueryText`; `Parser.TightClose` shows that both spellings read alike.
