/** The documented behaviour of inventory queries, case by case: each lemma
    is one scenario of the query tests in reclass/datatypes/tests/test_exports.py,
    with ':' as the path delimiter. */
module Examples {
  import opened Wrappers
  import opened Ast
  import opened Values
  import opened Seqs
  import opened Lexer
  import opened Parser
  import opened Eval
  import opened Parameters
  import opened QueryTexts

  // ---------------------------------------------------------------------------
  // Evaluating queries against an inventory.

  function I(i: int): Value {
    Leaf(Int(i))
  }

  function S(s: string): Value {
    Leaf(Str(s))
  }

  /** A node whose exports are the given entries. */
  function Node(name: string, es: seq<Entry>, inScope: bool): NodeInventory {
    NodeInventory(name, Dict(es, false), inScope)
  }

  /** Building a tree with one key that holds a query text. */
  lemma BuildOne(k: string, text: string, q: Query)
    requires ParseQuery(text, ':') == Ok(q)
    ensures Construct(Dict([Entry(k, S(text))], false), ':') == Ok(Dict([Entry(k, Pending([q]))], true))
  {
    var es := [Entry(k, S(text))];
    assert Construct(S(text), ':') == Ok(Pending([q]));
    assert es[1..] == [];
    assert ConstructEntries(es[1..], ':') == Ok([]);
    assert [Entry(k, Pending([q]))] + [] == [Entry(k, Pending([q]))];
    assert ConstructEntries(es, ':') == Ok([Entry(k, Pending([q]))]);
  }

  /** Interpolating a tree with one key that holds a lone query. */
  lemma InterpolateOne(k: string, q: Query, inv: Inventory, v: Value)
    requires SelfRefsResolve(q, Dict([Entry(k, Pending([q]))], true))
    requires Evaluate(q, Dict([Entry(k, Pending([q]))], true), inv) == v
    ensures Interpolate(Dict([Entry(k, Pending([q]))], true), Some(inv)) == Ok(Dict([Entry(k, v)], false))
  {
    var t := Dict([Entry(k, Pending([q]))], true);
    SingleQueryEvaluates(q, t, inv);
    assert Resolve(Pending([q]), t, Some(inv)) == Ok(v);
    InterpolateSingle(k, Pending([q]), inv, v);
  }

  /** Interpolating a tree with one key. */
  lemma InterpolateSingle(k: string, c: Value, inv: Inventory, o: Value)
    requires Resolve(c, Dict([Entry(k, c)], true), Some(inv)) == Ok(o)
    ensures Interpolate(Dict([Entry(k, c)], true), Some(inv)) == Ok(Dict([Entry(k, o)], false))
  {
    var t := Dict([Entry(k, c)], true);
    ResolveOneEntry(Entry(k, c), t, inv, o);
    InterpolateEntries(t, inv, [Entry(k, o)]);
  }

  /** Building `raw` succeeds, and interpolating the result against `inv`
      gives `expected`. */
  predicate Yields(raw: Value, inv: Inventory, expected: Value) {
    Construct(raw, ':').Ok? && Interpolate(Construct(raw, ':').value, Some(inv)) == Ok(expected)
  }

  /** A query without `self:` operands resolves against any tree. */
  lemma SelfFreeResolves(q: Query, root: Value)
    requires SelfFree(q)
    ensures SelfRefsResolve(q, root)
  {
  }

  lemma ConstructOneEntry(e: Entry, c: Value)
    requires Construct(e.val, ':') == Ok(c)
    ensures ConstructEntries([e], ':') == Ok([Entry(e.key, c)])
  {
    assert [e][1..] == [];
    assert ConstructEntries([], ':') == Ok([]);
    assert [Entry(e.key, c)] + [] == [Entry(e.key, c)];
  }

  lemma ConstructPair(e1: Entry, e2: Entry, c1: Value, c2: Value)
    requires Construct(e1.val, ':') == Ok(c1) && Construct(e2.val, ':') == Ok(c2)
    ensures ConstructEntries([e1, e2], ':') == Ok([Entry(e1.key, c1), Entry(e2.key, c2)])
  {
    ConstructOneEntry(e2, c2);
    assert [e1, e2][1..] == [e2];
    assert [Entry(e1.key, c1)] + [Entry(e2.key, c2)] == [Entry(e1.key, c1), Entry(e2.key, c2)];
  }

  lemma ResolveOneEntry(e: Entry, t: Value, inv: Inventory, o: Value)
    requires Resolve(e.val, t, Some(inv)) == Ok(o)
    ensures ResolveEntries([e], t, Some(inv)) == Ok([Entry(e.key, o)])
  {
    assert [e][1..] == [];
    assert ResolveEntries([], t, Some(inv)) == Ok([]);
    assert [Entry(e.key, o)] + [] == [Entry(e.key, o)];
  }

  lemma ResolvePair(e1: Entry, e2: Entry, t: Value, inv: Inventory, o1: Value, o2: Value)
    requires Resolve(e1.val, t, Some(inv)) == Ok(o1) && Resolve(e2.val, t, Some(inv)) == Ok(o2)
    ensures ResolveEntries([e1, e2], t, Some(inv)) == Ok([Entry(e1.key, o1), Entry(e2.key, o2)])
  {
    ResolveOneEntry(e2, t, inv, o2);
    assert [e1, e2][1..] == [e2];
    assert [Entry(e1.key, o1)] + [Entry(e2.key, o2)] == [Entry(e1.key, o1), Entry(e2.key, o2)];
  }

  /** Building a tree with two keys. */
  lemma BuildTwo(k1: string, r1: Value, c1: Value, k2: string, r2: Value, c2: Value)
    requires Construct(r1, ':') == Ok(c1) && Construct(r2, ':') == Ok(c2)
    ensures Construct(Dict([Entry(k1, r1), Entry(k2, r2)], false), ':') == Ok(Dict([Entry(k1, c1), Entry(k2, c2)], true))
  {
    ConstructPair(Entry(k1, r1), Entry(k2, r2), c1, c2);
  }

  /** Interpolating a tree is resolving its entries against itself. */
  lemma InterpolateEntries(t: Value, inv: Inventory, os: seq<Entry>)
    requires t.Dict? && ResolveEntries(t.entries, t, Some(inv)) == Ok(os)
    ensures Interpolate(t, Some(inv)) == Ok(Dict(os, false))
  {
    assert Resolve(t, t, Some(inv)) == Ok(Dict(os, false));
  }

  /** Interpolating a tree with two keys. */
  lemma InterpolateTwo(k1: string, c1: Value, k2: string, c2: Value, inv: Inventory, o1: Value, o2: Value)
    requires Resolve(c1, Dict([Entry(k1, c1), Entry(k2, c2)], true), Some(inv)) == Ok(o1)
    requires Resolve(c2, Dict([Entry(k1, c1), Entry(k2, c2)], true), Some(inv)) == Ok(o2)
    ensures Interpolate(Dict([Entry(k1, c1), Entry(k2, c2)], true), Some(inv)) == Ok(Dict([Entry(k1, o1), Entry(k2, o2)], false))
  {
    var t := Dict([Entry(k1, c1), Entry(k2, c2)], true);
    ResolvePair(Entry(k1, c1), Entry(k2, c2), t, inv, o1, o2);
    InterpolateEntries(t, inv, [Entry(k1, o1), Entry(k2, o2)]);
  }

  /** A query text builds into a pending value. */
  lemma BuildsQuery(text: string, q: Query)
    requires ParseQuery(text, ':') == Ok(q)
    ensures Construct(S(text), ':') == Ok(Pending([q]))
  {
  }

  /** A pending lone query resolves to its evaluation. */
  lemma ResolvesQuery(q: Query, t: Value, inv: Inventory, v: Value)
    requires SelfRefsResolve(q, t) && Evaluate(q, t, inv) == v
    ensures Resolve(Pending([q]), t, Some(inv)) == Ok(v)
  {
    SingleQueryEvaluates(q, t, inv);
  }

  /** A top-level export of a node. */
  lemma LookupKey(es: seq<Entry>, k: string)
    ensures Lookup(Dict(es, false), [k]) == Find(es, k)
  {
    assert [k][1..] == [];
  }

  lemma Find1(a: Entry, k: string)
    ensures Find([a], k) == if a.key == k then Some(a.val) else None
  {
    assert [a][1..] == [];
  }

  lemma Find2(a: Entry, b: Entry, k: string)
    ensures Find([a, b], k) == if a.key == k then Some(a.val) else if b.key == k then Some(b.val) else None
  {
    assert [a, b][1..] == [b];
    assert [b][1..] == [];
    assert Index([b], k) == if b.key == k then Some(0) else None;
    assert Index([a, b], k) == if a.key == k then Some(0) else if b.key == k then Some(1) else None;
  }

  lemma Find3(a: Entry, b: Entry, c: Entry, k: string)
    ensures Find([a, b, c], k) ==
      if a.key == k then Some(a.val) else if b.key == k then Some(b.val) else if c.key == k then Some(c.val) else None
  {
    assert [a, b, c][1..] == [b, c];
    assert [b, c][1..] == [c];
    assert [c][1..] == [];
    assert Index([c], k) == if c.key == k then Some(0) else None;
    assert Index([b, c], k) == if b.key == k then Some(0) else if c.key == k then Some(1) else None;
    assert Index([a, b, c], k) ==
      if a.key == k then Some(0) else if b.key == k then Some(1) else if c.key == k then Some(2) else None;
  }

  /** `exports:<k> == <literal>` on a node whose exports are `es`. */
  lemma HoldsLit(k: string, s: Scalar, self: Value, es: seq<Entry>)
    ensures Holds(Equals(ExportsRef([k]), Lit(s)), self, Dict(es, false)) <==> Find(es, k) == Some(Leaf(s))
  {
    LookupKey(es, k);
  }

  /** A node matches a one-comparison condition exactly when it is a
      candidate at all and the comparison holds for it. */
  lemma MatchesOne(ae: bool, p: Option<Path>, c: Comparison, self: Value, n: NodeInventory)
    ensures Matches(Query(ae, p, Some(All([c]))), self, n) <==> (ae || n.inScope) && Holds(c, self, n.exports)
  {
    assert [c][1..] == [];
  }

  /** The same for `and` of two comparisons: both must hold. */
  lemma MatchesBoth(ae: bool, p: Option<Path>, c1: Comparison, c2: Comparison, self: Value, n: NodeInventory)
    ensures Matches(Query(ae, p, Some(All([c1, c2]))), self, n)
      <==> (ae || n.inScope) && Holds(c1, self, n.exports) && Holds(c2, self, n.exports)
  {
    assert [c1, c2][1..] == [c2];
    assert [c2][1..] == [];
    assert AllHold([c2], self, n.exports) == Holds(c2, self, n.exports);
  }

  /** The same for `or` of two comparisons: one of them must hold. */
  lemma MatchesEither(ae: bool, p: Option<Path>, c1: Comparison, c2: Comparison, self: Value, n: NodeInventory)
    ensures Matches(Query(ae, p, Some(Any([c1, c2]))), self, n)
      <==> (ae || n.inScope) && (Holds(c1, self, n.exports) || Holds(c2, self, n.exports))
  {
    assert [c1, c2][1..] == [c2];
    assert [c2][1..] == [];
    assert AnyHolds([c2], self, n.exports) == Holds(c2, self, n.exports);
  }

  lemma Candidates2(q: Query, self: Value, a: NodeInventory, b: NodeInventory)
    ensures Candidates(q, self, [a, b]) == (if Matches(q, self, a) then [a] else []) + (if Matches(q, self, b) then [b] else [])
  {
    assert [a, b][1..] == [b];
    assert [b][1..] == [];
  }

  lemma Candidates3(q: Query, self: Value, a: NodeInventory, b: NodeInventory, c: NodeInventory)
    ensures Candidates(q, self, [a, b, c]) ==
      (if Matches(q, self, a) then [a] else []) + (if Matches(q, self, b) then [b] else [])
      + (if Matches(q, self, c) then [c] else [])
  {
    assert [a, b, c][1..] == [b, c];
    Candidates2(q, self, b, c);
  }

  lemma ValueResult1(p: Path, a: NodeInventory, va: Value)
    requires Lookup(a.exports, p) == Some(va)
    ensures ValueResult(p, [a]) == [Entry(a.name, va)]
  {
    assert [a][1..] == [];
  }

  lemma ValueResult2(p: Path, a: NodeInventory, b: NodeInventory, va: Value, vb: Value)
    requires Lookup(a.exports, p) == Some(va) && Lookup(b.exports, p) == Some(vb)
    ensures ValueResult(p, [a, b]) == [Entry(a.name, va), Entry(b.name, vb)]
  {
    assert [a, b][1..] == [b];
    ValueResult1(p, b, vb);
  }

  lemma ValueResult3(p: Path, a: NodeInventory, b: NodeInventory, c: NodeInventory, va: Value, vb: Value, vc: Value)
    requires Lookup(a.exports, p) == Some(va) && Lookup(b.exports, p) == Some(vb) && Lookup(c.exports, p) == Some(vc)
    ensures ValueResult(p, [a, b, c]) == [Entry(a.name, va), Entry(b.name, vb), Entry(c.name, vc)]
  {
    assert [a, b, c][1..] == [b, c];
    ValueResult2(p, b, c, vb, vc);
  }

  lemma Names1(a: NodeInventory)
    ensures Names([a]) == [a.name]
  {
  }

  lemma Names2(a: NodeInventory, b: NodeInventory)
    ensures Names([a, b]) == [a.name, b.name]
  {
  }

  lemma Names3(a: NodeInventory, b: NodeInventory, c: NodeInventory)
    ensures Names([a, b, c]) == [a.name, b.name, c.name]
  {
  }

  /** A tree with one key holding a query text yields, once built and
      interpolated, the query's result under that key. */
  lemma OneQuery(k: string, text: string, q: Query, inv: Inventory, v: Value)
    requires ParseQuery(text, ':') == Ok(q) && SelfFree(q)
    requires Evaluate(q, Dict([Entry(k, Pending([q]))], true), inv) == v
    ensures Yields(Dict([Entry(k, S(text))], false), inv, Dict([Entry(k, v)], false))
  {
    BuildOne(k, text, q);
    SelfFreeResolves(q, Dict([Entry(k, Pending([q]))], true));
    InterpolateOne(k, q, inv, v);
  }

  /** The same for a tree with two keys holding query texts. */
  lemma TwoQueries(k1: string, text1: string, q1: Query, k2: string, text2: string, q2: Query,
                   inv: Inventory, v1: Value, v2: Value)
    requires ParseQuery(text1, ':') == Ok(q1) && SelfFree(q1)
    requires ParseQuery(text2, ':') == Ok(q2) && SelfFree(q2)
    requires Evaluate(q1, Dict([Entry(k1, Pending([q1])), Entry(k2, Pending([q2]))], true), inv) == v1
    requires Evaluate(q2, Dict([Entry(k1, Pending([q1])), Entry(k2, Pending([q2]))], true), inv) == v2
    ensures Yields(Dict([Entry(k1, S(text1)), Entry(k2, S(text2))], false), inv, Dict([Entry(k1, v1), Entry(k2, v2)], false))
  {
    var t := Dict([Entry(k1, Pending([q1])), Entry(k2, Pending([q2]))], true);
    BuildsQuery(text1, q1);
    BuildsQuery(text2, q2);
    BuildTwo(k1, S(text1), Pending([q1]), k2, S(text2), Pending([q2]));
    SelfFreeResolves(q1, t);
    SelfFreeResolves(q2, t);
    ResolvesQuery(q1, t, inv, v1);
    ResolvesQuery(q2, t, inv, v2);
    InterpolateTwo(k1, Pending([q1]), k2, Pending([q2]), inv, v1, v2);
  }

  // ---------------------------------------------------------------------------
  // Lines 28-43: trees without queries.

  const OverwriteBefore: Value := Dict([Entry("alpha", Dict([Entry("one", I(1)), Entry("two", I(2))], false))], false)
  const OverwriteData: Value := Dict([Entry("alpha", Dict([Entry("three", I(3)), Entry("four", I(4))], false))], false)

  /** Line 31: after `overwrite`, interpolating without an inventory gives
      exactly the new data. */
  lemma OverwriteExample()
    ensures Construct(OverwriteBefore, ':').Ok?
    ensures var t := Construct(OverwriteBefore, ':').value;
      Overwrite(t, OverwriteData, ':').Ok? && Interpolate(Overwrite(t, OverwriteData, ':').value, None) == Ok(OverwriteData)
  {
    assert Plain(OverwriteBefore) && NoQueryText(OverwriteBefore);
    assert Plain(OverwriteData) && NoQueryText(OverwriteData);
    ConstructThenInterpolate(OverwriteBefore, ':', None);
    OverwriteThenInterpolate(Construct(OverwriteBefore, ':').value, OverwriteData, ':', None);
  }

  const TypesRaw: Value := Dict([
    Entry("alpha", Dict([Entry("one", I(1)), Entry("two", I(2))], false)),
    Entry("beta", List([I(1), I(2)], false))], false)

  /** Lines 38-43: building gives typed containers, interpolating gives the
      same data back in plain containers. */
  lemma TypesExample()
    ensures Construct(TypesRaw, ':').Ok? && AllTyped(Construct(TypesRaw, ':').value)
    ensures Interpolate(Construct(TypesRaw, ':').value, None) == Ok(TypesRaw)
  {
    assert Plain(TypesRaw) && NoQueryText(TypesRaw);
    ConstructThenInterpolate(TypesRaw, ':', None);
  }

  // ---------------------------------------------------------------------------
  // Lines 45-57: a malformed query fails the construction of the tree.

  /** Building a tree with one key that holds a rejected query text fails
      with the parser's error (a text that is not of query shape is kept as
      a plain string instead). */
  lemma BuildRejects(k: string, text: string, e: ParseError)
    requires ParseQuery(text, ':') == Err(e) && e != NotAQuery
    ensures Construct(Dict([Entry(k, S(text))], false), ':') == Err(e)
  {
    assert IsQueryShape(text);
    assert Construct(S(text), ':') == Err(e);
    assert ConstructEntries([Entry(k, S(text))], ':') == Err(e);
  }

  /** Lines 46-57: each of the six malformed texts makes the construction of
      `{exp: <text>}` fail, before any interpolation. */
  lemma MalformedQueries()
    ensures Construct(Dict([Entry("exp", S(MissingIfText))], false), ':') == Err(ExpectedIf)
    ensures Construct(Dict([Entry("exp", S(MissingEqualsText))], false), ':') == Err(ExpectedEquals)
    ensures Construct(Dict([Entry("exp", S(MissingOperandText))], false), ':') == Err(ExpectedOperand)
    ensures Construct(Dict([Entry("exp", S(SingleEqualsText))], false), ':') == Err(ExpectedEquals)
    ensures Construct(Dict([Entry("exp", S(TruncatedOrText))], false), ':') == Err(ExpectedOperand)
    ensures Construct(Dict([Entry("exp", S(UnknownConnectorText))], false), ':') == Err(ExpectedConnector)
  {
    RejectsMissingIf();
    BuildRejects("exp", MissingIfText, ExpectedIf);
    RejectsMissingEquals();
    BuildRejects("exp", MissingEqualsText, ExpectedEquals);
    RejectsMissingOperand();
    BuildRejects("exp", MissingOperandText, ExpectedOperand);
    RejectsSingleEquals();
    BuildRejects("exp", SingleEqualsText, ExpectedEquals);
    RejectsTruncatedOr();
    BuildRejects("exp", TruncatedOrText, ExpectedOperand);
    RejectsUnknownConnector();
    BuildRejects("exp", UnknownConnectorText, ExpectedConnector);
  }

  const UnclosedText: string := "$[ exports:a"
  const StrayBracketText: string := "$[ if exports:a == ] ]"

  /** A text that opens a query without closing it, and one with a stray `]`
      before the closing one, fail the construction in the same way. */
  lemma UnbalancedQueries()
    ensures Construct(Dict([Entry("exp", S(UnclosedText))], false), ':') == Err(UnbalancedBracket)
    ensures Construct(Dict([Entry("exp", S(StrayBracketText))], false), ':') == Err(UnbalancedBracket)
  {
    var s := StrayBracketText;
    assert s[2..|s| - 1][17] == ']';
    BuildRejects("exp", UnclosedText, UnbalancedBracket);
    BuildRejects("exp", StrayBracketText, UnbalancedBracket);
  }

  // ---------------------------------------------------------------------------
  // Lines 59-71: a value query, without and with a condition.

  const TwoNodes: Inventory := [
    Node("node1", [Entry("a", I(1)), Entry("b", I(2))], true),
    Node("node2", [Entry("a", I(3)), Entry("b", I(4))], true)]

  const ValueTree: Value := Dict([Entry("exp", Pending([ValueQ]))], true)
  const ValueOut: Value := Dict([Entry("node1", I(1)), Entry("node2", I(3))], false)

  lemma EvaluatesValue()
    ensures Evaluate(ValueQ, ValueTree, TwoNodes) == ValueOut
  {
    var n1, n2 := TwoNodes[0], TwoNodes[1];
    assert TwoNodes == [n1, n2];
    Candidates2(ValueQ, ValueTree, n1, n2);
    LookupKey(n1.exports.entries, "a");
    LookupKey(n2.exports.entries, "a");
    Find2(Entry("a", I(1)), Entry("b", I(2)), "a");
    Find2(Entry("a", I(3)), Entry("b", I(4)), "a");
    ValueResult2(["a"], n1, n2, I(1), I(3));
  }

  /** Line 61: `$[ exports:a ]` maps every node to its export `a`. */
  lemma ValueQuery()
    ensures Yields(Dict([Entry("exp", S(ValueText))], false), TwoNodes, Dict([Entry("exp", ValueOut)], false))
  {
    ReadsValue();
    EvaluatesValue();
    OneQuery("exp", ValueText, ValueQ, TwoNodes, ValueOut);
  }

  const FilteredTree: Value := Dict([Entry("exp", Pending([FilteredQ]))], true)
  const FilteredOut: Value := Dict([Entry("node2", I(3))], false)

  lemma EvaluatesFiltered()
    ensures Evaluate(FilteredQ, FilteredTree, TwoNodes) == FilteredOut
  {
    var n1, n2 := TwoNodes[0], TwoNodes[1];
    assert TwoNodes == [n1, n2];
    assert !Matches(FilteredQ, FilteredTree, n1) by {
      MatchesOne(false, Some(["a"]), ExportIs("b", 4), FilteredTree, n1);
      HoldsLit("b", Int(4), FilteredTree, n1.exports.entries);
      Find2(Entry("a", I(1)), Entry("b", I(2)), "b");
    }
    assert Matches(FilteredQ, FilteredTree, n2) by {
      MatchesOne(false, Some(["a"]), ExportIs("b", 4), FilteredTree, n2);
      HoldsLit("b", Int(4), FilteredTree, n2.exports.entries);
      Find2(Entry("a", I(3)), Entry("b", I(4)), "b");
    }
    Candidates2(FilteredQ, FilteredTree, n1, n2);
    LookupKey(n2.exports.entries, "a");
    Find2(Entry("a", I(3)), Entry("b", I(4)), "a");
    ValueResult1(["a"], n2, I(3));
  }

  /** Line 68: only the node whose `b` is 4 is kept. */
  lemma FilteredQuery()
    ensures Yields(Dict([Entry("exp", S(FilteredText))], false), TwoNodes, Dict([Entry("exp", FilteredOut)], false))
  {
    ReadsFiltered();
    EvaluatesFiltered();
    OneQuery("exp", FilteredText, FilteredQ, TwoNodes, FilteredOut);
  }

  // ---------------------------------------------------------------------------
  // Lines 73-78: a `self:` operand reads the issuing tree.

  const SelfTree: Value := Dict([Entry("exp", Pending([SelfQ])), Entry("test_value", I(2))], true)
  const SelfOut: Value := Dict([Entry("node1", I(1))], false)

  lemma SelfValue()
    ensures Lookup(SelfTree, ["test_value"]) == Some(I(2))
  {
    LookupKey(SelfTree.entries, "test_value");
    Find2(Entry("exp", Pending([SelfQ])), Entry("test_value", I(2)), "test_value");
  }

  lemma CandidatesSelf()
    ensures Candidates(SelfQ, SelfTree, TwoNodes) == [TwoNodes[0]]
  {
    var n1, n2 := TwoNodes[0], TwoNodes[1];
    assert TwoNodes == [n1, n2];
    var c := Equals(ExportsRef(["b"]), SelfRef(["test_value"]));
    SelfValue();
    assert Matches(SelfQ, SelfTree, n1) by {
      MatchesOne(false, Some(["a"]), c, SelfTree, n1);
      LookupKey(n1.exports.entries, "b");
      Find2(Entry("a", I(1)), Entry("b", I(2)), "b");
    }
    assert !Matches(SelfQ, SelfTree, n2) by {
      MatchesOne(false, Some(["a"]), c, SelfTree, n2);
      LookupKey(n2.exports.entries, "b");
      Find2(Entry("a", I(3)), Entry("b", I(4)), "b");
    }
    Candidates2(SelfQ, SelfTree, n1, n2);
  }

  lemma EvaluatesSelf()
    ensures SelfRefsResolve(SelfQ, SelfTree)
    ensures Evaluate(SelfQ, SelfTree, TwoNodes) == SelfOut
  {
    var n1 := TwoNodes[0];
    SelfValue();
    CandidatesSelf();
    LookupKey(n1.exports.entries, "a");
    Find2(Entry("a", I(1)), Entry("b", I(2)), "a");
    ValueResult1(["a"], n1, I(1));
  }

  /** Line 75: `self:test_value` is 2 in the issuing tree, so the node whose
      `b` is 2 is kept; the plain key comes out unchanged. */
  lemma SelfQuery()
    ensures Yields(Dict([Entry("exp", S(SelfText)), Entry("test_value", I(2))], false), TwoNodes,
                   Dict([Entry("exp", SelfOut), Entry("test_value", I(2))], false))
  {
    ReadsSelf();
    BuildsQuery(SelfText, SelfQ);
    BuildTwo("exp", S(SelfText), Pending([SelfQ]), "test_value", I(2), I(2));
    EvaluatesSelf();
    ResolvesQuery(SelfQ, SelfTree, TwoNodes, SelfOut);
    InterpolateTwo("exp", Pending([SelfQ]), "test_value", I(2), TwoNodes, SelfOut, I(2));
  }

  // ---------------------------------------------------------------------------
  // Lines 80-85: a list query lists the matching nodes in inventory order.

  const ListNodes: Inventory := [
    Node("node1", [Entry("a", I(1)), Entry("b", I(2))], true),
    Node("node2", [Entry("a", I(3)), Entry("b", I(3))], true),
    Node("node3", [Entry("a", I(3)), Entry("b", I(2))], true)]

  const ListTree: Value := Dict([Entry("exp", Pending([ListQ]))], true)
  const ListOut: Value := NameList(["node1", "node3"])

  lemma CandidatesList()
    ensures Candidates(ListQ, ListTree, ListNodes) == [ListNodes[0], ListNodes[2]]
  {
    var n1, n2, n3 := ListNodes[0], ListNodes[1], ListNodes[2];
    assert ListNodes == [n1, n2, n3];
    assert Matches(ListQ, ListTree, n1) by {
      MatchesOne(false, None, ExportIs("b", 2), ListTree, n1);
      HoldsLit("b", Int(2), ListTree, n1.exports.entries);
      Find2(Entry("a", I(1)), Entry("b", I(2)), "b");
    }
    assert !Matches(ListQ, ListTree, n2) by {
      MatchesOne(false, None, ExportIs("b", 2), ListTree, n2);
      HoldsLit("b", Int(2), ListTree, n2.exports.entries);
      Find2(Entry("a", I(3)), Entry("b", I(3)), "b");
    }
    assert Matches(ListQ, ListTree, n3) by {
      MatchesOne(false, None, ExportIs("b", 2), ListTree, n3);
      HoldsLit("b", Int(2), ListTree, n3.exports.entries);
      Find2(Entry("a", I(3)), Entry("b", I(2)), "b");
    }
    Candidates3(ListQ, ListTree, n1, n2, n3);
  }

  lemma EvaluatesList()
    ensures Evaluate(ListQ, ListTree, ListNodes) == ListOut
  {
    CandidatesList();
    Names2(ListNodes[0], ListNodes[2]);
  }

  /** Line 82: `$[ if exports:b == 2 ]` lists node1 and node3. */
  lemma ListQuery()
    ensures Yields(Dict([Entry("exp", S(ListText))], false), ListNodes, Dict([Entry("exp", ListOut)], false))
  {
    ReadsList();
    EvaluatesList();
    OneQuery("exp", ListText, ListQ, ListNodes, ListOut);
  }

  // ---------------------------------------------------------------------------
  // Lines 87-99: `and` and `or` in a value query.

  const AndNodes: Inventory := [
    Node("node1", [Entry("a", I(1)), Entry("b", I(4)), Entry("c", Leaf(Bool(false)))], true),
    Node("node2", [Entry("a", I(3)), Entry("b", I(4)), Entry("c", Leaf(Bool(true)))], true)]

  const AndTree: Value := Dict([Entry("exp", Pending([AndQ]))], true)
  const AndOut: Value := Dict([Entry("node2", I(3))], false)

  lemma CandidatesAnd()
    ensures Candidates(AndQ, AndTree, AndNodes) == [AndNodes[1]]
  {
    var n1, n2 := AndNodes[0], AndNodes[1];
    assert AndNodes == [n1, n2];
    var c1, c2 := ExportIs("b", 4), Equals(ExportsRef(["c"]), Lit(Bool(true)));
    assert !Matches(AndQ, AndTree, n1) by {
      MatchesBoth(false, Some(["a"]), c1, c2, AndTree, n1);
      HoldsLit("c", Bool(true), AndTree, n1.exports.entries);
      Find3(Entry("a", I(1)), Entry("b", I(4)), Entry("c", Leaf(Bool(false))), "c");
    }
    assert Matches(AndQ, AndTree, n2) by {
      MatchesBoth(false, Some(["a"]), c1, c2, AndTree, n2);
      HoldsLit("b", Int(4), AndTree, n2.exports.entries);
      HoldsLit("c", Bool(true), AndTree, n2.exports.entries);
      Find3(Entry("a", I(3)), Entry("b", I(4)), Entry("c", Leaf(Bool(true))), "b");
      Find3(Entry("a", I(3)), Entry("b", I(4)), Entry("c", Leaf(Bool(true))), "c");
    }
    Candidates2(AndQ, AndTree, n1, n2);
  }

  lemma EvaluatesAnd()
    ensures Evaluate(AndQ, AndTree, AndNodes) == AndOut
  {
    var n2 := AndNodes[1];
    CandidatesAnd();
    LookupKey(n2.exports.entries, "a");
    Find3(Entry("a", I(3)), Entry("b", I(4)), Entry("c", Leaf(Bool(true))), "a");
    ValueResult1(["a"], n2, I(3));
  }

  /** Line 89: both comparisons must hold; node1's `c` is false. */
  lemma AndQuery()
    ensures Yields(Dict([Entry("exp", S(AndText))], false), AndNodes, Dict([Entry("exp", AndOut)], false))
  {
    ReadsAnd();
    EvaluatesAnd();
    OneQuery("exp", AndText, AndQ, AndNodes, AndOut);
  }

  const OrNodes: Inventory := [
    Node("node1", [Entry("a", I(1)), Entry("b", I(4))], true),
    Node("node2", [Entry("a", I(3)), Entry("b", I(3))], true)]

  const OrTree: Value := Dict([Entry("exp", Pending([OrQ]))], true)
  const OrOut: Value := Dict([Entry("node1", I(1)), Entry("node2", I(3))], false)

  lemma CandidatesOr()
    ensures Candidates(OrQ, OrTree, OrNodes) == OrNodes
  {
    var n1, n2 := OrNodes[0], OrNodes[1];
    assert OrNodes == [n1, n2];
    var c1, c2 := ExportIs("b", 4), ExportIs("b", 3);
    assert Matches(OrQ, OrTree, n1) by {
      MatchesEither(false, Some(["a"]), c1, c2, OrTree, n1);
      HoldsLit("b", Int(4), OrTree, n1.exports.entries);
      Find2(Entry("a", I(1)), Entry("b", I(4)), "b");
    }
    assert Matches(OrQ, OrTree, n2) by {
      MatchesEither(false, Some(["a"]), c1, c2, OrTree, n2);
      HoldsLit("b", Int(3), OrTree, n2.exports.entries);
      Find2(Entry("a", I(3)), Entry("b", I(3)), "b");
    }
    Candidates2(OrQ, OrTree, n1, n2);
  }

  lemma EvaluatesOr()
    ensures Evaluate(OrQ, OrTree, OrNodes) == OrOut
  {
    var n1, n2 := OrNodes[0], OrNodes[1];
    assert OrNodes == [n1, n2];
    CandidatesOr();
    LookupKey(n1.exports.entries, "a");
    LookupKey(n2.exports.entries, "a");
    Find2(Entry("a", I(1)), Entry("b", I(4)), "a");
    Find2(Entry("a", I(3)), Entry("b", I(3)), "a");
    ValueResult2(["a"], n1, n2, I(1), I(3));
  }

  /** Line 96: one comparison suffices; each node satisfies one of them. */
  lemma OrQuery()
    ensures Yields(Dict([Entry("exp", S(OrText))], false), OrNodes, Dict([Entry("exp", OrOut)], false))
  {
    ReadsOr();
    EvaluatesOr();
    OneQuery("exp", OrText, OrQ, OrNodes, OrOut);
  }

  // ---------------------------------------------------------------------------
  // Lines 101-129: `and` and `or` in a list query, and a missing export.

  const GreenNodes: Inventory := [
    Node("node1", [Entry("a", I(1)), Entry("b", I(2)), Entry("c", S("green"))], true),
    Node("node2", [Entry("a", I(3)), Entry("b", I(3))], true),
    Node("node3", [Entry("a", I(3)), Entry("b", I(2)), Entry("c", S("red"))], true)]

  const GreenTree: Value := Dict([Entry("exp", Pending([GreenQ]))], true)
  const GreenOut: Value := NameList(["node1"])

  lemma CandidatesGreen()
    ensures Candidates(GreenQ, GreenTree, GreenNodes) == [GreenNodes[0]]
  {
    var n1, n2, n3 := GreenNodes[0], GreenNodes[1], GreenNodes[2];
    assert GreenNodes == [n1, n2, n3];
    var c1, c2 := ExportIs("b", 2), Equals(ExportsRef(["c"]), Lit(Str("green")));
    assert Matches(GreenQ, GreenTree, n1) by {
      MatchesBoth(false, None, c1, c2, GreenTree, n1);
      HoldsLit("b", Int(2), GreenTree, n1.exports.entries);
      HoldsLit("c", Str("green"), GreenTree, n1.exports.entries);
      Find3(Entry("a", I(1)), Entry("b", I(2)), Entry("c", S("green")), "b");
      Find3(Entry("a", I(1)), Entry("b", I(2)), Entry("c", S("green")), "c");
    }
    assert !Matches(GreenQ, GreenTree, n2) by {
      MatchesBoth(false, None, c1, c2, GreenTree, n2);
      HoldsLit("b", Int(2), GreenTree, n2.exports.entries);
      Find2(Entry("a", I(3)), Entry("b", I(3)), "b");
    }
    assert !Matches(GreenQ, GreenTree, n3) by {
      MatchesBoth(false, None, c1, c2, GreenTree, n3);
      HoldsLit("c", Str("green"), GreenTree, n3.exports.entries);
      Find3(Entry("a", I(3)), Entry("b", I(2)), Entry("c", S("red")), "c");
    }
    Candidates3(GreenQ, GreenTree, n1, n2, n3);
  }

  lemma EvaluatesGreen()
    ensures Evaluate(GreenQ, GreenTree, GreenNodes) == GreenOut
  {
    CandidatesGreen();
    Names1(GreenNodes[0]);
  }

  /** Line 106: only node1 has both `b` 2 and `c` green. */
  lemma GreenQuery()
    ensures Yields(Dict([Entry("exp", S(GreenText))], false), GreenNodes, Dict([Entry("exp", GreenOut)], false))
  {
    ReadsGreen();
    EvaluatesGreen();
    OneQuery("exp", GreenText, GreenQ, GreenNodes, GreenOut);
  }

  const MissingNodes: Inventory := [
    Node("node1", [Entry("a", I(1)), Entry("b", I(2)), Entry("c", S("green"))], true),
    Node("node2", [Entry("a", I(3)), Entry("b", I(3))], true),
    Node("node3", [Entry("a", I(3)), Entry("b", I(2))], true)]

  lemma CandidatesMissing()
    ensures Candidates(GreenQ, GreenTree, MissingNodes) == [MissingNodes[0]]
  {
    var n1, n2, n3 := MissingNodes[0], MissingNodes[1], MissingNodes[2];
    assert MissingNodes == [n1, n2, n3];
    var c1, c2 := ExportIs("b", 2), Equals(ExportsRef(["c"]), Lit(Str("green")));
    assert Matches(GreenQ, GreenTree, n1) by {
      MatchesBoth(false, None, c1, c2, GreenTree, n1);
      HoldsLit("b", Int(2), GreenTree, n1.exports.entries);
      HoldsLit("c", Str("green"), GreenTree, n1.exports.entries);
      Find3(Entry("a", I(1)), Entry("b", I(2)), Entry("c", S("green")), "b");
      Find3(Entry("a", I(1)), Entry("b", I(2)), Entry("c", S("green")), "c");
    }
    assert !Matches(GreenQ, GreenTree, n2) by {
      MatchesBoth(false, None, c1, c2, GreenTree, n2);
      HoldsLit("b", Int(2), GreenTree, n2.exports.entries);
      Find2(Entry("a", I(3)), Entry("b", I(3)), "b");
    }
    assert !Matches(GreenQ, GreenTree, n3) by {
      LookupKey(n3.exports.entries, "c");
      Find2(Entry("a", I(3)), Entry("b", I(2)), "c");
      MissingExportExcludes(GreenQ, GreenTree, n3, 1, ["c"]);
    }
    Candidates3(GreenQ, GreenTree, n1, n2, n3);
  }

  lemma EvaluatesMissing()
    ensures Evaluate(GreenQ, GreenTree, MissingNodes) == GreenOut
  {
    CandidatesMissing();
    Names1(MissingNodes[0]);
  }

  /** Line 115: node3 has no export `c`; the comparison on it is false and
      the query still succeeds. */
  lemma MissingPathQuery()
    ensures Yields(Dict([Entry("exp", S(GreenText))], false), MissingNodes, Dict([Entry("exp", GreenOut)], false))
  {
    ReadsGreen();
    EvaluatesMissing();
    OneQuery("exp", GreenText, GreenQ, MissingNodes, GreenOut);
  }

  const ListOrNodes: Inventory := [
    Node("node1", [Entry("a", I(1)), Entry("b", I(2))], true),
    Node("node2", [Entry("a", I(3)), Entry("b", I(3))], true),
    Node("node3", [Entry("a", I(3)), Entry("b", I(4))], true)]

  const ListOrTree: Value := Dict([Entry("exp", Pending([ListOrQ]))], true)

  lemma CandidatesListOr()
    ensures Candidates(ListOrQ, ListOrTree, ListOrNodes) == [ListOrNodes[0], ListOrNodes[2]]
  {
    var n1, n2, n3 := ListOrNodes[0], ListOrNodes[1], ListOrNodes[2];
    assert ListOrNodes == [n1, n2, n3];
    var c1, c2 := ExportIs("b", 2), ExportIs("b", 4);
    assert Matches(ListOrQ, ListOrTree, n1) by {
      MatchesEither(false, None, c1, c2, ListOrTree, n1);
      HoldsLit("b", Int(2), ListOrTree, n1.exports.entries);
      Find2(Entry("a", I(1)), Entry("b", I(2)), "b");
    }
    assert !Matches(ListOrQ, ListOrTree, n2) by {
      MatchesEither(false, None, c1, c2, ListOrTree, n2);
      HoldsLit("b", Int(2), ListOrTree, n2.exports.entries);
      HoldsLit("b", Int(4), ListOrTree, n2.exports.entries);
      Find2(Entry("a", I(3)), Entry("b", I(3)), "b");
    }
    assert Matches(ListOrQ, ListOrTree, n3) by {
      MatchesEither(false, None, c1, c2, ListOrTree, n3);
      HoldsLit("b", Int(4), ListOrTree, n3.exports.entries);
      Find2(Entry("a", I(3)), Entry("b", I(4)), "b");
    }
    Candidates3(ListOrQ, ListOrTree, n1, n2, n3);
  }

  lemma EvaluatesListOr()
    ensures Evaluate(ListOrQ, ListOrTree, ListOrNodes) == ListOut
  {
    CandidatesListOr();
    Names2(ListOrNodes[0], ListOrNodes[2]);
  }

  /** Line 126: node1 and node3 each satisfy one of the comparisons. */
  lemma ListOrQuery()
    ensures Yields(Dict([Entry("exp", S(ListOrText))], false), ListOrNodes, Dict([Entry("exp", ListOut)], false))
  {
    ReadsListOr();
    EvaluatesListOr();
    OneQuery("exp", ListOrText, ListOrQ, ListOrNodes, ListOut);
  }

  // ---------------------------------------------------------------------------
  // Lines 131-138: merging two trees accumulates their list queries.

  const MergeNodes: Inventory := [
    Node("node1", [Entry("a", I(1))], true),
    Node("node2", [Entry("a", I(1))], true),
    Node("node3", [Entry("a", I(2))], true)]

  const MergedTree: Value := Dict([Entry("exp", Pending([AIsOneQ, AIsTwoQ]))], true)
  const MergedOut: Value := NameList(["node1", "node2", "node3"])

  /** Merging two one-key dictionaries with the same key merges the values. */
  lemma MergeOneKey(k: string, v1: Value, v2: Value, t1: bool, t2: bool)
    ensures Merge(Dict([Entry(k, v1)], t1), Dict([Entry(k, v2)], t2)) == Dict([Entry(k, Merge(v1, v2))], t1 || t2)
  {
    var ea, eb := [Entry(k, v1)], [Entry(k, v2)];
    assert Index(ea, k) == Some(0);
    assert MergeKey(ea, k, v2) == [Entry(k, Merge(v1, v2))];
    assert eb[1..] == [];
    assert MergeEntries(ea, eb) == MergeEntries(MergeKey(ea, k, v2), []);
  }

  /** Interpolating a key that holds two accumulated list queries. */
  lemma InterpolateAccumulated(k: string, q1: Query, q2: Query, inv: Inventory, v: Value)
    requires IsListQuery(q1) && IsListQuery(q2) && SelfFree(q1) && SelfFree(q2) && DistinctNames(inv)
    requires var t := Dict([Entry(k, Pending([q1, q2]))], true);
      v == NameList(Union(ListResult(q1, t, inv), ListResult(q2, t, inv)))
    ensures Interpolate(Dict([Entry(k, Pending([q1, q2]))], true), Some(inv)) == Ok(Dict([Entry(k, v)], false))
  {
    ResolvesAccumulated(Dict([Entry(k, Pending([q1, q2]))], true), q1, q2, inv, v);
    InterpolateSingle(k, Pending([q1, q2]), inv, v);
  }

  lemma ResolvesAccumulated(t: Value, q1: Query, q2: Query, inv: Inventory, v: Value)
    requires IsListQuery(q1) && IsListQuery(q2) && SelfFree(q1) && SelfFree(q2) && DistinctNames(inv)
    requires v == NameList(Union(ListResult(q1, t, inv), ListResult(q2, t, inv)))
    ensures Resolve(Pending([q1, q2]), t, Some(inv)) == Ok(v)
  {
    SelfFreeResolves(q1, t);
    SelfFreeResolves(q2, t);
    TwoListQueriesUnion(q1, q2, t, inv);
  }

  lemma BuildsMergeFirst()
    ensures Construct(MergeFirst, ':') == Ok(Dict([Entry("exp", Pending([AIsOneQ]))], true))
  {
    ReadsAIsOne();
    BuildOne("exp", AIsOneText, AIsOneQ);
  }

  lemma BuildsMergeSecond()
    ensures Construct(MergeSecond, ':') == Ok(Dict([Entry("exp", Pending([AIsTwoQ]))], true))
  {
    ReadsAIsTwo();
    BuildOne("exp", AIsTwoText, AIsTwoQ);
  }

  lemma BuildsMerged()
    ensures Construct(MergeFirst, ':') == Ok(Dict([Entry("exp", Pending([AIsOneQ]))], true))
    ensures Construct(MergeSecond, ':') == Ok(Dict([Entry("exp", Pending([AIsTwoQ]))], true))
    ensures Merge(Dict([Entry("exp", Pending([AIsOneQ]))], true), Dict([Entry("exp", Pending([AIsTwoQ]))], true)) == MergedTree
  {
    BuildsMergeFirst();
    BuildsMergeSecond();
    MergeOneKey("exp", Pending([AIsOneQ]), Pending([AIsTwoQ]), true, true);
    assert [AIsOneQ] + [AIsTwoQ] == [AIsOneQ, AIsTwoQ];
  }

  lemma ListsAIsOne()
    ensures ListResult(AIsOneQ, MergedTree, MergeNodes) == ["node1", "node2"]
  {
    var n1, n2, n3 := MergeNodes[0], MergeNodes[1], MergeNodes[2];
    assert MergeNodes == [n1, n2, n3];
    MergeExports();
    assert Matches(AIsOneQ, MergedTree, n1) by {
      MatchesOne(false, None, ExportIs("a", 1), MergedTree, n1);
    }
    assert Matches(AIsOneQ, MergedTree, n2) by {
      MatchesOne(false, None, ExportIs("a", 1), MergedTree, n2);
    }
    assert !Matches(AIsOneQ, MergedTree, n3) by {
      MatchesOne(false, None, ExportIs("a", 1), MergedTree, n3);
    }
    Candidates3(AIsOneQ, MergedTree, n1, n2, n3);
    Names2(n1, n2);
  }

  lemma ListsAIsTwo()
    ensures ListResult(AIsTwoQ, MergedTree, MergeNodes) == ["node3"]
  {
    var n1, n2, n3 := MergeNodes[0], MergeNodes[1], MergeNodes[2];
    assert MergeNodes == [n1, n2, n3];
    MergeExports();
    assert !Matches(AIsTwoQ, MergedTree, n1) by {
      MatchesOne(false, None, ExportIs("a", 2), MergedTree, n1);
    }
    assert !Matches(AIsTwoQ, MergedTree, n2) by {
      MatchesOne(false, None, ExportIs("a", 2), MergedTree, n2);
    }
    assert Matches(AIsTwoQ, MergedTree, n3) by {
      MatchesOne(false, None, ExportIs("a", 2), MergedTree, n3);
    }
    Candidates3(AIsTwoQ, MergedTree, n1, n2, n3);
    Names1(n3);
  }

  /** The export `a` of each node of `MergeNodes`. */
  lemma MergeExports()
    ensures Lookup(MergeNodes[0].exports, ["a"]) == Some(I(1))
    ensures Lookup(MergeNodes[1].exports, ["a"]) == Some(I(1))
    ensures Lookup(MergeNodes[2].exports, ["a"]) == Some(I(2))
  {
    LookupKey([Entry("a", I(1))], "a");
    LookupKey([Entry("a", I(2))], "a");
    Find1(Entry("a", I(1)), "a");
    Find1(Entry("a", I(2)), "a");
  }

  lemma UnionMerged()
    ensures Union(["node1", "node2"], ["node3"]) == ["node1", "node2", "node3"]
  {
    assert ["node1", "node2"] + ["node3"] == ["node1", "node2", "node3"];
    UnionOfDisjoint(["node1", "node2"], ["node3"]);
  }

  lemma MergedListsUnion()
    ensures MergedOut == NameList(Union(ListResult(AIsOneQ, MergedTree, MergeNodes), ListResult(AIsTwoQ, MergedTree, MergeNodes)))
  {
    ListsAIsOne();
    ListsAIsTwo();
    UnionMerged();
  }

  lemma MergeNodesDistinct()
    ensures DistinctNames(MergeNodes)
  {
    Names3(MergeNodes[0], MergeNodes[1], MergeNodes[2]);
    assert MergeNodes == [MergeNodes[0], MergeNodes[1], MergeNodes[2]];
  }

  lemma InterpolatesMerged()
    ensures Interpolate(MergedTree, Some(MergeNodes)) == Ok(Dict([Entry("exp", MergedOut)], false))
  {
    MergedListsUnion();
    MergeNodesDistinct();
    ReadsAIsOne();
    ReadsAIsTwo();
    assert IsListQuery(AIsOneQ) && IsListQuery(AIsTwoQ);
    InterpolateAccumulated("exp", AIsOneQ, AIsTwoQ, MergeNodes, MergedOut);
  }

  const MergeFirst: Value := Dict([Entry("exp", S(AIsOneText))], false)
  const MergeSecond: Value := Dict([Entry("exp", S(AIsTwoText))], false)

  /** Line 136: after merging, the key lists the nodes of both queries. */
  lemma MergedQueries()
    ensures Construct(MergeFirst, ':').Ok? && Construct(MergeSecond, ':').Ok?
    ensures Interpolate(Merge(Construct(MergeFirst, ':').value, Construct(MergeSecond, ':').value), Some(MergeNodes))
      == Ok(Dict([Entry("exp", MergedOut)], false))
  {
    BuildsMerged();
    InterpolatesMerged();
  }

  // ---------------------------------------------------------------------------
  // Lines 140-174: the same query without and with `+AllEnvs`.

  const ValueFlagNodes: Inventory := [
    Node("node1", [Entry("a", I(1))], true),
    Node("node2", [Entry("a", I(2))], true),
    Node("node3", [Entry("a", I(3))], false)]

  const ValueFlagTree: Value := Dict([Entry("alpha", Pending([ValueQ])), Entry("beta", Pending([AllEnvsValueQ]))], true)
  const ScopedValueOut: Value := Dict([Entry("node1", I(1)), Entry("node2", I(2))], false)
  const AllEnvsValueOut: Value := Dict([Entry("node1", I(1)), Entry("node2", I(2)), Entry("node3", I(3))], false)

  lemma CandidatesScopedValue()
    ensures Candidates(ValueQ, ValueFlagTree, ValueFlagNodes) == [ValueFlagNodes[0], ValueFlagNodes[1]]
  {
    var n1, n2, n3 := ValueFlagNodes[0], ValueFlagNodes[1], ValueFlagNodes[2];
    assert ValueFlagNodes == [n1, n2, n3];
    assert Matches(ValueQ, ValueFlagTree, n1) && Matches(ValueQ, ValueFlagTree, n2);
    assert !Matches(ValueQ, ValueFlagTree, n3);
    Candidates3(ValueQ, ValueFlagTree, n1, n2, n3);
  }

  lemma CandidatesAllEnvsValue()
    ensures Candidates(AllEnvsValueQ, ValueFlagTree, ValueFlagNodes) == ValueFlagNodes
  {
    var n1, n2, n3 := ValueFlagNodes[0], ValueFlagNodes[1], ValueFlagNodes[2];
    assert ValueFlagNodes == [n1, n2, n3];
    assert Matches(AllEnvsValueQ, ValueFlagTree, n1) && Matches(AllEnvsValueQ, ValueFlagTree, n2);
    assert Matches(AllEnvsValueQ, ValueFlagTree, n3);
    Candidates3(AllEnvsValueQ, ValueFlagTree, n1, n2, n3);
  }

  /** The export `a` of each node of `ValueFlagNodes`. */
  lemma ValueFlagExports()
    ensures Lookup(ValueFlagNodes[0].exports, ["a"]) == Some(I(1))
    ensures Lookup(ValueFlagNodes[1].exports, ["a"]) == Some(I(2))
    ensures Lookup(ValueFlagNodes[2].exports, ["a"]) == Some(I(3))
  {
    LookupKey([Entry("a", I(1))], "a");
    LookupKey([Entry("a", I(2))], "a");
    LookupKey([Entry("a", I(3))], "a");
    Find1(Entry("a", I(1)), "a");
    Find1(Entry("a", I(2)), "a");
    Find1(Entry("a", I(3)), "a");
  }

  lemma EvaluatesScopedValue()
    ensures Evaluate(ValueQ, ValueFlagTree, ValueFlagNodes) == ScopedValueOut
  {
    CandidatesScopedValue();
    ValueFlagExports();
    ValueResult2(["a"], ValueFlagNodes[0], ValueFlagNodes[1], I(1), I(2));
  }

  lemma EvaluatesAllEnvsValue()
    ensures Evaluate(AllEnvsValueQ, ValueFlagTree, ValueFlagNodes) == AllEnvsValueOut
  {
    var n1, n2, n3 := ValueFlagNodes[0], ValueFlagNodes[1], ValueFlagNodes[2];
    assert ValueFlagNodes == [n1, n2, n3];
    CandidatesAllEnvsValue();
    ValueFlagExports();
    ValueResult3(["a"], n1, n2, n3, I(1), I(2), I(3));
  }

  /** Line 144: node3 is out of scope; only `+AllEnvs` sees it. */
  lemma ValueFlagQueries()
    ensures Yields(Dict([Entry("alpha", S(ValueText)), Entry("beta", S(AllEnvsValueText))], false), ValueFlagNodes,
                   Dict([Entry("alpha", ScopedValueOut), Entry("beta", AllEnvsValueOut)], false))
  {
    ReadsValue();
    ReadsAllEnvsValue();
    EvaluatesScopedValue();
    EvaluatesAllEnvsValue();
    TwoQueries("alpha", ValueText, ValueQ, "beta", AllEnvsValueText, AllEnvsValueQ, ValueFlagNodes, ScopedValueOut, AllEnvsValueOut);
  }

  const FilterFlagNodes: Inventory := [
    Node("node1", [Entry("a", I(1)), Entry("b", I(1))], true),
    Node("node2", [Entry("a", I(2)), Entry("b", I(2))], true),
    Node("node3", [Entry("a", I(3)), Entry("b", I(2))], false)]

  const FilterFlagTree: Value := Dict([Entry("alpha", Pending([BIsTwoQ])), Entry("beta", Pending([AllEnvsBIsTwoQ]))], true)
  const ScopedFilterOut: Value := Dict([Entry("node2", I(2))], false)
  const AllEnvsFilterOut: Value := Dict([Entry("node2", I(2)), Entry("node3", I(3))], false)

  lemma CandidatesScopedFilter()
    ensures Candidates(BIsTwoQ, FilterFlagTree, FilterFlagNodes) == [FilterFlagNodes[1]]
  {
    var n1, n2, n3 := FilterFlagNodes[0], FilterFlagNodes[1], FilterFlagNodes[2];
    assert FilterFlagNodes == [n1, n2, n3];
    assert !Matches(BIsTwoQ, FilterFlagTree, n1) by {
      MatchesOne(false, Some(["a"]), ExportIs("b", 2), FilterFlagTree, n1);
      HoldsLit("b", Int(2), FilterFlagTree, n1.exports.entries);
      Find2(Entry("a", I(1)), Entry("b", I(1)), "b");
    }
    assert Matches(BIsTwoQ, FilterFlagTree, n2) by {
      MatchesOne(false, Some(["a"]), ExportIs("b", 2), FilterFlagTree, n2);
      HoldsLit("b", Int(2), FilterFlagTree, n2.exports.entries);
      Find2(Entry("a", I(2)), Entry("b", I(2)), "b");
    }
    assert !Matches(BIsTwoQ, FilterFlagTree, n3) by {
      MatchesOne(false, Some(["a"]), ExportIs("b", 2), FilterFlagTree, n3);
    }
    Candidates3(BIsTwoQ, FilterFlagTree, n1, n2, n3);
  }

  lemma CandidatesAllEnvsFilter()
    ensures Candidates(AllEnvsBIsTwoQ, FilterFlagTree, FilterFlagNodes) == [FilterFlagNodes[1], FilterFlagNodes[2]]
  {
    var n1, n2, n3 := FilterFlagNodes[0], FilterFlagNodes[1], FilterFlagNodes[2];
    assert FilterFlagNodes == [n1, n2, n3];
    assert !Matches(AllEnvsBIsTwoQ, FilterFlagTree, n1) by {
      MatchesOne(true, Some(["a"]), ExportIs("b", 2), FilterFlagTree, n1);
      HoldsLit("b", Int(2), FilterFlagTree, n1.exports.entries);
      Find2(Entry("a", I(1)), Entry("b", I(1)), "b");
    }
    assert Matches(AllEnvsBIsTwoQ, FilterFlagTree, n2) by {
      MatchesOne(true, Some(["a"]), ExportIs("b", 2), FilterFlagTree, n2);
      HoldsLit("b", Int(2), FilterFlagTree, n2.exports.entries);
      Find2(Entry("a", I(2)), Entry("b", I(2)), "b");
    }
    assert Matches(AllEnvsBIsTwoQ, FilterFlagTree, n3) by {
      MatchesOne(true, Some(["a"]), ExportIs("b", 2), FilterFlagTree, n3);
      HoldsLit("b", Int(2), FilterFlagTree, n3.exports.entries);
      Find2(Entry("a", I(3)), Entry("b", I(2)), "b");
    }
    Candidates3(AllEnvsBIsTwoQ, FilterFlagTree, n1, n2, n3);
  }

  /** The export `a` of the last two nodes of `FilterFlagNodes`. */
  lemma FilterFlagExports()
    ensures Lookup(FilterFlagNodes[1].exports, ["a"]) == Some(I(2))
    ensures Lookup(FilterFlagNodes[2].exports, ["a"]) == Some(I(3))
  {
    LookupKey([Entry("a", I(2)), Entry("b", I(2))], "a");
    LookupKey([Entry("a", I(3)), Entry("b", I(2))], "a");
    Find2(Entry("a", I(2)), Entry("b", I(2)), "a");
    Find2(Entry("a", I(3)), Entry("b", I(2)), "a");
  }

  lemma EvaluatesScopedFilter()
    ensures Evaluate(BIsTwoQ, FilterFlagTree, FilterFlagNodes) == ScopedFilterOut
  {
    CandidatesScopedFilter();
    FilterFlagExports();
    ValueResult1(["a"], FilterFlagNodes[1], I(2));
  }

  lemma EvaluatesAllEnvsFilter()
    ensures Evaluate(AllEnvsBIsTwoQ, FilterFlagTree, FilterFlagNodes) == AllEnvsFilterOut
  {
    CandidatesAllEnvsFilter();
    FilterFlagExports();
    ValueResult2(["a"], FilterFlagNodes[1], FilterFlagNodes[2], I(2), I(3));
  }

  /** Line 155: node3 satisfies the condition but is out of scope; only
      `+AllEnvs` keeps it. */
  lemma FilterFlagQueries()
    ensures Yields(Dict([Entry("alpha", S(BIsTwoText)), Entry("beta", S(AllEnvsBIsTwoText))], false), FilterFlagNodes,
                   Dict([Entry("alpha", ScopedFilterOut), Entry("beta", AllEnvsFilterOut)], false))
  {
    ReadsBIsTwo();
    ReadsAllEnvsBIsTwo();
    EvaluatesScopedFilter();
    EvaluatesAllEnvsFilter();
    TwoQueries("alpha", BIsTwoText, BIsTwoQ, "beta", AllEnvsBIsTwoText, AllEnvsBIsTwoQ, FilterFlagNodes, ScopedFilterOut, AllEnvsFilterOut);
  }

  const ListFlagNodes: Inventory := [
    Node("node1", [Entry("a", I(1))], true),
    Node("node2", [Entry("a", I(2))], true),
    Node("node3", [Entry("a", I(2))], false)]

  const ListFlagTree: Value := Dict([Entry("alpha", Pending([AIsTwoQ])), Entry("beta", Pending([AllEnvsAIsTwoQ]))], true)
  const ScopedListOut: Value := NameList(["node2"])
  const AllEnvsListOut: Value := NameList(["node2", "node3"])

  lemma CandidatesScopedList()
    ensures Candidates(AIsTwoQ, ListFlagTree, ListFlagNodes) == [ListFlagNodes[1]]
  {
    var n1, n2, n3 := ListFlagNodes[0], ListFlagNodes[1], ListFlagNodes[2];
    assert ListFlagNodes == [n1, n2, n3];
    assert !Matches(AIsTwoQ, ListFlagTree, n1) by {
      MatchesOne(false, None, ExportIs("a", 2), ListFlagTree, n1);
      HoldsLit("a", Int(2), ListFlagTree, n1.exports.entries);
      Find1(Entry("a", I(1)), "a");
    }
    assert Matches(AIsTwoQ, ListFlagTree, n2) by {
      MatchesOne(false, None, ExportIs("a", 2), ListFlagTree, n2);
      HoldsLit("a", Int(2), ListFlagTree, n2.exports.entries);
      Find1(Entry("a", I(2)), "a");
    }
    assert !Matches(AIsTwoQ, ListFlagTree, n3) by {
      MatchesOne(false, None, ExportIs("a", 2), ListFlagTree, n3);
    }
    Candidates3(AIsTwoQ, ListFlagTree, n1, n2, n3);
  }

  lemma EvaluatesScopedList()
    ensures Evaluate(AIsTwoQ, ListFlagTree, ListFlagNodes) == ScopedListOut
  {
    CandidatesScopedList();
    Names1(ListFlagNodes[1]);
  }

  lemma CandidatesAllEnvsList()
    ensures Candidates(AllEnvsAIsTwoQ, ListFlagTree, ListFlagNodes) == [ListFlagNodes[1], ListFlagNodes[2]]
  {
    var n1, n2, n3 := ListFlagNodes[0], ListFlagNodes[1], ListFlagNodes[2];
    assert ListFlagNodes == [n1, n2, n3];
    assert !Matches(AllEnvsAIsTwoQ, ListFlagTree, n1) by {
      MatchesOne(true, None, ExportIs("a", 2), ListFlagTree, n1);
      HoldsLit("a", Int(2), ListFlagTree, n1.exports.entries);
      Find1(Entry("a", I(1)), "a");
    }
    assert Matches(AllEnvsAIsTwoQ, ListFlagTree, n2) by {
      MatchesOne(true, None, ExportIs("a", 2), ListFlagTree, n2);
      HoldsLit("a", Int(2), ListFlagTree, n2.exports.entries);
      Find1(Entry("a", I(2)), "a");
    }
    assert Matches(AllEnvsAIsTwoQ, ListFlagTree, n3) by {
      MatchesOne(true, None, ExportIs("a", 2), ListFlagTree, n3);
      HoldsLit("a", Int(2), ListFlagTree, n3.exports.entries);
      Find1(Entry("a", I(2)), "a");
    }
    Candidates3(AllEnvsAIsTwoQ, ListFlagTree, n1, n2, n3);
  }

  lemma EvaluatesAllEnvsList()
    ensures Evaluate(AllEnvsAIsTwoQ, ListFlagTree, ListFlagNodes) == AllEnvsListOut
  {
    CandidatesAllEnvsList();
    Names2(ListFlagNodes[1], ListFlagNodes[2]);
  }

  /** Line 168: node3 has `a` 2 but is out of scope; only `+AllEnvs` lists it. */
  lemma ListFlagQueries()
    ensures Yields(Dict([Entry("alpha", S(AIsTwoText)), Entry("beta", S(AllEnvsAIsTwoText))], false), ListFlagNodes,
                   Dict([Entry("alpha", ScopedListOut), Entry("beta", AllEnvsListOut)], false))
  {
    ReadsAIsTwo();
    ReadsAllEnvsAIsTwo();
    EvaluatesScopedList();
    EvaluatesAllEnvsList();
    TwoQueries("alpha", AIsTwoText, AIsTwoQ, "beta", AllEnvsAIsTwoText, AllEnvsAIsTwoQ, ListFlagNodes, ScopedListOut, AllEnvsListOut);
  }
}
