/** The query texts of the tests in reclass/datatypes/tests/test_exports.py,
    read with ':' as the path delimiter: the malformed ones are rejected with
    the expected error, the others read as the expected query. Every text is
    given by its words (`…Words`), the tokens those words spell
    (`…Tokens`) and the text itself (`…Text`). */
module QueryTexts {
  import opened Wrappers
  import opened Ast
  import opened Lexer
  import opened Parser

  /** `ws` are the spellings of the well-formed tokens `ts`. */
  predicate Spells(ts: seq<Token>, ws: seq<string>) {
    && |ts| > 0 && |ws| == |ts|
    && forall i :: 0 <= i < |ts| ==> WfToken(ts[i], ':') && Spelling(ts[i], ':') == ws[i]
  }

  /** Words that spell well-formed tokens are read as exactly those tokens. */
  lemma ReadsAs(ws: seq<string>, ts: seq<Token>)
    requires Spells(ts, ws)
    ensures ParseQuery(QueryText(ws), ':') == ParseTokens(ts, ':')
  {
    assert Spellings(ts, ':') == ws;
    ParseTokenText(ts, ':');
  }

  /** The same with the closing bracket written right after the last word. */
  lemma ReadsTightAs(ws: seq<string>, ts: seq<Token>)
    requires Spells(ts, ws)
    ensures ParseQuery(TightQueryText(ws), ':') == ParseTokens(ts, ':')
  {
    ReadsAs(ws, ts);
    SpellingsClassify(ts, ':');
    assert Spellings(ts, ':') == ws;
    TightClose(ws, ':');
  }

  /** Words that spell the tokens of a well-formed query are read as that query. */
  lemma ReadsQueryAs(ws: seq<string>, ts: seq<Token>, q: Query)
    requires Spells(ts, ws) && WfQuery(q, ':') && QueryTokens(q) == ts
    ensures ParseQuery(QueryText(ws), ':') == Ok(q)
  {
    ParseQueryTokens(q, ':');
    ReadsAs(ws, ts);
  }

  /** The tokens of a condition of two comparisons. */
  lemma TwoComparisonTokens(c: Cond)
    requires |c.cmps| == 2
    ensures CondTokens(c) == ComparisonTokens(c.cmps[0]) + [if c.All? then AndKw else OrKw] + ComparisonTokens(c.cmps[1])
  {
    var k := if c.All? then AndKw else OrKw;
    assert c.cmps[1..][1..] == [];
    assert ChainTokens(k, c.cmps[1..]) == [k] + ComparisonTokens(c.cmps[1]) + [];
  }

  function Ex(seg: string): Token {
    Term(ExportsRef([seg]))
  }

  function Me(seg: string): Token {
    Term(SelfRef([seg]))
  }

  function Num(i: int): Token {
    Term(Lit(Int(i)))
  }

  /** A reference to a one-segment path is spelt with its prefix. */
  lemma ExSpelling(seg: string)
    requires IsSegment(seg, ':')
    ensures WfToken(Ex(seg), ':') && Spelling(Ex(seg), ':') == ExportsPrefix + seg
  {
    assert Join([seg], ':') == seg;
  }

  lemma MeSpelling(seg: string)
    requires IsSegment(seg, ':')
    ensures WfToken(Me(seg), ':') && Spelling(Me(seg), ':') == SelfPrefix + seg
  {
    assert Join([seg], ':') == seg;
  }

  /** `exports:<k> == <i>`. */
  function ExportIs(k: string, i: int): Comparison {
    Equals(ExportsRef([k]), Lit(Int(i)))
  }

  // ---------------------------------------------------------------------------
  // Lines 45-57: malformed queries fail when the tree is built.

  /** Line 47: a second operand where `if` belongs. */
  const MissingIfWords: seq<string> := ["exports:a", "exports:b", "==", "self:test_value"]
  const MissingIfTokens: seq<Token> := [Ex("a"), Ex("b"), EqualsOp, Me("test_value")]
  const MissingIfText: string := QueryText(MissingIfWords)

  lemma MissingIfSpelling()
    ensures Spells(MissingIfTokens, MissingIfWords)
  {
    ExSpelling("a");
    ExSpelling("b");
    MeSpelling("test_value");
  }

  lemma RejectsMissingIf()
    ensures ParseQuery(MissingIfText, ':') == Err(ExpectedIf)
  {
    MissingIfSpelling();
    ReadsAs(MissingIfWords, MissingIfTokens);
  }

  /** Line 49: two operands without `==` between them. */
  const MissingEqualsWords: seq<string> := ["exports:a", "if", "exports:b", "self:test_value"]
  const MissingEqualsTokens: seq<Token> := [Ex("a"), IfKw, Ex("b"), Me("test_value")]
  const MissingEqualsText: string := QueryText(MissingEqualsWords)

  lemma MissingEqualsSpelling()
    ensures Spells(MissingEqualsTokens, MissingEqualsWords)
  {
    ExSpelling("a");
    ExSpelling("b");
    MeSpelling("test_value");
  }

  lemma RejectsMissingEquals()
    ensures ParseQuery(MissingEqualsText, ':') == Err(ExpectedEquals)
  {
    MissingEqualsSpelling();
    ReadsAs(MissingEqualsWords, MissingEqualsTokens);
  }

  /** Line 51: `==` with nothing on its right. */
  const MissingOperandWords: seq<string> := ["exports:a", "if", "exports:b", "=="]
  const MissingOperandTokens: seq<Token> := [Ex("a"), IfKw, Ex("b"), EqualsOp]
  const MissingOperandText: string := QueryText(MissingOperandWords)

  lemma MissingOperandSpelling()
    ensures Spells(MissingOperandTokens, MissingOperandWords)
  {
    ExSpelling("a");
    ExSpelling("b");
  }

  lemma RejectsMissingOperand()
    ensures ParseQuery(MissingOperandText, ':') == Err(ExpectedOperand)
  {
    MissingOperandSpelling();
    ReadsAs(MissingOperandWords, MissingOperandTokens);
  }

  /** Line 53: a single `=` is an ordinary word, not the operator. */
  const SingleEqualsWords: seq<string> :=
    ["exports:a", "if", "exports:b", "==", "self:test_value", "and", "exports:c", "=", "self:test_value2"]
  const SingleEqualsTokens: seq<Token> :=
    [Ex("a"), IfKw, Ex("b"), EqualsOp, Me("test_value"), AndKw, Ex("c"), Term(Lit(Str("="))), Me("test_value2")]
  const SingleEqualsText: string := QueryText(SingleEqualsWords)

  lemma SingleEqualsSpelling()
    ensures Spells(SingleEqualsTokens, SingleEqualsWords)
  {
    ExSpelling("a");
    ExSpelling("b");
    ExSpelling("c");
    MeSpelling("test_value");
    MeSpelling("test_value2");
    assert IsBareWord("=") by {
      assert !IsDigit("="[0]);
    }
  }

  lemma RejectsSingleEquals()
    ensures ParseQuery(SingleEqualsText, ':') == Err(ExpectedEquals)
  {
    SingleEqualsSpelling();
    assert ParseTokens(SingleEqualsTokens, ':') == Err(ExpectedEquals);
    ReadsAs(SingleEqualsWords, SingleEqualsTokens);
  }

  /** Line 55: the comparison after `or` lacks its right-hand side. */
  const TruncatedOrWords: seq<string> :=
    ["exports:a", "if", "exports:b", "==", "self:test_value", "or", "exports:c", "=="]
  const TruncatedOrTokens: seq<Token> :=
    [Ex("a"), IfKw, Ex("b"), EqualsOp, Me("test_value"), OrKw, Ex("c"), EqualsOp]
  const TruncatedOrText: string := QueryText(TruncatedOrWords)

  lemma TruncatedOrSpelling()
    ensures Spells(TruncatedOrTokens, TruncatedOrWords)
  {
    ExSpelling("a");
    ExSpelling("b");
    ExSpelling("c");
    MeSpelling("test_value");
  }

  lemma RejectsTruncatedOr()
    ensures ParseQuery(TruncatedOrText, ':') == Err(ExpectedOperand)
  {
    TruncatedOrSpelling();
    assert ParseTokens(TruncatedOrTokens, ':') == Err(ExpectedOperand);
    ReadsAs(TruncatedOrWords, TruncatedOrTokens);
  }

  /** Line 57: a misspelt connector. */
  const UnknownConnectorWords: seq<string> :=
    ["exports:a", "if", "exports:b", "==", "self:test_value", "anddd", "exports:c", "==", "self:test_value2"]
  const UnknownConnectorTokens: seq<Token> :=
    [Ex("a"), IfKw, Ex("b"), EqualsOp, Me("test_value"), Term(Lit(Str("anddd"))), Ex("c"), EqualsOp, Me("test_value2")]
  const UnknownConnectorText: string := QueryText(UnknownConnectorWords)

  lemma UnknownConnectorSpelling()
    ensures Spells(UnknownConnectorTokens, UnknownConnectorWords)
  {
    ExSpelling("a");
    ExSpelling("b");
    ExSpelling("c");
    MeSpelling("test_value");
    MeSpelling("test_value2");
    assert IsBareWord("anddd") by {
      assert !IsDigit("anddd"[0]);
    }
  }

  lemma RejectsUnknownConnector()
    ensures ParseQuery(UnknownConnectorText, ':') == Err(ExpectedConnector)
  {
    UnknownConnectorSpelling();
    assert ParseTokens(UnknownConnectorTokens, ':') == Err(ExpectedConnector);
    ReadsAs(UnknownConnectorWords, UnknownConnectorTokens);
  }

  // ---------------------------------------------------------------------------
  // Lines 59-174: well-formed queries.

  /** Lines 61 and 144: `exports:a`. */
  const ValueWords: seq<string> := ["exports:a"]
  const ValueTokens: seq<Token> := [Ex("a")]
  const ValueText: string := QueryText(ValueWords)
  const ValueQ: Query := Query(false, Some(["a"]), None)

  lemma ValueSpelling()
    ensures Spells(ValueTokens, ValueWords)
  {
    ExSpelling("a");
  }

  lemma ReadsValue()
    ensures ParseQuery(ValueText, ':') == Ok(ValueQ) && SelfFree(ValueQ)
  {
    ValueSpelling();
    assert ParseTokens(ValueTokens, ':') == Ok(ValueQ);
    ReadsAs(ValueWords, ValueTokens);
  }

  /** Line 68: `exports:a if exports:b == 4`. */
  const FilteredWords: seq<string> := ["exports:a", "if", "exports:b", "==", "4"]
  const FilteredTokens: seq<Token> := [Ex("a"), IfKw, Ex("b"), EqualsOp, Num(4)]
  const FilteredText: string := QueryText(FilteredWords)
  const FilteredQ: Query := Query(false, Some(["a"]), Some(All([ExportIs("b", 4)])))

  lemma FilteredSpelling()
    ensures Spells(FilteredTokens, FilteredWords)
  {
    ExSpelling("a");
    ExSpelling("b");
  }

  lemma ReadsFiltered()
    ensures ParseQuery(FilteredText, ':') == Ok(FilteredQ) && SelfFree(FilteredQ)
  {
    FilteredSpelling();
    assert ParseTokens(FilteredTokens, ':') == Ok(FilteredQ);
    ReadsAs(FilteredWords, FilteredTokens);
  }

  /** Line 75: `exports:a if exports:b == self:test_value`. */
  const SelfWords: seq<string> := ["exports:a", "if", "exports:b", "==", "self:test_value"]
  const SelfTokens: seq<Token> := [Ex("a"), IfKw, Ex("b"), EqualsOp, Me("test_value")]
  const SelfText: string := QueryText(SelfWords)
  const SelfQ: Query := Query(false, Some(["a"]), Some(All([Equals(ExportsRef(["b"]), SelfRef(["test_value"]))])))

  lemma SelfSpelling()
    ensures Spells(SelfTokens, SelfWords)
  {
    ExSpelling("a");
    ExSpelling("b");
    MeSpelling("test_value");
  }

  lemma ReadsSelf()
    ensures ParseQuery(SelfText, ':') == Ok(SelfQ)
  {
    SelfSpelling();
    assert ParseTokens(SelfTokens, ':') == Ok(SelfQ);
    ReadsAs(SelfWords, SelfTokens);
  }

  /** Line 82: `if exports:b == 2`. */
  const ListWords: seq<string> := ["if", "exports:b", "==", "2"]
  const ListTokens: seq<Token> := [IfKw, Ex("b"), EqualsOp, Num(2)]
  const ListText: string := QueryText(ListWords)
  const ListQ: Query := Query(false, None, Some(All([ExportIs("b", 2)])))

  lemma ListSpelling()
    ensures Spells(ListTokens, ListWords)
  {
    ExSpelling("b");
  }

  lemma ReadsList()
    ensures ParseQuery(ListText, ':') == Ok(ListQ) && SelfFree(ListQ)
  {
    ListSpelling();
    assert ParseTokens(ListTokens, ':') == Ok(ListQ);
    ReadsAs(ListWords, ListTokens);
  }

  /** Line 89: `exports:a if exports:b == 4 and exports:c == True`. */
  const AndWords: seq<string> := ["exports:a", "if", "exports:b", "==", "4", "and", "exports:c", "==", "True"]
  const AndTokens: seq<Token> := [Ex("a"), IfKw, Ex("b"), EqualsOp, Num(4), AndKw, Ex("c"), EqualsOp, Term(Lit(Bool(true)))]
  const AndText: string := QueryText(AndWords)
  const AndQ: Query :=
    Query(false, Some(["a"]), Some(All([ExportIs("b", 4), Equals(ExportsRef(["c"]), Lit(Bool(true)))])))

  lemma AndSpelling()
    ensures Spells(AndTokens, AndWords)
  {
    ExSpelling("a");
    ExSpelling("b");
    ExSpelling("c");
  }

  lemma AndQueryTokens()
    ensures QueryTokens(AndQ) == AndTokens
  {
    TwoComparisonTokens(AndQ.cond.value);
  }

  lemma ReadsAnd()
    ensures ParseQuery(AndText, ':') == Ok(AndQ) && SelfFree(AndQ)
  {
    AndSpelling();
    AndQueryTokens();
    ReadsQueryAs(AndWords, AndTokens, AndQ);
  }

  /** Line 96: `exports:a if exports:b == 4 or exports:b == 3`. */
  const OrWords: seq<string> := ["exports:a", "if", "exports:b", "==", "4", "or", "exports:b", "==", "3"]
  const OrTokens: seq<Token> := [Ex("a"), IfKw, Ex("b"), EqualsOp, Num(4), OrKw, Ex("b"), EqualsOp, Num(3)]
  const OrText: string := QueryText(OrWords)
  const OrQ: Query := Query(false, Some(["a"]), Some(Any([ExportIs("b", 4), ExportIs("b", 3)])))

  lemma OrSpelling()
    ensures Spells(OrTokens, OrWords)
  {
    ExSpelling("a");
    ExSpelling("b");
  }

  lemma OrQueryTokens()
    ensures QueryTokens(OrQ) == OrTokens
  {
    TwoComparisonTokens(OrQ.cond.value);
  }

  lemma ReadsOr()
    ensures ParseQuery(OrText, ':') == Ok(OrQ) && SelfFree(OrQ)
  {
    OrSpelling();
    OrQueryTokens();
    ReadsQueryAs(OrWords, OrTokens, OrQ);
  }

  /** Lines 106 and 115: `if exports:b == 2 and exports:c == green`, with a
      bare word as literal. */
  const GreenWords: seq<string> := ["if", "exports:b", "==", "2", "and", "exports:c", "==", "green"]
  const GreenTokens: seq<Token> := [IfKw, Ex("b"), EqualsOp, Num(2), AndKw, Ex("c"), EqualsOp, Term(Lit(Str("green")))]
  const GreenText: string := QueryText(GreenWords)
  const GreenQ: Query := Query(false, None, Some(All([ExportIs("b", 2), Equals(ExportsRef(["c"]), Lit(Str("green")))])))

  lemma GreenIsBare()
    ensures IsBareWord("green")
  {
    assert !IsDigit("green"[0]);
  }

  lemma GreenSpelling()
    ensures Spells(GreenTokens, GreenWords)
  {
    ExSpelling("b");
    ExSpelling("c");
    GreenIsBare();
  }

  lemma GreenQueryTokens()
    ensures QueryTokens(GreenQ) == GreenTokens
  {
    TwoComparisonTokens(GreenQ.cond.value);
  }

  lemma ReadsGreen()
    ensures ParseQuery(GreenText, ':') == Ok(GreenQ) && SelfFree(GreenQ)
  {
    GreenSpelling();
    GreenIsBare();
    GreenQueryTokens();
    ReadsQueryAs(GreenWords, GreenTokens, GreenQ);
  }

  /** Line 126: `if exports:b == 2 or exports:b == 4`. */
  const ListOrWords: seq<string> := ["if", "exports:b", "==", "2", "or", "exports:b", "==", "4"]
  const ListOrTokens: seq<Token> := [IfKw, Ex("b"), EqualsOp, Num(2), OrKw, Ex("b"), EqualsOp, Num(4)]
  const ListOrText: string := QueryText(ListOrWords)
  const ListOrQ: Query := Query(false, None, Some(Any([ExportIs("b", 2), ExportIs("b", 4)])))

  lemma ListOrSpelling()
    ensures Spells(ListOrTokens, ListOrWords)
  {
    ExSpelling("b");
  }

  lemma ListOrQueryTokens()
    ensures QueryTokens(ListOrQ) == ListOrTokens
  {
    TwoComparisonTokens(ListOrQ.cond.value);
  }

  lemma ReadsListOr()
    ensures ParseQuery(ListOrText, ':') == Ok(ListOrQ) && SelfFree(ListOrQ)
  {
    ListOrSpelling();
    ListOrQueryTokens();
    ReadsQueryAs(ListOrWords, ListOrTokens, ListOrQ);
  }

  /** Line 133: `if exports:a == 1`. */
  const AIsOneWords: seq<string> := ["if", "exports:a", "==", "1"]
  const AIsOneTokens: seq<Token> := [IfKw, Ex("a"), EqualsOp, Num(1)]
  const AIsOneText: string := QueryText(AIsOneWords)
  const AIsOneQ: Query := Query(false, None, Some(All([ExportIs("a", 1)])))

  lemma AIsOneSpelling()
    ensures Spells(AIsOneTokens, AIsOneWords)
  {
    ExSpelling("a");
  }

  lemma ReadsAIsOne()
    ensures ParseQuery(AIsOneText, ':') == Ok(AIsOneQ) && SelfFree(AIsOneQ)
  {
    AIsOneSpelling();
    assert ParseTokens(AIsOneTokens, ':') == Ok(AIsOneQ);
    ReadsAs(AIsOneWords, AIsOneTokens);
  }

  /** Lines 134 and 168: `if exports:a == 2`. */
  const AIsTwoWords: seq<string> := ["if", "exports:a", "==", "2"]
  const AIsTwoTokens: seq<Token> := [IfKw, Ex("a"), EqualsOp, Num(2)]
  const AIsTwoText: string := QueryText(AIsTwoWords)
  const AIsTwoQ: Query := Query(false, None, Some(All([ExportIs("a", 2)])))

  lemma AIsTwoSpelling()
    ensures Spells(AIsTwoTokens, AIsTwoWords)
  {
    ExSpelling("a");
  }

  lemma ReadsAIsTwo()
    ensures ParseQuery(AIsTwoText, ':') == Ok(AIsTwoQ) && SelfFree(AIsTwoQ)
  {
    AIsTwoSpelling();
    assert ParseTokens(AIsTwoTokens, ':') == Ok(AIsTwoQ);
    ReadsAs(AIsTwoWords, AIsTwoTokens);
  }

  /** Line 144: `+AllEnvs exports:a`. */
  const AllEnvsValueWords: seq<string> := ["+AllEnvs", "exports:a"]
  const AllEnvsValueTokens: seq<Token> := [AllEnvsFlag, Ex("a")]
  const AllEnvsValueText: string := QueryText(AllEnvsValueWords)
  const AllEnvsValueQ: Query := Query(true, Some(["a"]), None)

  lemma AllEnvsValueSpelling()
    ensures Spells(AllEnvsValueTokens, AllEnvsValueWords)
  {
    ExSpelling("a");
  }

  lemma ReadsAllEnvsValue()
    ensures ParseQuery(AllEnvsValueText, ':') == Ok(AllEnvsValueQ) && SelfFree(AllEnvsValueQ)
  {
    AllEnvsValueSpelling();
    assert ParseTokens(AllEnvsValueTokens, ':') == Ok(AllEnvsValueQ);
    ReadsAs(AllEnvsValueWords, AllEnvsValueTokens);
  }

  /** Line 155: `exports:a if exports:b == 2`. */
  const BIsTwoWords: seq<string> := ["exports:a", "if", "exports:b", "==", "2"]
  const BIsTwoTokens: seq<Token> := [Ex("a"), IfKw, Ex("b"), EqualsOp, Num(2)]
  const BIsTwoText: string := QueryText(BIsTwoWords)
  const BIsTwoQ: Query := Query(false, Some(["a"]), Some(All([ExportIs("b", 2)])))

  lemma BIsTwoSpelling()
    ensures Spells(BIsTwoTokens, BIsTwoWords)
  {
    ExSpelling("a");
    ExSpelling("b");
  }

  lemma ReadsBIsTwo()
    ensures ParseQuery(BIsTwoText, ':') == Ok(BIsTwoQ) && SelfFree(BIsTwoQ)
  {
    BIsTwoSpelling();
    assert ParseTokens(BIsTwoTokens, ':') == Ok(BIsTwoQ);
    ReadsAs(BIsTwoWords, BIsTwoTokens);
  }

  /** Line 156: `+AllEnvs exports:a if exports:b == 2]`, the bracket
      right after the last word. */
  const AllEnvsBIsTwoWords: seq<string> := ["+AllEnvs", "exports:a", "if", "exports:b", "==", "2"]
  const AllEnvsBIsTwoTokens: seq<Token> := [AllEnvsFlag, Ex("a"), IfKw, Ex("b"), EqualsOp, Num(2)]
  const AllEnvsBIsTwoText: string := TightQueryText(AllEnvsBIsTwoWords)
  const AllEnvsBIsTwoQ: Query := Query(true, Some(["a"]), Some(All([ExportIs("b", 2)])))

  lemma AllEnvsBIsTwoSpelling()
    ensures Spells(AllEnvsBIsTwoTokens, AllEnvsBIsTwoWords)
  {
    ExSpelling("a");
    ExSpelling("b");
  }

  lemma ReadsAllEnvsBIsTwo()
    ensures ParseQuery(AllEnvsBIsTwoText, ':') == Ok(AllEnvsBIsTwoQ) && SelfFree(AllEnvsBIsTwoQ)
  {
    AllEnvsBIsTwoSpelling();
    assert ParseTokens(AllEnvsBIsTwoTokens, ':') == Ok(AllEnvsBIsTwoQ);
    ReadsTightAs(AllEnvsBIsTwoWords, AllEnvsBIsTwoTokens);
  }

  /** Line 169: `+AllEnvs if exports:a == 2]`, the bracket right after the
      last word. */
  const AllEnvsAIsTwoWords: seq<string> := ["+AllEnvs", "if", "exports:a", "==", "2"]
  const AllEnvsAIsTwoTokens: seq<Token> := [AllEnvsFlag, IfKw, Ex("a"), EqualsOp, Num(2)]
  const AllEnvsAIsTwoText: string := TightQueryText(AllEnvsAIsTwoWords)
  const AllEnvsAIsTwoQ: Query := Query(true, None, Some(All([ExportIs("a", 2)])))

  lemma AllEnvsAIsTwoSpelling()
    ensures Spells(AllEnvsAIsTwoTokens, AllEnvsAIsTwoWords)
  {
    ExSpelling("a");
  }

  lemma ReadsAllEnvsAIsTwo()
    ensures ParseQuery(AllEnvsAIsTwoText, ':') == Ok(AllEnvsAIsTwoQ) && SelfFree(AllEnvsAIsTwoQ)
  {
    AllEnvsAIsTwoSpelling();
    assert ParseTokens(AllEnvsAIsTwoTokens, ':') == Ok(AllEnvsAIsTwoQ);
    ReadsTightAs(AllEnvsAIsTwoWords, AllEnvsAIsTwoTokens);
  }
}
