/** Parser of inventory queries `$[ ... ]`. The text between the brackets is
    split into whitespace-separated words, each word is classified as a
    keyword or an operand, and a small recursive-descent grammar builds the
    `Query`. Malformed input is an `Err`, never a partial query. */
module Parser {
  import opened Wrappers
  import opened Ast
  import opened Lexer

  datatype ParseError =
    | NotAQuery          // the text does not start with `$[`
    | UnbalancedBracket  // no final `]`, or a bracket or `$`, `{`, `}` between the brackets
    | EmptyQuery         // nothing but an optional flag between the brackets
    | MalformedPath      // `exports:`/`self:` with an empty path segment
    | ExpectedValueOrIf  // the query starts with neither `exports:<path>` nor `if`
    | ExpectedIf         // something other than `if` follows the value expression
    | ExpectedOperand    // a comparison side is missing or is a keyword
    | ExpectedEquals     // two operands without `==` between them
    | ExpectedConnector  // a comparison is followed by something other than `and`/`or`
    | MixedConnectors    // `and` and `or` in the same condition

  /** A classified word. */
  datatype Token =
    | AllEnvsFlag
    | IfKw
    | AndKw
    | OrKw
    | EqualsOp
    | Term(o: Operand)
    | BadPath(word: string)

  const ExportsPrefix: string := "exports:"
  const SelfPrefix: string := "self:"

  predicate HasPrefix(w: string, p: string) {
    |p| <= |w| && w[..|p|] == p
  }

  predicate IsKeyword(w: string) {
    w == "+AllEnvs" || w == "if" || w == "and" || w == "or" || w == "=="
  }

  // ---------------------------------------------------------------------------
  // Integer literals: an optional '-' followed by decimal digits.

  predicate IsDigit(c: char) {
    '0' <= c <= '9'
  }

  predicate AllDigits(s: string) {
    |s| > 0 && forall i :: 0 <= i < |s| ==> IsDigit(s[i])
  }

  predicate IsIntLiteral(w: string) {
    AllDigits(w) || (|w| > 1 && w[0] == '-' && AllDigits(w[1..]))
  }

  function DigitsValue(s: string): nat
    requires forall i :: 0 <= i < |s| ==> IsDigit(s[i])
    decreases |s|
  {
    if |s| == 0 then 0
    else
      var c := s[|s| - 1];
      assert IsDigit(c);
      DigitsValue(s[..|s| - 1]) * 10 + (c as int - '0' as int)
  }

  function NatText(n: nat): string
    decreases n
  {
    var c := ('0' as int + n % 10) as char;
    if n < 10 then [c] else NatText(n / 10) + [c]
  }

  lemma {:induction false} NatTextValue(n: nat)
    ensures AllDigits(NatText(n)) && DigitsValue(NatText(n)) == n
    decreases n
  {
    var c := ('0' as int + n % 10) as char;
    if n >= 10 {
      NatTextValue(n / 10);
      var s := NatText(n);
      assert s == NatText(n / 10) + [c];
      assert s[..|s| - 1] == NatText(n / 10);
    }
  }

  function IntValue(w: string): int
    requires IsIntLiteral(w)
  {
    if w[0] == '-' then -(DigitsValue(w[1..]) as int) else DigitsValue(w)
  }

  function IntText(i: int): string {
    if i < 0 then "-" + NatText(-i) else NatText(i)
  }

  /** Printing an integer and reading it back gives the same integer. */
  lemma IntTextValue(i: int)
    ensures IsIntLiteral(IntText(i)) && IntValue(IntText(i)) == i
    ensures IsDigit(IntText(i)[0]) || IntText(i)[0] == '-'
  {
    if i < 0 {
      NatTextValue(-i);
      assert IntText(i)[1..] == NatText(-i);
    } else {
      NatTextValue(i);
    }
  }

  // ---------------------------------------------------------------------------
  // Well-formed queries: the ones the parser can produce.

  /** A literal word that is read back as a string: not a keyword, number,
      boolean or path. */
  predicate IsBareWord(w: string) {
    && IsWord(w) && !IsKeyword(w) && !IsIntLiteral(w) && w != "True" && w != "False"
    && !HasPrefix(w, ExportsPrefix) && !HasPrefix(w, SelfPrefix) && SymbolFree(w)
  }

  predicate IsSegment(s: string, d: char) {
    IsWord(s) && d !in s && SymbolFree(s)
  }

  predicate WfPath(p: Path, d: char) {
    |p| > 0 && forall i :: 0 <= i < |p| ==> IsSegment(p[i], d)
  }

  predicate WfOperand(o: Operand, d: char) {
    match o
    case ExportsRef(p) => WfPath(p, d)
    case SelfRef(p) => WfPath(p, d)
    case Lit(Str(w)) => IsBareWord(w)
    case Lit(_) => true
  }

  predicate WfComparison(c: Comparison, d: char) {
    WfOperand(c.lhs, d) && WfOperand(c.rhs, d)
  }

  predicate WfCond(c: Cond, d: char) {
    && (c.All? ==> |c.cmps| >= 1)
    && (c.Any? ==> |c.cmps| >= 2)
    && forall i :: 0 <= i < |c.cmps| ==> WfComparison(c.cmps[i], d)
  }

  predicate WfQuery(q: Query, d: char) {
    && (q.valuePath.Some? || q.cond.Some?)
    && (q.valuePath.Some? ==> WfPath(q.valuePath.value, d))
    && (q.cond.Some? ==> WfCond(q.cond.value, d))
  }

  predicate WfToken(t: Token, d: char) {
    match t
    case Term(o) => WfOperand(o, d)
    case BadPath(_) => false
    case _ => true
  }

  /** Every operand token is well formed; keyword tokens need nothing. */
  predicate TermsWf(ts: seq<Token>, d: char) {
    forall i :: 0 <= i < |ts| ==> ts[i].Term? ==> WfOperand(ts[i].o, d)
  }

  // ---------------------------------------------------------------------------
  // Classifying words.

  lemma SplitOfWord(s: string, d: char)
    ensures (forall i :: 0 <= i < |s| ==> !IsSpace(s[i])) && SymbolFree(s) ==>
      forall k :: 0 <= k < |Split(s, d)| ==> Split(s, d)[k] == "" || IsSegment(Split(s, d)[k], d)
  {
    var segs := Split(s, d);
    if (forall i :: 0 <= i < |s| ==> !IsSpace(s[i])) && SymbolFree(s) {
      forall k | 0 <= k < |segs| && segs[k] != "" ensures IsSegment(segs[k], d) {
        JoinSplit(s, d);
        SegmentCharsInJoin(segs, d, k);
        forall j | 0 <= j < |segs[k]| ensures !IsSpace(segs[k][j]) && !IsSymbol(segs[k][j]) {
          var i :| 0 <= i < |s| && s[i] == segs[k][j];
        }
      }
    }
  }

  /** The token for the text after `exports:` or `self:`. */
  function PathToken(w: string, body: string, d: char, exports: bool): (t: Token)
    ensures t.Term? ==> t.o.ExportsRef? || t.o.SelfRef?
    ensures (forall i :: 0 <= i < |body| ==> !IsSpace(body[i])) && SymbolFree(body) && t.Term? ==> WfPath(t.o.path, d)
  {
    var segs := Split(body, d);
    if forall k :: 0 <= k < |segs| ==> segs[k] != "" then
      SplitOfWord(body, d);
      Term(if exports then ExportsRef(segs) else SelfRef(segs))
    else
      BadPath(w)
  }

  /** What a word means in a query. */
  function Classify(w: string, d: char): (t: Token)
    ensures IsWord(w) && SymbolFree(w) && t.Term? ==> WfOperand(t.o, d)
  {
    if w == "+AllEnvs" then AllEnvsFlag
    else if w == "if" then IfKw
    else if w == "and" then AndKw
    else if w == "or" then OrKw
    else if w == "==" then EqualsOp
    else if HasPrefix(w, ExportsPrefix) then PathToken(w, w[|ExportsPrefix|..], d, true)
    else if HasPrefix(w, SelfPrefix) then PathToken(w, w[|SelfPrefix|..], d, false)
    else if IsIntLiteral(w) then Term(Lit(Int(IntValue(w))))
    else if w == "True" then Term(Lit(Bool(true)))
    else if w == "False" then Term(Lit(Bool(false)))
    else Term(Lit(Str(w)))
  }

  function OperandText(o: Operand, d: char): string {
    match o
    case ExportsRef(p) => if |p| == 0 then ExportsPrefix else ExportsPrefix + Join(p, d)
    case SelfRef(p) => if |p| == 0 then SelfPrefix else SelfPrefix + Join(p, d)
    case Lit(Int(i)) => IntText(i)
    case Lit(Bool(b)) => if b then "True" else "False"
    case Lit(Str(w)) => w
  }

  /** How a token is written. */
  function Spelling(t: Token, d: char): string {
    match t
    case AllEnvsFlag => "+AllEnvs"
    case IfKw => "if"
    case AndKw => "and"
    case OrKw => "or"
    case EqualsOp => "=="
    case Term(o) => OperandText(o, d)
    case BadPath(w) => w
  }

  lemma {:induction false} JoinIsWord(p: Path, d: char)
    requires WfPath(p, d) && !IsSpace(d)
    ensures IsWord(Join(p, d))
    decreases |p|
  {
    if |p| > 1 {
      JoinIsWord(p[1..], d);
      var j := Join(p, d);
      assert j == p[0] + ([d] + Join(p[1..], d));
      forall i | 0 <= i < |j| ensures !IsSpace(j[i]) {
        if i < |p[0]| {
          assert j[i] == p[0][i];
        } else if i > |p[0]| {
          assert j[i] == Join(p[1..], d)[i - |p[0]| - 1];
        }
      }
    }
  }

  lemma PathSpelling(prefix: string, p: Path, d: char, exports: bool)
    requires WfPath(p, d) && !IsSpace(d)
    requires prefix == (if exports then ExportsPrefix else SelfPrefix)
    ensures var w := prefix + Join(p, d);
      IsWord(w) && HasPrefix(w, prefix) && w[|prefix|..] == Join(p, d)
      && PathToken(w, w[|prefix|..], d, exports) == Term(if exports then ExportsRef(p) else SelfRef(p))
  {
    var w := prefix + Join(p, d);
    JoinIsWord(p, d);
    SplitJoin(p, d);
    assert w[..|prefix|] == prefix;
    assert w[|prefix|..] == Join(p, d);
    forall i | 0 <= i < |w| ensures !IsSpace(w[i]) {
      if i >= |prefix| {
        assert w[i] == Join(p, d)[i - |prefix|];
      }
    }
  }

  /** A well-formed token is written as one word that is classified back as
      the same token. */
  lemma ClassifySpelling(t: Token, d: char)
    requires WfToken(t, d) && !IsSpace(d)
    ensures IsWord(Spelling(t, d)) && Classify(Spelling(t, d), d) == t
  {
    match t
    case Term(ExportsRef(p)) => ClassifyExportsSpelling(p, d);
    case Term(SelfRef(p)) => ClassifySelfSpelling(p, d);
    case Term(Lit(Int(i))) => ClassifyIntSpelling(i, d);
    case Term(Lit(Bool(b))) => ClassifyBoolSpelling(b, d);
    case Term(Lit(Str(w))) =>
    case _ =>
  }

  lemma ClassifyExportsSpelling(p: Path, d: char)
    requires WfPath(p, d) && !IsSpace(d)
    ensures var t := Term(ExportsRef(p)); IsWord(Spelling(t, d)) && Classify(Spelling(t, d), d) == t
  {
    PathSpelling(ExportsPrefix, p, d, true);
    var w := Spelling(Term(ExportsRef(p)), d);
    assert |w| > |ExportsPrefix|;
  }

  lemma ClassifySelfSpelling(p: Path, d: char)
    requires WfPath(p, d) && !IsSpace(d)
    ensures var t := Term(SelfRef(p)); IsWord(Spelling(t, d)) && Classify(Spelling(t, d), d) == t
  {
    PathSpelling(SelfPrefix, p, d, false);
    var w := Spelling(Term(SelfRef(p)), d);
    assert w[0] == 's' && |w| > |SelfPrefix|;
    assert !HasPrefix(w, ExportsPrefix) by {
      if |ExportsPrefix| <= |w| { assert w[..|ExportsPrefix|][0] == 's'; }
    }
  }

  lemma ClassifyIntSpelling(i: int, d: char)
    ensures var t := Term(Lit(Int(i))); IsWord(Spelling(t, d)) && Classify(Spelling(t, d), d) == t
  {
    IntTextValue(i);
    IntTextWord(i);
  }

  /** The decimal text of an integer is one word that starts like no keyword
      and no path. */
  lemma IntTextWord(i: int)
    ensures var w := IntText(i);
      IsWord(w) && w[0] != '+' && w[0] != 'i' && w[0] != 'a' && w[0] != 'o' && w[0] != '='
      && !HasPrefix(w, ExportsPrefix) && !HasPrefix(w, SelfPrefix) && SymbolFree(w)
  {
    IntTextValue(i);
    var w := IntText(i);
    assert w[0] != '+' && w[0] != 'i' && w[0] != 'a' && w[0] != 'o' && w[0] != '=';
    assert !HasPrefix(w, ExportsPrefix) by {
      if |ExportsPrefix| <= |w| { assert w[..|ExportsPrefix|][0] == w[0]; }
    }
    assert !HasPrefix(w, SelfPrefix) by {
      if |SelfPrefix| <= |w| { assert w[..|SelfPrefix|][0] == w[0]; }
    }
    assert IsWord(w) && SymbolFree(w) by {
      assert IsDigit(w[0]) || w[0] == '-';
      if w[0] == '-' {
        forall k | 0 <= k < |w| ensures !IsSpace(w[k]) && !IsSymbol(w[k]) {
          if k > 0 { assert w[k] == w[1..][k - 1]; }
        }
      }
    }
  }

  /** A well-formed token is written without symbols when the delimiter is
      no symbol. */
  lemma SpellingSymbolFree(t: Token, d: char)
    requires WfToken(t, d) && !IsSymbol(d)
    ensures SymbolFree(Spelling(t, d))
  {
    match t
    case Term(ExportsRef(p)) => JoinSymbolFree(p, d);
    case Term(SelfRef(p)) => JoinSymbolFree(p, d);
    case Term(Lit(Int(i))) => IntTextWord(i);
    case _ =>
  }

  lemma ClassifyBoolSpelling(b: bool, d: char)
    ensures var t := Term(Lit(Bool(b))); IsWord(Spelling(t, d)) && Classify(Spelling(t, d), d) == t
  {
    var w := Spelling(Term(Lit(Bool(b))), d);
    assert w[0] == 'T' || w[0] == 'F';
    assert |w| < |ExportsPrefix|;
    assert !HasPrefix(w, SelfPrefix) by {
      if |SelfPrefix| <= |w| { assert w[..|SelfPrefix|][0] == w[0]; }
    }
    assert !IsDigit(w[0]) && w[0] != '-';
  }

  // ---------------------------------------------------------------------------
  // The grammar, over classified tokens.

  function AsOperand(t: Token): (r: Result<Operand, ParseError>)
    ensures r.Ok? <==> t.Term?
    ensures r.Ok? ==> r.value == t.o
  {
    match t
    case Term(o) => Ok(o)
    case BadPath(_) => Err(MalformedPath)
    case _ => Err(ExpectedOperand)
  }

  /** `operand == operand`, the first three tokens. */
  function ParseComparison(ts: seq<Token>, d: char): (r: Result<Comparison, ParseError>)
    ensures r.Ok? ==> |ts| >= 3
    ensures r.Ok? && TermsWf(ts, d) ==> WfComparison(r.value, d)
    ensures r.Ok? ==> ts[0] == Term(r.value.lhs) && ts[1] == EqualsOp && ts[2] == Term(r.value.rhs)
  {
    if |ts| == 0 then Err(ExpectedOperand)
    else
      var lhs :- AsOperand(ts[0]);
      if |ts| == 1 || ts[1] != EqualsOp then Err(ExpectedEquals)
      else if |ts| == 2 then Err(ExpectedOperand)
      else
        var rhs :- AsOperand(ts[2]);
        Ok(Equals(lhs, rhs))
  }

  /** Further comparisons, each introduced by the connector `k`. */
  function ParseChain(ts: seq<Token>, k: Token, d: char): (r: Result<seq<Comparison>, ParseError>)
    ensures r.Ok? && TermsWf(ts, d) ==> forall i :: 0 <= i < |r.value| ==> WfComparison(r.value[i], d)
    ensures r.Ok? && |ts| > 0 ==> |r.value| > 0
    decreases |ts|
  {
    if |ts| == 0 then Ok([])
    else if ts[0] != k then
      (if ts[0] == AndKw || ts[0] == OrKw then Err(MixedConnectors) else Err(ExpectedConnector))
    else
      var c :- ParseComparison(ts[1..], d);
      var rest :- ParseChain(ts[4..], k, d);
      Ok([c] + rest)
  }

  /** A condition: comparisons joined by one connector, `and` or `or`. */
  function ParseCond(ts: seq<Token>, d: char): (r: Result<Cond, ParseError>)
    ensures r.Ok? && TermsWf(ts, d) ==> WfCond(r.value, d)
  {
    var c :- ParseComparison(ts, d);
    var rest := ts[3..];
    if |rest| == 0 then Ok(All([c]))
    else if rest[0] == AndKw then
      var cs :- ParseChain(rest, AndKw, d);
      Ok(All([c] + cs))
    else if rest[0] == OrKw then
      var cs :- ParseChain(rest, OrKw, d);
      Ok(Any([c] + cs))
    else Err(ExpectedConnector)
  }

  /** `[+AllEnvs] [exports:<path>] [if <cond>]`, at least one of the last two. */
  function ParseTokens(ts: seq<Token>, d: char): (r: Result<Query, ParseError>)
    ensures r.Ok? && TermsWf(ts, d) ==> WfQuery(r.value, d)
    ensures r.Ok? ==> (r.value.allEnvs <==> |ts| > 0 && ts[0] == AllEnvsFlag)
  {
    var all := |ts| > 0 && ts[0] == AllEnvsFlag;
    var body := if all then ts[1..] else ts;
    if |body| == 0 then Err(EmptyQuery)
    else if body[0] == IfKw then
      var c :- ParseCond(body[1..], d);
      Ok(Query(all, None, Some(c)))
    else if body[0].Term? && body[0].o.ExportsRef? then
      var p := body[0].o.path;
      if |body| == 1 then Ok(Query(all, Some(p), None))
      else if body[1] == IfKw then
        var c :- ParseCond(body[2..], d);
        Ok(Query(all, Some(p), Some(c)))
      else Err(ExpectedIf)
    else if body[0].BadPath? then Err(MalformedPath)
    else Err(ExpectedValueOrIf)
  }

  // ---------------------------------------------------------------------------
  // Tokens of a query, and the round trip at token level.

  function ComparisonTokens(c: Comparison): seq<Token> {
    [Term(c.lhs), EqualsOp, Term(c.rhs)]
  }

  function ChainTokens(k: Token, cs: seq<Comparison>): seq<Token>
    decreases |cs|
  {
    if |cs| == 0 then [] else [k] + ComparisonTokens(cs[0]) + ChainTokens(k, cs[1..])
  }

  function CondTokens(c: Cond): seq<Token>
    requires |c.cmps| > 0
  {
    ComparisonTokens(c.cmps[0]) + ChainTokens(if c.All? then AndKw else OrKw, c.cmps[1..])
  }

  function QueryTokens(q: Query): seq<Token>
    requires q.cond.Some? ==> |q.cond.value.cmps| > 0
  {
    (if q.allEnvs then [AllEnvsFlag] else [])
    + (if q.valuePath.Some? then [Term(ExportsRef(q.valuePath.value))] else [])
    + (if q.cond.Some? then [IfKw] + CondTokens(q.cond.value) else [])
  }

  lemma {:induction false} ChainTokensWf(k: Token, cs: seq<Comparison>, d: char)
    requires WfToken(k, d)
    requires forall i :: 0 <= i < |cs| ==> WfComparison(cs[i], d)
    ensures forall i :: 0 <= i < |ChainTokens(k, cs)| ==> WfToken(ChainTokens(k, cs)[i], d)
    decreases |cs|
  {
    if |cs| > 0 {
      ChainTokensWf(k, cs[1..], d);
    }
  }

  lemma QueryTokensWf(q: Query, d: char)
    requires WfQuery(q, d)
    ensures forall i :: 0 <= i < |QueryTokens(q)| ==> WfToken(QueryTokens(q)[i], d)
    ensures |QueryTokens(q)| > 0
  {
    if q.cond.Some? {
      var c := q.cond.value;
      ChainTokensWf(if c.All? then AndKw else OrKw, c.cmps[1..], d);
    }
  }

  lemma WfTokensTermsWf(ts: seq<Token>, d: char)
    requires forall i :: 0 <= i < |ts| ==> WfToken(ts[i], d)
    ensures TermsWf(ts, d)
  {
  }

  lemma ParseComparisonTokens(c: Comparison, tail: seq<Token>, d: char)
    requires TermsWf(ComparisonTokens(c) + tail, d)
    ensures ParseComparison(ComparisonTokens(c) + tail, d) == Ok(c)
    ensures (ComparisonTokens(c) + tail)[3..] == tail
  {
  }

  lemma {:induction false} ParseChainTokens(k: Token, cs: seq<Comparison>, d: char)
    requires k == AndKw || k == OrKw
    requires TermsWf(ChainTokens(k, cs), d)
    ensures ParseChain(ChainTokens(k, cs), k, d) == Ok(cs)
    decreases |cs|
  {
    if |cs| > 0 {
      var ts := ChainTokens(k, cs);
      var tail := ChainTokens(k, cs[1..]);
      assert ts[1..] == ComparisonTokens(cs[0]) + tail;
      ParseComparisonTokens(cs[0], tail, d);
      assert ts[4..] == tail;
      ParseChainTokens(k, cs[1..], d);
      assert cs == [cs[0]] + cs[1..];
    }
  }

  lemma ParseCondTokens(c: Cond, d: char)
    requires WfCond(c, d) && TermsWf(CondTokens(c), d)
    ensures ParseCond(CondTokens(c), d) == Ok(c)
  {
    var k := if c.All? then AndKw else OrKw;
    var ts := CondTokens(c);
    var tail := ChainTokens(k, c.cmps[1..]);
    assert ts == ComparisonTokens(c.cmps[0]) + tail;
    ParseComparisonTokens(c.cmps[0], tail, d);
    assert TermsWf(tail, d) by {
      forall i | 0 <= i < |tail| ensures tail[i].Term? ==> WfOperand(tail[i].o, d) {
        assert tail[i] == ts[3 + i];
      }
    }
    ParseChainTokens(k, c.cmps[1..], d);
    assert c.cmps == [c.cmps[0]] + c.cmps[1..];
    if |c.cmps| == 1 {
      assert |tail| == 0;
      assert c == All([c.cmps[0]]);
    } else {
      assert tail[0] == k;
      if c.All? {
        assert ParseCond(ts, d) == Ok(All([c.cmps[0]] + c.cmps[1..]));
      } else {
        assert tail[0] != AndKw;
        assert ParseCond(ts, d) == Ok(Any([c.cmps[0]] + c.cmps[1..]));
      }
    }
  }

  /** The grammar reads the tokens of a well-formed query back as that query. */
  lemma ParseQueryTokens(q: Query, d: char)
    requires WfQuery(q, d)
    ensures TermsWf(QueryTokens(q), d) && ParseTokens(QueryTokens(q), d) == Ok(q)
  {
    QueryTokensWf(q, d);
    WfTokensTermsWf(QueryTokens(q), d);
    if q.cond.Some? {
      ParseCondQueryTokens(q, d);
    } else if q.allEnvs {
      assert QueryTokens(q)[1..] == [Term(ExportsRef(q.valuePath.value))];
    }
  }

  lemma ParseCondQueryTokens(q: Query, d: char)
    requires WfQuery(q, d) && q.cond.Some?
    ensures ParseTokens(QueryTokens(q), d) == Ok(q)
  {
    var ts := QueryTokens(q);
    var valuePart := if q.valuePath.Some? then [Term(ExportsRef(q.valuePath.value))] else [];
    var body := valuePart + [IfKw] + CondTokens(q.cond.value);
    assert body == if q.allEnvs then ts[1..] else ts;
    assert ts[0] == AllEnvsFlag <==> q.allEnvs;
    CondTokensWf(q.cond.value, d);
    ParseCondTokens(q.cond.value, d);
    if q.valuePath.Some? {
      assert body[0] == Term(ExportsRef(q.valuePath.value)) && body[1] == IfKw;
      assert body[2..] == CondTokens(q.cond.value);
    } else {
      assert body[0] == IfKw;
      assert body[1..] == CondTokens(q.cond.value);
    }
  }

  // ---------------------------------------------------------------------------
  // The converse: the grammar accepts canonical token sequences only.

  lemma {:induction false} ParseChainCanonical(ts: seq<Token>, k: Token, d: char)
    requires ParseChain(ts, k, d).Ok?
    ensures ts == ChainTokens(k, ParseChain(ts, k, d).value)
    decreases |ts|
  {
    if |ts| > 0 {
      var c := ParseComparison(ts[1..], d).value;
      ParseChainCanonical(ts[4..], k, d);
      var cs := ParseChain(ts, k, d).value;
      assert cs == [c] + ParseChain(ts[4..], k, d).value;
      assert ts[1..4] == ComparisonTokens(c);
      assert ts == [ts[0]] + ts[1..4] + ts[4..];
    }
  }

  lemma ParseCondCanonical(ts: seq<Token>, d: char)
    requires ParseCond(ts, d).Ok?
    ensures |ParseCond(ts, d).value.cmps| > 0
    ensures ts == CondTokens(ParseCond(ts, d).value)
  {
    var c := ParseComparison(ts, d).value;
    var rest := ts[3..];
    var r := ParseCond(ts, d).value;
    assert ts == ComparisonTokens(c) + rest;
    if |rest| > 0 {
      var k := if rest[0] == AndKw then AndKw else OrKw;
      ParseChainCanonical(rest, k, d);
      assert r.cmps[1..] == ParseChain(rest, k, d).value;
    }
  }

  /** Every token sequence the grammar accepts is the canonical token
      sequence of the query it yields: nothing else is accepted. */
  lemma ParseTokensCanonical(ts: seq<Token>, d: char)
    requires ParseTokens(ts, d).Ok?
    ensures var q := ParseTokens(ts, d).value;
      (q.cond.Some? ==> |q.cond.value.cmps| > 0) && ts == QueryTokens(q)
  {
    var all := |ts| > 0 && ts[0] == AllEnvsFlag;
    var body := if all then ts[1..] else ts;
    var flag: seq<Token> := if all then [AllEnvsFlag] else [];
    assert ts == flag + body;
    if body[0] == IfKw {
      var c := ParseCond(body[1..], d).value;
      assert ParseTokens(ts, d).value == Query(all, None, Some(c));
      IfBodyCanonical(body, c, d);
    } else if |body| == 1 {
      assert ParseTokens(ts, d).value == Query(all, Some(body[0].o.path), None);
    } else {
      var c := ParseCond(body[2..], d).value;
      assert ParseTokens(ts, d).value == Query(all, Some(body[0].o.path), Some(c));
      ValueIfBodyCanonical(body, c, d);
    }
  }

  lemma IfBodyCanonical(body: seq<Token>, c: Cond, d: char)
    requires |body| > 0 && body[0] == IfKw && ParseCond(body[1..], d) == Ok(c)
    ensures |c.cmps| > 0 && body == [IfKw] + CondTokens(c)
  {
    ParseCondCanonical(body[1..], d);
  }

  lemma ValueIfBodyCanonical(body: seq<Token>, c: Cond, d: char)
    requires |body| > 1 && body[0].Term? && body[0].o.ExportsRef?
    requires body[1] == IfKw && ParseCond(body[2..], d) == Ok(c)
    ensures |c.cmps| > 0 && body == [Term(ExportsRef(body[0].o.path))] + ([IfKw] + CondTokens(c))
  {
    ParseCondCanonical(body[2..], d);
    assert body == [body[0]] + ([body[1]] + body[2..]);
  }

  lemma CondTokensWf(c: Cond, d: char)
    requires WfCond(c, d)
    ensures TermsWf(CondTokens(c), d)
  {
    ChainTokensWf(if c.All? then AndKw else OrKw, c.cmps[1..], d);
  }

  // ---------------------------------------------------------------------------
  // Query text.

  /** The text opens a query: it starts with `$[`. */
  predicate IsQueryShape(s: string) {
    |s| >= 2 && s[0] == '$' && s[1] == '['
  }

  /** The opening `$[` is closed by the final `]`, and no other bracket,
      brace or `$` stands between them. */
  predicate Balanced(s: string) {
    |s| >= 3 && s[|s| - 1] == ']' && SymbolFree(s[2..|s| - 1])
  }

  function Classified(ws: seq<string>, d: char): (ts: seq<Token>)
    requires forall i :: 0 <= i < |ws| ==> IsWord(ws[i]) && SymbolFree(ws[i])
    ensures |ts| == |ws| && TermsWf(ts, d)
  {
    seq(|ws|, i requires 0 <= i < |ws| => Classify(ws[i], d))
  }

  /** Parses the text of a query. A text that opens a query but does not
      close it, or holds a stray bracket, is an error of its own; every query
      it accepts is well formed. */
  function ParseQuery(s: string, d: char): (r: Result<Query, ParseError>)
    ensures !IsQueryShape(s) ==> r == Err(NotAQuery)
    ensures IsQueryShape(s) && !Balanced(s) ==> r == Err(UnbalancedBracket)
    ensures r.Ok? ==> Balanced(s) && WfQuery(r.value, d)
  {
    if !IsQueryShape(s) then Err(NotAQuery)
    else if !Balanced(s) then Err(UnbalancedBracket)
    else
      TokensSymbolFree(s[2..|s| - 1]);
      ParseTokens(Classified(Tokens(s[2..|s| - 1]), d), d)
  }

  function Spellings(ts: seq<Token>, d: char): seq<string> {
    seq(|ts|, i requires 0 <= i < |ts| => Spelling(ts[i], d))
  }

  /** The text `$[ w1 ... wn ]`: the words separated by single spaces. */
  function QueryText(ws: seq<string>): string
    requires |ws| > 0
  {
    "$[ " + Unwords(ws) + " ]"
  }

  /** The same text with the closing bracket right after the last word. */
  function TightQueryText(ws: seq<string>): string
    requires |ws| > 0
  {
    "$[ " + Unwords(ws) + "]"
  }

  /** The text whose words spell the tokens `ts`. */
  function TokenText(ts: seq<Token>, d: char): string
    requires |ts| > 0
  {
    QueryText(Spellings(ts, d))
  }

  /** Parsing the text of well-formed tokens is parsing the tokens: the
      tokenizer and the classifier give back exactly `ts`. */
  lemma ParseTokenText(ts: seq<Token>, d: char)
    requires |ts| > 0 && !IsSpace(d) && !IsSymbol(d)
    requires forall i :: 0 <= i < |ts| ==> WfToken(ts[i], d)
    ensures IsQueryShape(TokenText(ts, d)) && Balanced(TokenText(ts, d)) && TermsWf(ts, d)
    ensures ParseQuery(TokenText(ts, d), d) == ParseTokens(ts, d)
  {
    var ws := Spellings(ts, d);
    var s := TokenText(ts, d);
    SpellingsClassify(ts, d);
    PrintedWords(ws, s);
    assert Balanced(s);
    assert Classified(ws, d) == ts;
  }

  /** The canonical text of a query: its words separated by single spaces. */
  function PrintQuery(q: Query, d: char): string
    requires WfQuery(q, d)
  {
    QueryTokensWf(q, d);
    TokenText(QueryTokens(q), d)
  }

  /** The words of any accepted query text classify to exactly the
      canonical tokens of the query read from it. */
  lemma ParsedTextCanonical(s: string, d: char)
    requires ParseQuery(s, d).Ok?
    ensures var q, ws := ParseQuery(s, d).value, Tokens(s[2..|s| - 1]);
      && (q.cond.Some? ==> |q.cond.value.cmps| > 0)
      && (forall i :: 0 <= i < |ws| ==> SymbolFree(ws[i]))
      && Classified(ws, d) == QueryTokens(q)
  {
    TokensSymbolFree(s[2..|s| - 1]);
    ParseTokensCanonical(Classified(Tokens(s[2..|s| - 1]), d), d);
  }

  /** Printing a well-formed query and parsing the text gives the query back. */
  lemma ParsePrint(q: Query, d: char)
    requires WfQuery(q, d) && !IsSpace(d) && !IsSymbol(d)
    ensures IsQueryShape(PrintQuery(q, d)) && Balanced(PrintQuery(q, d))
    ensures ParseQuery(PrintQuery(q, d), d) == Ok(q)
  {
    QueryTokensWf(q, d);
    ParseTokenText(QueryTokens(q), d);
    ParseQueryTokens(q, d);
  }

  lemma SpellingsClassify(ts: seq<Token>, d: char)
    requires forall i :: 0 <= i < |ts| ==> WfToken(ts[i], d)
    requires !IsSpace(d) && !IsSymbol(d)
    ensures forall i :: 0 <= i < |ts| ==> IsWord(Spellings(ts, d)[i]) && SymbolFree(Spellings(ts, d)[i])
    ensures forall i :: 0 <= i < |ts| ==> Classify(Spellings(ts, d)[i], d) == ts[i]
  {
    forall i | 0 <= i < |ts|
      ensures IsWord(Spellings(ts, d)[i]) && SymbolFree(Spellings(ts, d)[i]) && Classify(Spellings(ts, d)[i], d) == ts[i]
    {
      ClassifySpelling(ts[i], d);
      SpellingSymbolFree(ts[i], d);
    }
  }

  lemma PrintedWords(ws: seq<string>, s: string)
    requires |ws| > 0 && forall i :: 0 <= i < |ws| ==> IsWord(ws[i])
    requires s == "$[ " + Unwords(ws) + " ]"
    ensures IsQueryShape(s) && |s| >= 3 && s[|s| - 1] == ']' && Tokens(s[2..|s| - 1]) == ws
    ensures (forall i :: 0 <= i < |ws| ==> SymbolFree(ws[i])) ==> Balanced(s)
  {
    var u := Unwords(ws);
    Bracketed(u, s);
    LeadingSpace(u + " ");
    TokensUnwords(ws);
    if forall i :: 0 <= i < |ws| ==> SymbolFree(ws[i]) {
      UnwordsSymbolFree(ws);
    }
  }

  /** A closing bracket written right after the last word reads the same
      as one preceded by a space. */
  lemma TightClose(ws: seq<string>, d: char)
    requires |ws| > 0 && forall i :: 0 <= i < |ws| ==> IsWord(ws[i])
    ensures IsQueryShape(TightQueryText(ws))
    ensures ParseQuery(TightQueryText(ws), d) == ParseQuery(QueryText(ws), d)
  {
    var u := Unwords(ws);
    var tight, spaced := TightQueryText(ws), QueryText(ws);
    BracketedTight(u, tight);
    Bracketed(u, spaced);
    LeadingSpace(u);
    LeadingSpace(u + " ");
    TokensUnwordsBare(ws);
    TokensUnwords(ws);
    assert Balanced(tight) <==> Balanced(spaced) by {
      SpaceAroundSymbolFree(u);
    }
  }

  /** Spaces around a text add no symbol. */
  lemma SpaceAroundSymbolFree(u: string)
    ensures SymbolFree(" " + u) <==> SymbolFree(u)
    ensures SymbolFree(" " + (u + " ")) <==> SymbolFree(u)
  {
    if SymbolFree(" " + u) {
      forall i | 0 <= i < |u| ensures !IsSymbol(u[i]) {
        assert u[i] == (" " + u)[i + 1];
      }
    }
    if SymbolFree(" " + (u + " ")) {
      forall i | 0 <= i < |u| ensures !IsSymbol(u[i]) {
        assert u[i] == (" " + (u + " "))[i + 1];
      }
    }
  }

  lemma BracketedTight(u: string, s: string)
    requires s == "$[ " + u + "]"
    ensures IsQueryShape(s) && |s| >= 3 && s[|s| - 1] == ']' && s[2..|s| - 1] == " " + u
  {
    assert "$[ " == "$[" + " ";
    assert s == "$[" + (" " + u) + "]";
  }

  lemma Bracketed(u: string, s: string)
    requires s == "$[ " + u + " ]"
    ensures IsQueryShape(s) && |s| >= 3 && s[|s| - 1] == ']' && s[2..|s| - 1] == " " + (u + " ")
  {
    assert "$[ " == "$[" + " ";
    assert " ]" == " " + "]";
    assert s == "$[" + (" " + (u + " ")) + "]";
  }

  lemma LeadingSpace(t: string)
    ensures Tokens(" " + t) == Tokens(t)
  {
    assert (" " + t)[1..] == t;
  }
}
