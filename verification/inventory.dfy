/** Evaluation of inventory queries against an ordered inventory of nodes.
    A node is a candidate when it is in scope (or the query carries
    `+AllEnvs`) and its exports satisfy the condition. A comparison whose
    `exports:` path is missing on a node is simply false for that node. */
module Eval {
  import opened Wrappers
  import opened Ast
  import opened Values
  import opened Seqs

  /** One node as the inventory knows it: its exports and whether it belongs
      to the querying node's environment. */
  datatype NodeInventory = NodeInventory(name: string, exports: Value, inScope: bool)

  type Inventory = seq<NodeInventory>

  datatype InterpolationError =
    | MissingReference(path: Path)  // a `self:` path that does not lead to a scalar
    | InventoryRequired             // a query is present but no inventory was supplied
    | UnsupportedAccumulation       // merged queries that are not all list queries

  function Names(inv: Inventory): (ns: seq<string>)
    ensures |ns| == |inv|
    ensures forall i :: 0 <= i < |inv| ==> ns[i] == inv[i].name
  {
    seq(|inv|, i requires 0 <= i < |inv| => inv[i].name)
  }

  /** Every node exports plain data, as an already-built inventory does. */
  predicate PlainInventory(inv: Inventory) {
    forall i :: 0 <= i < |inv| ==> Plain(inv[i].exports)
  }

  /** Node names are unique, as the keys of the source's inventory mapping are. */
  predicate DistinctNames(inv: Inventory) {
    Distinct(Names(inv))
  }

  lemma NamesMembers(inv: Inventory)
    ensures forall x :: x in Names(inv) <==> exists n :: n in inv && n.name == x
  {
    forall x | x in Names(inv) ensures exists n :: n in inv && n.name == x {
      var i :| 0 <= i < |inv| && Names(inv)[i] == x;
      assert inv[i] in inv;
    }
  }

  lemma {:induction false} NamesSubseq(a: Inventory, b: Inventory)
    requires IsSubseq(a, b)
    ensures IsSubseq(Names(a), Names(b))
    decreases |b|
  {
    if |a| > 0 {
      assert Names(b) == [b[0].name] + Names(b[1..]);
      if a[0] == b[0] && IsSubseq(a[1..], b[1..]) {
        NamesSubseq(a[1..], b[1..]);
        assert Names(a) == [a[0].name] + Names(a[1..]);
        ConsSubseq(b[0].name, Names(a[1..]), Names(b[1..]));
      } else {
        NamesSubseq(a, b[1..]);
        ConsSubseq(b[0].name, Names(a), Names(b[1..]));
      }
    }
  }

  // ---------------------------------------------------------------------------
  // Conditions.

  /** The value an operand denotes: `self:` paths are looked up in the issuing
      node's tree `self`, `exports:` paths in the candidate's exports `e`. */
  function OperandValue(o: Operand, self: Value, e: Value): Option<Value> {
    match o
    case ExportsRef(p) => Lookup(e, p)
    case SelfRef(p) => Lookup(self, p)
    case Lit(s) => Some(Leaf(s))
  }

  /** `lhs == rhs` holds when both sides exist and are equal values. */
  predicate Holds(c: Comparison, self: Value, e: Value) {
    var l := OperandValue(c.lhs, self, e);
    var r := OperandValue(c.rhs, self, e);
    l.Some? && r.Some? && l.value == r.value
  }

  function AllHold(cs: seq<Comparison>, self: Value, e: Value): (r: bool)
    ensures r <==> forall i :: 0 <= i < |cs| ==> Holds(cs[i], self, e)
    decreases |cs|
  {
    if |cs| == 0 then true
    else
      var rest := AllHold(cs[1..], self, e);
      assert forall i :: 1 <= i < |cs| ==> cs[i] == cs[1..][i - 1];
      Holds(cs[0], self, e) && rest
  }

  function AnyHolds(cs: seq<Comparison>, self: Value, e: Value): (r: bool)
    ensures r <==> exists i :: 0 <= i < |cs| && Holds(cs[i], self, e)
    decreases |cs|
  {
    if |cs| == 0 then false
    else
      var rest := AnyHolds(cs[1..], self, e);
      assert forall i :: 1 <= i < |cs| ==> cs[i] == cs[1..][i - 1];
      Holds(cs[0], self, e) || rest
  }

  /** `and` needs every comparison to hold, `or` at least one. */
  function CondHolds(c: Cond, self: Value, e: Value): (r: bool)
    ensures c.All? ==> (r <==> forall i :: 0 <= i < |c.cmps| ==> Holds(c.cmps[i], self, e))
    ensures c.Any? ==> (r <==> exists i :: 0 <= i < |c.cmps| && Holds(c.cmps[i], self, e))
  {
    match c
    case All(cs) => AllHold(cs, self, e)
    case Any(cs) => AnyHolds(cs, self, e)
  }

  /** `n` is a candidate of `q`: in scope (or `+AllEnvs`) and satisfying the condition. */
  predicate Matches(q: Query, self: Value, n: NodeInventory) {
    && (q.allEnvs || n.inScope)
    && (q.cond.None? || CondHolds(q.cond.value, self, n.exports))
  }

  /** A comparison reading an `exports:` path the node lacks is false for
      that node, whatever the other side is. */
  lemma MissingExportFails(c: Comparison, self: Value, e: Value)
    requires (c.lhs.ExportsRef? && Lookup(e, c.lhs.path).None?) || (c.rhs.ExportsRef? && Lookup(e, c.rhs.path).None?)
    ensures !Holds(c, self, e)
  {
  }

  /** Under `and`, one comparison on a missing export excludes the node;
      nothing is raised. */
  lemma MissingExportExcludes(q: Query, self: Value, n: NodeInventory, i: nat, p: Path)
    requires q.cond.Some? && q.cond.value.All? && i < |q.cond.value.cmps|
    requires q.cond.value.cmps[i].lhs == ExportsRef(p) || q.cond.value.cmps[i].rhs == ExportsRef(p)
    requires Lookup(n.exports, p).None?
    ensures !Matches(q, self, n)
  {
    MissingExportFails(q.cond.value.cmps[i], self, n.exports);
  }

  // ---------------------------------------------------------------------------
  // Query results.

  /** The candidate nodes, in inventory order. */
  function Candidates(q: Query, self: Value, inv: Inventory): (r: Inventory)
    ensures forall n :: n in r <==> n in inv && Matches(q, self, n)
    ensures IsSubseq(r, inv)
    decreases |inv|
  {
    if |inv| == 0 then []
    else
      var rest := Candidates(q, self, inv[1..]);
      ConsSubseq(inv[0], rest, inv[1..]);
      assert inv == [inv[0]] + inv[1..];
      if Matches(q, self, inv[0]) then [inv[0]] + rest else rest
  }

  /** A list query: the names of the candidates, in inventory order. */
  function ListResult(q: Query, self: Value, inv: Inventory): (r: seq<string>)
    ensures forall x :: x in r <==> exists n :: n in inv && n.name == x && Matches(q, self, n)
    ensures IsSubseq(r, Names(inv))
    ensures DistinctNames(inv) ==> Distinct(r)
  {
    var cs := Candidates(q, self, inv);
    NamesMembers(cs);
    NamesSubseq(cs, inv);
    DistinctSubseq(Names(cs), Names(inv));
    Names(cs)
  }

  /** With unique node names, the list result is the only sequence that lists
      exactly the candidates' names in inventory order. */
  lemma ListResultDetermined(q: Query, self: Value, inv: Inventory, r: seq<string>)
    requires DistinctNames(inv)
    requires IsSubseq(r, Names(inv))
    requires forall x :: x in r <==> exists n :: n in inv && n.name == x && Matches(q, self, n)
    ensures r == ListResult(q, self, inv)
  {
    SubseqUnique(r, ListResult(q, self, inv), Names(inv));
  }

  /** Nodes with unique names are themselves unique. */
  lemma DistinctNodes(inv: Inventory)
    requires DistinctNames(inv)
    ensures Distinct(inv)
  {
    forall i, j | 0 <= i < j < |inv| ensures inv[i] != inv[j] {
      assert Names(inv)[i] != Names(inv)[j];
    }
  }

  /** With unique node names, the candidates are the only subsequence of the
      inventory that holds exactly the matching nodes. */
  lemma CandidatesDetermined(q: Query, self: Value, inv: Inventory, r: Inventory)
    requires DistinctNames(inv)
    requires IsSubseq(r, inv)
    requires forall n :: n in r <==> n in inv && Matches(q, self, n)
    ensures r == Candidates(q, self, inv)
  {
    DistinctNodes(inv);
    SubseqUnique(r, Candidates(q, self, inv), inv);
  }

  /** A value query: each candidate that has the value path, mapped to the
      value found there, in inventory order. */
  function ValueResult(p: Path, cands: Inventory): (r: seq<Entry>)
    ensures forall k, v :: Entry(k, v) in r <==> exists n :: n in cands && n.name == k && Lookup(n.exports, p) == Some(v)
    ensures IsSubseq(Keys(r), Names(cands))
    decreases |cands|
  {
    if |cands| == 0 then []
    else
      var rest := ValueResult(p, cands[1..]);
      var r := match Lookup(cands[0].exports, p)
               case Some(v) => [Entry(cands[0].name, v)] + rest
               case None => rest;
      ValueResultMembers(p, cands, rest, r);
      ValueResultOrder(p, cands, rest, r);
      r
  }

  /** One step of `ValueResult`: the entries are the head's, if it has the
      path, followed by those of the tail. */
  lemma ValueResultMembers(p: Path, cands: Inventory, rest: seq<Entry>, r: seq<Entry>)
    requires |cands| > 0
    requires forall k, v :: Entry(k, v) in rest <==> exists n :: n in cands[1..] && n.name == k && Lookup(n.exports, p) == Some(v)
    requires r == match Lookup(cands[0].exports, p)
                  case Some(v) => [Entry(cands[0].name, v)] + rest
                  case None => rest
    ensures forall k, v :: Entry(k, v) in r <==> exists n :: n in cands && n.name == k && Lookup(n.exports, p) == Some(v)
  {
    assert cands == [cands[0]] + cands[1..];
    forall k, v
      ensures Entry(k, v) in r <==> exists n :: n in cands && n.name == k && Lookup(n.exports, p) == Some(v)
    {
      if Entry(k, v) in r && Entry(k, v) !in rest {
        assert cands[0] in cands && cands[0].name == k && Lookup(cands[0].exports, p) == Some(v);
      }
      if exists n :: n in cands && n.name == k && Lookup(n.exports, p) == Some(v) {
        var n :| n in cands && n.name == k && Lookup(n.exports, p) == Some(v);
        if n != cands[0] {
          assert n in cands[1..];
        }
      }
    }
  }

  /** The same step keeps the keys in candidate order. */
  lemma ValueResultOrder(p: Path, cands: Inventory, rest: seq<Entry>, r: seq<Entry>)
    requires |cands| > 0
    requires IsSubseq(Keys(rest), Names(cands[1..]))
    requires r == match Lookup(cands[0].exports, p)
                  case Some(v) => [Entry(cands[0].name, v)] + rest
                  case None => rest
    ensures IsSubseq(Keys(r), Names(cands))
  {
    var n0, ns := cands[0].name, Names(cands[1..]);
    NamesCons(cands);
    ConsSubseq(n0, Keys(rest), ns);
    match Lookup(cands[0].exports, p)
    case Some(v) => KeysCons(Entry(n0, v), rest);
    case None =>
  }

  lemma NamesCons(cands: Inventory)
    requires |cands| > 0
    ensures Names(cands) == [cands[0].name] + Names(cands[1..])
  {
  }

  lemma KeysCons(e: Entry, es: seq<Entry>)
    ensures Keys([e] + es) == [e.key] + Keys(es)
  {
  }

  /** With unique candidate names, the value result is the only sequence of
      entries that holds exactly the candidates' values at the path, keyed in
      candidate order. */
  lemma ValueResultDetermined(p: Path, cands: Inventory, r: seq<Entry>)
    requires DistinctNames(cands)
    requires IsSubseq(Keys(r), Names(cands))
    requires forall k, v :: Entry(k, v) in r <==> exists n :: n in cands && n.name == k && Lookup(n.exports, p) == Some(v)
    ensures r == ValueResult(p, cands)
  {
    var vr := ValueResult(p, cands);
    SameValueEntries(p, cands, r, vr);
    SameEntriesSameKeys(r, vr);
    SubseqUnique(Keys(r), Keys(vr), Names(cands));
    DistinctSubseq(Keys(vr), Names(cands));
    KeyedEntriesEqual(r, vr);
  }

  lemma SameValueEntries(p: Path, cands: Inventory, a: seq<Entry>, b: seq<Entry>)
    requires forall k, v :: Entry(k, v) in a <==> exists n :: n in cands && n.name == k && Lookup(n.exports, p) == Some(v)
    requires forall k, v :: Entry(k, v) in b <==> exists n :: n in cands && n.name == k && Lookup(n.exports, p) == Some(v)
    ensures forall e :: e in a <==> e in b
  {
    forall e ensures e in a <==> e in b {
      assert e == Entry(e.key, e.val);
    }
  }

  /** Two entry sequences with the same members and the same keys, without
      repeated keys, are equal. */
  lemma KeyedEntriesEqual(a: seq<Entry>, b: seq<Entry>)
    requires forall e :: e in a <==> e in b
    requires Keys(a) == Keys(b) && Distinct(Keys(b))
    ensures a == b
  {
    forall i | 0 <= i < |a| ensures a[i] == b[i] {
      assert a[i] in b;
      var j :| 0 <= j < |b| && b[j] == a[i];
      assert Keys(b)[j] == Keys(b)[i];
    }
  }

  lemma SameEntriesSameKeys(a: seq<Entry>, b: seq<Entry>)
    requires forall e :: e in a <==> e in b
    ensures forall k :: k in Keys(a) <==> k in Keys(b)
  {
    forall k ensures k in Keys(a) ==> k in Keys(b) {
      if k in Keys(a) {
        var i :| 0 <= i < |a| && Keys(a)[i] == k;
        assert a[i] in b;
        var j :| 0 <= j < |b| && b[j] == a[i];
        assert Keys(b)[j] == k;
      }
    }
    forall k ensures k in Keys(b) ==> k in Keys(a) {
      if k in Keys(b) {
        var i :| 0 <= i < |b| && Keys(b)[i] == k;
        assert b[i] in a;
        var j :| 0 <= j < |a| && a[j] == b[i];
        assert Keys(a)[j] == k;
      }
    }
  }

  function NameList(ns: seq<string>): (v: Value)
    ensures v.List? && !v.typed && |v.items| == |ns|
    ensures forall i :: 0 <= i < |ns| ==> v.items[i] == Leaf(Str(ns[i]))
  {
    List(seq(|ns|, i requires 0 <= i < |ns| => Leaf(Str(ns[i]))), false)
  }

  /** The value a single query produces: a dictionary for a value query,
      a list of node names for a list query. */
  function Evaluate(q: Query, self: Value, inv: Inventory): (v: Value)
    ensures q.valuePath.Some? ==> v == Dict(ValueResult(q.valuePath.value, Candidates(q, self, inv)), false)
    ensures q.valuePath.None? ==> v == NameList(ListResult(q, self, inv))
    ensures PlainInventory(inv) ==> Plain(v)
  {
    if q.valuePath.Some? then
      var cands := Candidates(q, self, inv);
      var es := ValueResult(q.valuePath.value, cands);
      ValueResultPlain(q.valuePath.value, cands, inv);
      Dict(es, false)
    else NameList(ListResult(q, self, inv))
  }

  lemma ValueResultPlain(p: Path, cands: Inventory, inv: Inventory)
    requires forall n :: n in cands ==> n in inv
    ensures PlainInventory(inv) ==> forall i :: 0 <= i < |ValueResult(p, cands)| ==> Plain(ValueResult(p, cands)[i].val)
  {
    var es := ValueResult(p, cands);
    forall i | 0 <= i < |es| && PlainInventory(inv) ensures Plain(es[i].val) {
      assert Entry(es[i].key, es[i].val) in es;
      var n :| n in cands && n.name == es[i].key && Lookup(n.exports, p) == Some(es[i].val);
      var j :| 0 <= j < |inv| && inv[j] == n;
      LookupPlain(n.exports, p);
    }
  }

  // ---------------------------------------------------------------------------
  // Environment scope.

  function InScopeOnly(inv: Inventory): (r: Inventory)
    ensures forall n :: n in r <==> n in inv && n.inScope
    ensures IsSubseq(r, inv)
    decreases |inv|
  {
    if |inv| == 0 then []
    else
      var rest := InScopeOnly(inv[1..]);
      ConsSubseq(inv[0], rest, inv[1..]);
      assert inv == [inv[0]] + inv[1..];
      if inv[0].inScope then [inv[0]] + rest else rest
  }

  /** Without `+AllEnvs`, a query sees exactly the in-scope part of the
      inventory, filtered by its condition as a `+AllEnvs` query would be. */
  lemma {:induction false} ScopedQuerySeesInScopeOnly(q: Query, self: Value, inv: Inventory)
    requires !q.allEnvs
    ensures Candidates(q, self, inv) == Candidates(q.(allEnvs := true), self, InScopeOnly(inv))
    decreases |inv|
  {
    if |inv| > 0 {
      ScopedQuerySeesInScopeOnly(q, self, inv[1..]);
    }
  }

  /** `+AllEnvs` only adds nodes: the scoped result is a subsequence of the
      unscoped one. */
  lemma {:induction false} AllEnvsWidens(q: Query, self: Value, inv: Inventory)
    ensures IsSubseq(Candidates(q.(allEnvs := false), self, inv), Candidates(q.(allEnvs := true), self, inv))
    decreases |inv|
  {
    if |inv| > 0 {
      AllEnvsWidens(q, self, inv[1..]);
      var a := Candidates(q.(allEnvs := false), self, inv[1..]);
      var b := Candidates(q.(allEnvs := true), self, inv[1..]);
      ConsSubseq(inv[0], a, b);
    }
  }

  /** With `+AllEnvs` the scope flags do not matter: marking every node in
      scope first selects the same nodes. */
  lemma {:induction false} AllEnvsIgnoresScope(q: Query, self: Value, inv: Inventory)
    requires q.allEnvs
    ensures AllInScope(Candidates(q, self, inv)) == Candidates(q, self, AllInScope(inv))
    decreases |inv|
  {
    if |inv| > 0 {
      AllEnvsIgnoresScope(q, self, inv[1..]);
      var all := AllInScope(inv);
      assert all[1..] == AllInScope(inv[1..]);
      assert Matches(q, self, all[0]) == Matches(q, self, inv[0]);
      CandidatesCons(q, self, inv);
      CandidatesCons(q, self, all);
      if Matches(q, self, inv[0]) {
        AllInScopeCons(inv[0], Candidates(q, self, inv[1..]));
      }
    }
  }

  lemma CandidatesCons(q: Query, self: Value, inv: Inventory)
    requires |inv| > 0
    ensures Candidates(q, self, inv) == (if Matches(q, self, inv[0]) then [inv[0]] else []) + Candidates(q, self, inv[1..])
  {
  }

  lemma AllInScopeCons(n: NodeInventory, rest: Inventory)
    ensures AllInScope([n] + rest) == [n.(inScope := true)] + AllInScope(rest)
  {
  }

  function AllInScope(inv: Inventory): (r: Inventory)
    ensures |r| == |inv|
    ensures forall i :: 0 <= i < |inv| ==> r[i] == inv[i].(inScope := true)
  {
    seq(|inv|, i requires 0 <= i < |inv| => inv[i].(inScope := true))
  }

  // ---------------------------------------------------------------------------
  // The `self:` pre-pass.

  /** A `self:` operand resolves when its path leads to a scalar. */
  predicate OperandResolves(o: Operand, root: Value) {
    o.SelfRef? ==> Lookup(root, o.path).Some? && Lookup(root, o.path).value.Leaf?
  }

  predicate SelfRefsResolve(q: Query, root: Value) {
    q.cond.Some? ==> forall i :: 0 <= i < |q.cond.value.cmps| ==>
      OperandResolves(q.cond.value.cmps[i].lhs, root) && OperandResolves(q.cond.value.cmps[i].rhs, root)
  }

  function ResolveOperand(o: Operand, root: Value): (r: Result<Operand, InterpolationError>)
    ensures r.Ok? <==> OperandResolves(o, root)
    ensures r.Ok? ==> !r.value.SelfRef?
    ensures r.Ok? ==> forall e :: OperandValue(r.value, root, e) == OperandValue(o, root, e)
    ensures r.Err? ==> r.error == MissingReference(o.path)
  {
    match o
    case SelfRef(p) =>
      (match Lookup(root, p)
       case Some(Leaf(s)) => Ok(Lit(s))
       case _ => Err(MissingReference(p)))
    case _ => Ok(o)
  }

  /** Comparison `i` is the first one with a `self:` operand that does not
      resolve, and `p` is the path of that operand (the left one if both). */
  predicate FirstMissing(cs: seq<Comparison>, root: Value, i: int, p: Path) {
    && 0 <= i < |cs|
    && (forall j :: 0 <= j < i ==> OperandResolves(cs[j].lhs, root) && OperandResolves(cs[j].rhs, root))
    && (if !OperandResolves(cs[i].lhs, root) then cs[i].lhs == SelfRef(p)
        else !OperandResolves(cs[i].rhs, root) && cs[i].rhs == SelfRef(p))
  }

  lemma FirstMissingTail(cs: seq<Comparison>, root: Value, i: int, p: Path)
    requires |cs| > 0 && OperandResolves(cs[0].lhs, root) && OperandResolves(cs[0].rhs, root)
    requires FirstMissing(cs[1..], root, i, p)
    ensures FirstMissing(cs, root, i + 1, p)
  {
    assert forall j :: 1 <= j < |cs| ==> cs[j] == cs[1..][j - 1];
  }

  function ResolveComparisons(cs: seq<Comparison>, root: Value): (r: Result<seq<Comparison>, InterpolationError>)
    ensures r.Ok? <==> forall i :: 0 <= i < |cs| ==> OperandResolves(cs[i].lhs, root) && OperandResolves(cs[i].rhs, root)
    ensures r.Ok? ==> |r.value| == |cs|
    ensures r.Ok? ==> forall i :: 0 <= i < |cs| ==> CmpSelfFree(r.value[i])
    ensures r.Ok? ==> forall i, e :: 0 <= i < |cs| ==> (Holds(r.value[i], root, e) <==> Holds(cs[i], root, e))
    ensures r.Err? ==> r.error.MissingReference? && exists i :: FirstMissing(cs, root, i, r.error.path)
    decreases |cs|
  {
    if |cs| == 0 then Ok([])
    else
      assert !OperandResolves(cs[0].lhs, root) ==> FirstMissing(cs, root, 0, cs[0].lhs.path);
      var l :- ResolveOperand(cs[0].lhs, root);
      assert !OperandResolves(cs[0].rhs, root) ==> FirstMissing(cs, root, 0, cs[0].rhs.path);
      var r :- ResolveOperand(cs[0].rhs, root);
      match ResolveComparisons(cs[1..], root)
      case Err(e) =>
        var i :| FirstMissing(cs[1..], root, i, e.path);
        FirstMissingTail(cs, root, i, e.path);
        Err(e)
      case Ok(rest) =>
        assert forall i :: 1 <= i < |cs| ==> cs[i] == cs[1..][i - 1];
        var out := [Equals(l, r)] + rest;
        assert forall i :: 1 <= i < |cs| ==> out[i] == rest[i - 1];
        Ok(out)
  }

  /** The pre-pass: every `self:` operand replaced by the scalar found in the
      issuing tree, or the first path that leads nowhere reported. */
  function ResolveQuery(q: Query, root: Value): (r: Result<Query, InterpolationError>)
    ensures r.Ok? <==> SelfRefsResolve(q, root)
    ensures r.Ok? ==> SelfFree(r.value)
    ensures r.Ok? ==> r.value.allEnvs == q.allEnvs && r.value.valuePath == q.valuePath
    ensures r.Ok? ==> forall n :: Matches(r.value, root, n) <==> Matches(q, root, n)
    ensures r.Err? ==>
      (q.cond.Some? && r.error.MissingReference? && exists i :: FirstMissing(q.cond.value.cmps, root, i, r.error.path))
  {
    match q.cond
    case None => Ok(q)
    case Some(c) =>
      var cs :- ResolveComparisons(c.cmps, root);
      var c' := if c.All? then All(cs) else Any(cs);
      Ok(q.(cond := Some(c')))
  }

  /** Once resolved, the query no longer depends on the issuing tree. */
  lemma SelfFreeIgnoresSelf(q: Query, s1: Value, s2: Value, n: NodeInventory)
    requires SelfFree(q)
    ensures Matches(q, s1, n) <==> Matches(q, s2, n)
  {
    if q.cond.Some? {
      var c := q.cond.value;
      forall i | 0 <= i < |c.cmps| ensures Holds(c.cmps[i], s1, n.exports) <==> Holds(c.cmps[i], s2, n.exports) {
        HoldsIgnoresSelf(c.cmps[i], s1, s2, n.exports);
      }
      assert CondHolds(c, s1, n.exports) == CondHolds(c, s2, n.exports);
    }
  }

  lemma HoldsIgnoresSelf(c: Comparison, s1: Value, s2: Value, e: Value)
    requires CmpSelfFree(c)
    ensures Holds(c, s1, e) <==> Holds(c, s2, e)
  {
    assert OperandValue(c.lhs, s1, e) == OperandValue(c.lhs, s2, e);
    assert OperandValue(c.rhs, s1, e) == OperandValue(c.rhs, s2, e);
  }

  /** Query `i` is the first whose `self:` operands do not all resolve. */
  predicate FirstUnresolved(qs: seq<Query>, root: Value, i: int) {
    && 0 <= i < |qs|
    && (forall j :: 0 <= j < i ==> SelfRefsResolve(qs[j], root))
    && !SelfRefsResolve(qs[i], root)
  }

  lemma FirstUnresolvedTail(qs: seq<Query>, root: Value, i: int)
    requires |qs| > 0 && SelfRefsResolve(qs[0], root)
    requires FirstUnresolved(qs[1..], root, i)
    ensures FirstUnresolved(qs, root, i + 1) && qs[i + 1] == qs[1..][i]
  {
    assert forall j :: 1 <= j < |qs| ==> qs[j] == qs[1..][j - 1];
  }

  /** Resolves the queries in order; the error is that of the first query
      whose `self:` operands do not all resolve. */
  function ResolveAll(qs: seq<Query>, root: Value): (r: Result<seq<Query>, InterpolationError>)
    ensures r.Ok? <==> forall i :: 0 <= i < |qs| ==> SelfRefsResolve(qs[i], root)
    ensures r.Ok? ==> |r.value| == |qs|
    ensures r.Ok? ==> forall i :: 0 <= i < |qs| ==> ResolveQuery(qs[i], root) == Ok(r.value[i])
    ensures r.Err? ==> exists i :: FirstUnresolved(qs, root, i) && ResolveQuery(qs[i], root) == Err(r.error)
    decreases |qs|
  {
    if |qs| == 0 then Ok([])
    else
      match ResolveQuery(qs[0], root)
      case Err(e) =>
        assert FirstUnresolved(qs, root, 0);
        Err(e)
      case Ok(q) =>
        match ResolveAll(qs[1..], root)
        case Err(e) =>
          var i :| FirstUnresolved(qs[1..], root, i) && ResolveQuery(qs[1..][i], root) == Err(e);
          FirstUnresolvedTail(qs, root, i);
          Err(e)
        case Ok(rest) =>
          assert forall i :: 1 <= i < |qs| ==> qs[i] == qs[1..][i - 1];
          var out := [q] + rest;
          assert forall i :: 1 <= i < |qs| ==> out[i] == rest[i - 1];
          Ok(out)
  }

  // ---------------------------------------------------------------------------
  // Accumulated queries.

  /** The union, in order and without repeats, of the list results of `rs`. */
  function AccumulatedNames(rs: seq<Query>, self: Value, inv: Inventory): (r: seq<string>)
    ensures forall x :: x in r <==> exists i :: 0 <= i < |rs| && x in ListResult(rs[i], self, inv)
    ensures DistinctNames(inv) ==> Distinct(r)
    decreases |rs|
  {
    if |rs| == 0 then []
    else
      var init := rs[..|rs| - 1];
      var last := ListResult(rs[|rs| - 1], self, inv);
      var prev := AccumulatedNames(init, self, inv);
      var r := Union(prev, last);
      AccumulatedMembers(rs, init, self, inv, prev, r);
      r
  }

  /** One step of `AccumulatedNames`: adding the last query's names to the
      union of the earlier ones gives the union of all. */
  lemma AccumulatedMembers(rs: seq<Query>, init: seq<Query>, self: Value, inv: Inventory, prev: seq<string>, r: seq<string>)
    requires |rs| > 0 && init == rs[..|rs| - 1]
    requires forall x :: x in prev <==> exists i :: 0 <= i < |init| && x in ListResult(init[i], self, inv)
    requires forall x :: x in r <==> x in prev || x in ListResult(rs[|rs| - 1], self, inv)
    ensures forall x :: x in r <==> exists i :: 0 <= i < |rs| && x in ListResult(rs[i], self, inv)
  {
    forall x | x in r ensures exists i :: 0 <= i < |rs| && x in ListResult(rs[i], self, inv) {
      if x in prev {
        var i :| 0 <= i < |init| && x in ListResult(init[i], self, inv);
        assert init[i] == rs[i];
      } else {
        assert x in ListResult(rs[|rs| - 1], self, inv);
      }
    }
    forall x, i | 0 <= i < |rs| && x in ListResult(rs[i], self, inv) ensures x in r {
      if i < |rs| - 1 {
        assert init[i] == rs[i];
      }
    }
  }

  /** The value a key holding one or several pending queries resolves to. */
  function EvalPending(qs: seq<Query>, root: Value, inv: Inventory): (r: Result<Value, InterpolationError>)
    ensures r.Ok? <==> (forall i :: 0 <= i < |qs| ==> SelfRefsResolve(qs[i], root)) && (|qs| == 1 || forall i :: 0 <= i < |qs| ==> IsListQuery(qs[i]))
    ensures r.Err? && r.error.UnsupportedAccumulation? ==> |qs| > 1
    ensures r.Err? && !r.error.UnsupportedAccumulation? ==>
      exists i :: FirstUnresolved(qs, root, i) && ResolveQuery(qs[i], root) == Err(r.error)
    ensures r.Ok? && PlainInventory(inv) ==> Plain(r.value)
  {
    var rs :- ResolveAll(qs, root);
    if |rs| == 1 then Ok(Evaluate(rs[0], root, inv))
    else if forall i :: 0 <= i < |rs| ==> IsListQuery(rs[i]) then Ok(NameList(AccumulatedNames(rs, root, inv)))
    else Err(UnsupportedAccumulation)
  }

  /** A lone query whose `self:` operands resolve evaluates as if those
      operands had been written as the scalars they lead to. */
  lemma SingleQueryEvaluates(q: Query, root: Value, inv: Inventory)
    requires SelfRefsResolve(q, root)
    ensures EvalPending([q], root, inv) == Ok(Evaluate(q, root, inv))
  {
    var rq := ResolveAll([q], root).value[0];
    assert ResolveQuery(q, root) == Ok(rq);
    ListResultAfterResolve(q, rq, root, inv);
  }

  /** Two accumulated list queries give the first one's names followed by
      the second one's new names. */
  lemma TwoListQueriesUnion(q1: Query, q2: Query, root: Value, inv: Inventory)
    requires IsListQuery(q1) && IsListQuery(q2) && DistinctNames(inv)
    requires SelfRefsResolve(q1, root) && SelfRefsResolve(q2, root)
    ensures EvalPending([q1, q2], root, inv) == Ok(NameList(Union(ListResult(q1, root, inv), ListResult(q2, root, inv))))
  {
    var rs := ResolveAll([q1, q2], root).value;
    assert ResolveQuery(q1, root) == Ok(rs[0]) && ResolveQuery(q2, root) == Ok(rs[1]);
    assert rs == [rs[0], rs[1]];
    assert IsListQuery(rs[0]) && IsListQuery(rs[1]);
    assert EvalPending([q1, q2], root, inv) == Ok(NameList(AccumulatedNames(rs, root, inv)));
    ListResultAfterResolve(q1, rs[0], root, inv);
    ListResultAfterResolve(q2, rs[1], root, inv);
    AccumulatedPair(rs[0], rs[1], root, inv);
  }

  /** Any number of accumulated list queries whose `self:` operands resolve
      give the union, in order and without repeats, of their list results. */
  lemma ListQueriesAccumulate(qs: seq<Query>, root: Value, inv: Inventory)
    requires DistinctNames(inv)
    requires forall i :: 0 <= i < |qs| ==> IsListQuery(qs[i]) && SelfRefsResolve(qs[i], root)
    ensures EvalPending(qs, root, inv) == Ok(NameList(AccumulatedNames(qs, root, inv)))
  {
    var rs := ResolveAll(qs, root).value;
    forall i | 0 <= i < |qs| ensures IsListQuery(rs[i]) && ListResult(rs[i], root, inv) == ListResult(qs[i], root, inv) {
      ListResultAfterResolve(qs[i], rs[i], root, inv);
    }
    AccumulatedAgree(rs, qs, root, inv);
    if |rs| == 1 {
      AccumulatedSingle(rs[0], root, inv);
      assert rs == [rs[0]];
    }
  }

  /** Queries with the same list results accumulate to the same names. */
  lemma {:induction false} AccumulatedAgree(a: seq<Query>, b: seq<Query>, self: Value, inv: Inventory)
    requires |a| == |b| && forall i :: 0 <= i < |a| ==> ListResult(a[i], self, inv) == ListResult(b[i], self, inv)
    ensures AccumulatedNames(a, self, inv) == AccumulatedNames(b, self, inv)
    decreases |a|
  {
    if |a| > 0 {
      AccumulatedAgree(a[..|a| - 1], b[..|b| - 1], self, inv);
    }
  }

  /** Later queries only append: the names accumulated from the first `k`
      queries are a prefix of the names accumulated from all of them. */
  lemma {:induction false} AccumulatedPrefix(rs: seq<Query>, k: nat, self: Value, inv: Inventory)
    requires k <= |rs|
    ensures var p, r := AccumulatedNames(rs[..k], self, inv), AccumulatedNames(rs, self, inv);
      |p| <= |r| && r[..|p|] == p
    decreases |rs|
  {
    if k < |rs| {
      var init := rs[..|rs| - 1];
      assert init[..k] == rs[..k];
      AccumulatedPrefix(init, k, self, inv);
      var p, q, r := AccumulatedNames(rs[..k], self, inv), AccumulatedNames(init, self, inv), AccumulatedNames(rs, self, inv);
      assert r[..|q|] == q;
      assert r[..|p|] == q[..|p|];
    } else {
      assert rs[..k] == rs;
    }
  }

  /** Each further query appends, after the names listed so far, exactly its
      own names not listed before, in inventory order. */
  lemma AccumulatedStep(rs: seq<Query>, self: Value, inv: Inventory)
    requires |rs| > 0 && DistinctNames(inv)
    ensures var prev := AccumulatedNames(rs[..|rs| - 1], self, inv);
      AccumulatedNames(rs, self, inv) == prev + Without(ListResult(rs[|rs| - 1], self, inv), prev)
  {
    UnionIsAppend(AccumulatedNames(rs[..|rs| - 1], self, inv), ListResult(rs[|rs| - 1], self, inv));
  }

  /** The first query's names come first, in its own order. */
  lemma AccumulatedFirst(rs: seq<Query>, self: Value, inv: Inventory)
    requires |rs| > 0 && DistinctNames(inv)
    ensures var l, r := ListResult(rs[0], self, inv), AccumulatedNames(rs, self, inv);
      |l| <= |r| && r[..|l|] == l
  {
    AccumulatedPrefix(rs, 1, self, inv);
    assert rs[..1] == [rs[0]];
    AccumulatedSingle(rs[0], self, inv);
  }

  lemma AccumulatedPair(r1: Query, r2: Query, self: Value, inv: Inventory)
    requires DistinctNames(inv)
    ensures AccumulatedNames([r1, r2], self, inv) == Union(ListResult(r1, self, inv), ListResult(r2, self, inv))
  {
    assert [r1, r2][..1] == [r1];
    AccumulatedSingle(r1, self, inv);
    assert AccumulatedNames([r1, r2], self, inv) == Union(AccumulatedNames([r1], self, inv), ListResult(r2, self, inv));
  }

  lemma AccumulatedSingle(r1: Query, self: Value, inv: Inventory)
    requires DistinctNames(inv)
    ensures AccumulatedNames([r1], self, inv) == ListResult(r1, self, inv)
  {
    var l1 := ListResult(r1, self, inv);
    assert [r1][..0] == [];
    assert AccumulatedNames([r1], self, inv) == Union([], l1);
    UnionOfDisjoint([], l1);
    assert [] + l1 == l1;
  }

  /** Resolving `self:` operands first does not change which nodes a list
      query lists. */
  lemma ListResultAfterResolve(q: Query, rq: Query, root: Value, inv: Inventory)
    requires ResolveQuery(q, root) == Ok(rq)
    ensures ListResult(rq, root, inv) == ListResult(q, root, inv)
    ensures Candidates(rq, root, inv) == Candidates(q, root, inv)
  {
    CandidatesAgree(q, rq, root, inv);
  }

  lemma {:induction false} CandidatesAgree(q: Query, rq: Query, root: Value, inv: Inventory)
    requires forall n :: Matches(rq, root, n) <==> Matches(q, root, n)
    ensures Candidates(rq, root, inv) == Candidates(q, root, inv)
    decreases |inv|
  {
    if |inv| > 0 {
      CandidatesAgree(q, rq, root, inv[1..]);
    }
  }
}
