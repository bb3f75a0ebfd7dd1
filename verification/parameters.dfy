/** Parameter and export trees as a whole: eager construction from raw data
    (every query string is parsed at once), `overwrite`, deep `merge` with
    accumulation of queries under the same key, and `interpolate`, which
    evaluates every pending query and turns the tree's own typed containers
    into plain ones. */
module Parameters {
  import opened Wrappers
  import opened Ast
  import opened Values
  import opened Seqs
  import opened Parser
  import opened Eval

  // ---------------------------------------------------------------------------
  // Construction.

  /** Every string of query shape in the tree is a well-formed query. */
  predicate QueriesParse(v: Value, d: char)
    decreases v
  {
    match v
    case Leaf(Str(s)) => IsQueryShape(s) ==> ParseQuery(s, d).Ok?
    case Leaf(_) => true
    case Dict(es, _) => forall i :: 0 <= i < |es| ==> QueriesParse(es[i].val, d)
    case List(xs, _) => forall i :: 0 <= i < |xs| ==> QueriesParse(xs[i], d)
    case Pending(_) => true
  }

  /** Raw data holding no query at all, neither as text nor parsed. */
  predicate NoQueryText(v: Value)
    decreases v
  {
    match v
    case Leaf(Str(s)) => !IsQueryShape(s)
    case Leaf(_) => true
    case Dict(es, _) => forall i :: 0 <= i < |es| ==> NoQueryText(es[i].val)
    case List(xs, _) => forall i :: 0 <= i < |xs| ==> NoQueryText(xs[i])
    case Pending(_) => false
  }

  /** `r` is the typed tree built from `raw`: each string of query shape is
      a pending value holding its parsed query, every other scalar is kept,
      and each container keeps its keys, order and length and is typed. */
  predicate Built(raw: Value, r: Value, d: char)
    decreases raw
  {
    match raw
    case Leaf(Str(s)) =>
      if IsQueryShape(s) then ParseQuery(s, d).Ok? && r == Pending([ParseQuery(s, d).value]) else r == raw
    case Leaf(_) => r == raw
    case Dict(es, _) =>
      r.Dict? && r.typed && |r.entries| == |es|
      && forall i :: 0 <= i < |es| ==> r.entries[i].key == es[i].key && Built(es[i].val, r.entries[i].val, d)
    case List(xs, _) =>
      r.List? && r.typed && |r.items| == |xs| && forall i :: 0 <= i < |xs| ==> Built(xs[i], r.items[i], d)
    case Pending(_) => r == raw
  }

  /** At most one tree is built from given raw data. */
  lemma {:induction false} BuiltUnique(raw: Value, r1: Value, r2: Value, d: char)
    requires Built(raw, r1, d) && Built(raw, r2, d)
    ensures r1 == r2
    decreases raw
  {
    match raw
    case Leaf(_) =>
    case Pending(_) =>
    case Dict(es, _) =>
      forall i | 0 <= i < |es| ensures r1.entries[i] == r2.entries[i] {
        BuiltUnique(es[i].val, r1.entries[i].val, r2.entries[i].val, d);
      }
      assert r1.entries == r2.entries;
    case List(xs, _) =>
      forall i | 0 <= i < |xs| ensures r1.items[i] == r2.items[i] {
        BuiltUnique(xs[i], r1.items[i], r2.items[i], d);
      }
      assert r1.items == r2.items;
  }

  /** Builds a typed tree from raw data, parsing every query string at once:
      a malformed query fails the construction, before any interpolation. */
  function Construct(raw: Value, d: char): (r: Result<Value, ParseError>)
    ensures r.Ok? <==> QueriesParse(raw, d)
    ensures r.Ok? ==> Built(raw, r.value, d)
    ensures r.Ok? ==> AllTyped(r.value)
    ensures NoQueryText(raw) ==> r.Ok? && QueryFree(r.value) && Erase(r.value) == Erase(raw)
    decreases raw
  {
    match raw
    case Leaf(Str(s)) =>
      if IsQueryShape(s) then
        var q :- ParseQuery(s, d);
        Ok(Pending([q]))
      else Ok(raw)
    case Leaf(_) => Ok(raw)
    case Dict(es, t) =>
      assert NoQueryText(raw) ==> forall i :: 0 <= i < |es| ==> Construct(es[i].val, d).Ok?;
      var es' :- ConstructEntries(es, d);
      EntriesBuilt(es, es', t, d);
      Ok(Dict(es', true))
    case List(xs, t) =>
      assert NoQueryText(raw) ==> forall i :: 0 <= i < |xs| ==> Construct(xs[i], d).Ok?;
      var xs' :- ConstructItems(xs, d);
      ItemsBuilt(xs, xs', t, d);
      Ok(List(xs', true))
    case Pending(_) => Ok(raw)
  }

  /** What `Construct` promises of each built child. */
  predicate ChildBuilt(v: Value, v': Value, d: char) {
    Built(v, v', d) && AllTyped(v') && (NoQueryText(v) ==> QueryFree(v') && Erase(v') == Erase(v))
  }

  lemma EntriesBuilt(es: seq<Entry>, es': seq<Entry>, t: bool, d: char)
    requires |es'| == |es|
    requires forall i :: 0 <= i < |es| ==> es'[i].key == es[i].key && ChildBuilt(es[i].val, es'[i].val, d)
    ensures Built(Dict(es, t), Dict(es', true), d) && AllTyped(Dict(es', true))
    ensures NoQueryText(Dict(es, t)) ==> QueryFree(Dict(es', true)) && Erase(Dict(es', true)) == Erase(Dict(es, t))
  {
    EraseEntriesAgree(es', es, true, t);
  }

  lemma ItemsBuilt(xs: seq<Value>, xs': seq<Value>, t: bool, d: char)
    requires |xs'| == |xs|
    requires forall i :: 0 <= i < |xs| ==> ChildBuilt(xs[i], xs'[i], d)
    ensures Built(List(xs, t), List(xs', true), d) && AllTyped(List(xs', true))
    ensures NoQueryText(List(xs, t)) ==> QueryFree(List(xs', true)) && Erase(List(xs', true)) == Erase(List(xs, t))
  {
    EraseItemsAgree(xs', xs, true, t);
  }

  /** Two dictionaries with the same keys and values that agree up to tags
      erase to the same dictionary. */
  lemma EraseEntriesAgree(a: seq<Entry>, b: seq<Entry>, ta: bool, tb: bool)
    ensures (|a| == |b| && forall i :: 0 <= i < |a| ==> a[i].key == b[i].key && Erase(a[i].val) == Erase(b[i].val))
      ==> Erase(Dict(a, ta)) == Erase(Dict(b, tb))
  {
    if |a| == |b| && forall i :: 0 <= i < |a| ==> a[i].key == b[i].key && Erase(a[i].val) == Erase(b[i].val) {
      assert Erase(Dict(a, ta)).entries == Erase(Dict(b, tb)).entries;
    }
  }

  lemma EraseItemsAgree(a: seq<Value>, b: seq<Value>, ta: bool, tb: bool)
    ensures (|a| == |b| && forall i :: 0 <= i < |a| ==> Erase(a[i]) == Erase(b[i]))
      ==> Erase(List(a, ta)) == Erase(List(b, tb))
  {
    if |a| == |b| && forall i :: 0 <= i < |a| ==> Erase(a[i]) == Erase(b[i]) {
      assert Erase(List(a, ta)).items == Erase(List(b, tb)).items;
    }
  }

  /** A dictionary whose values are the erased values of `b` is the erasure of `b`. */
  lemma ErasedEntries(a: seq<Entry>, b: seq<Entry>, tb: bool)
    ensures (|a| == |b| && forall i :: 0 <= i < |a| ==> a[i].key == b[i].key && a[i].val == Erase(b[i].val))
      ==> Dict(a, false) == Erase(Dict(b, tb))
  {
    if |a| == |b| && forall i :: 0 <= i < |a| ==> a[i].key == b[i].key && a[i].val == Erase(b[i].val) {
      assert a == Erase(Dict(b, tb)).entries;
    }
  }

  lemma ErasedItems(a: seq<Value>, b: seq<Value>, tb: bool)
    ensures (|a| == |b| && forall i :: 0 <= i < |a| ==> a[i] == Erase(b[i]))
      ==> List(a, false) == Erase(List(b, tb))
  {
    if |a| == |b| && forall i :: 0 <= i < |a| ==> a[i] == Erase(b[i]) {
      assert a == Erase(List(b, tb)).items;
    }
  }

  function ConstructEntries(es: seq<Entry>, d: char): (r: Result<seq<Entry>, ParseError>)
    ensures r.Ok? <==> forall i :: 0 <= i < |es| ==> QueriesParse(es[i].val, d)
    ensures r.Ok? ==> |r.value| == |es|
    ensures r.Ok? ==> forall i :: 0 <= i < |es| ==> r.value[i].key == es[i].key && Construct(es[i].val, d) == Ok(r.value[i].val)
    decreases es
  {
    if |es| == 0 then Ok([])
    else
      var v :- Construct(es[0].val, d);
      var rest :- ConstructEntries(es[1..], d);
      assert forall i :: 1 <= i < |es| ==> es[i] == es[1..][i - 1];
      Ok([Entry(es[0].key, v)] + rest)
  }

  function ConstructItems(xs: seq<Value>, d: char): (r: Result<seq<Value>, ParseError>)
    ensures r.Ok? <==> forall i :: 0 <= i < |xs| ==> QueriesParse(xs[i], d)
    ensures r.Ok? ==> |r.value| == |xs|
    ensures r.Ok? ==> forall i :: 0 <= i < |xs| ==> Construct(xs[i], d) == Ok(r.value[i])
    decreases xs
  {
    if |xs| == 0 then Ok([])
    else
      var v :- Construct(xs[0], d);
      var rest :- ConstructItems(xs[1..], d);
      assert forall i :: 1 <= i < |xs| ==> xs[i] == xs[1..][i - 1];
      Ok([v] + rest)
  }

  /** Replaces the whole content of `t` by the tree built from `data`; nothing
      of `t` survives (by `BuiltUnique`, the result is determined by `data`). */
  function Overwrite(t: Value, data: Value, d: char): (r: Result<Value, ParseError>)
    ensures r.Ok? <==> QueriesParse(data, d)
    ensures r.Ok? ==> Built(data, r.value, d)
    ensures NoQueryText(data) ==> r.Ok? && Erase(r.value) == Erase(data)
  {
    Construct(data, d)
  }

  // ---------------------------------------------------------------------------
  // Merge.

  /** Deep merge of `b` into `a`: dictionaries merge key by key, lists
      concatenate, two pending values accumulate their queries, and in every
      other case `b` wins. */
  function Merge(a: Value, b: Value): (r: Value)
    ensures a.Dict? && b.Dict? ==> r.Dict? && Keys(r.entries) == Union(Keys(a.entries), Keys(b.entries))
    ensures a.List? && b.List? ==> r.List? && r.items == a.items + b.items
    decreases b, 0
  {
    match (a, b)
    case (Dict(ea, ta), Dict(eb, tb)) => Dict(MergeEntries(ea, eb), ta || tb)
    case (List(xa, ta), List(xb, tb)) => List(xa + xb, ta || tb)
    case (Pending(qa), Pending(qb)) => Pending(qa + qb)
    case _ => b
  }

  /** Merges the entries of `eb`, in order, into `ea`. */
  function MergeEntries(ea: seq<Entry>, eb: seq<Entry>): (r: seq<Entry>)
    ensures Keys(r) == Union(Keys(ea), Keys(eb))
    decreases eb
  {
    if |eb| == 0 then ea
    else
      var k := eb[0].key;
      var ea' := MergeKey(ea, k, eb[0].val);
      assert Keys(eb)[1..] == Keys(eb[1..]);
      MergeEntries(ea', eb[1..])
  }

  function MergeKey(ea: seq<Entry>, k: string, v: Value): (r: seq<Entry>)
    ensures k in Keys(ea) ==> Keys(r) == Keys(ea)
    ensures k !in Keys(ea) ==> Keys(r) == Keys(ea) + [k]
    decreases v, 1
  {
    match Index(ea, k)
    case Some(i) =>
      var r := ea[i := Entry(k, Merge(ea[i].val, v))];
      assert Keys(r) == Keys(ea);
      r
    case None =>
      var r := ea + [Entry(k, v)];
      assert Keys(r) == Keys(ea) + [k];
      r
  }

  lemma FindMergeKey(ea: seq<Entry>, k: string, v: Value, k': string)
    ensures Find(MergeKey(ea, k, v), k') ==
      if k' != k then Find(ea, k')
      else if k in Keys(ea) then Some(Merge(Find(ea, k).value, v))
      else Some(v)
  {
    var r := MergeKey(ea, k, v);
    IndexByKeysOrAppend(ea, k, v, k');
  }

  lemma IndexByKeysOrAppend(ea: seq<Entry>, k: string, v: Value, k': string)
    ensures Index(MergeKey(ea, k, v), k') ==
      if k' in Keys(ea) then Index(ea, k')
      else if k' == k then Some(|ea|)
      else None
    ensures Index(ea, k).Some? && k' == k ==> MergeKey(ea, k, v)[Index(ea, k).value].val == Merge(Find(ea, k).value, v)
  {
    var r := MergeKey(ea, k, v);
    if k in Keys(ea) {
      IndexByKeys(r, ea, k');
    } else {
      var ir := Index(r, k');
      assert r[..|ea|] == ea;
      if k' in Keys(ea) {
        var i := Index(ea, k').value;
        assert r[i] == ea[i];
        assert forall j :: 0 <= j < i ==> r[j] == ea[j];
      } else if k' == k {
        assert r[|ea|].key == k;
        assert forall j :: 0 <= j < |ea| ==> r[j].key == Keys(ea)[j];
      } else {
        assert forall j :: 0 <= j < |r| ==> r[j].key != k' by {
          assert forall j :: 0 <= j < |ea| ==> r[j].key == Keys(ea)[j];
        }
      }
    }
  }

  /** What a merged dictionary holds under a key: the merge of both values
      when both sides have the key, otherwise the one side's value. */
  lemma {:induction false} FindMergeEntries(ea: seq<Entry>, eb: seq<Entry>, k: string)
    requires Distinct(Keys(eb))
    ensures Find(MergeEntries(ea, eb), k) ==
      if k in Keys(ea) && k in Keys(eb) then Some(Merge(Find(ea, k).value, Find(eb, k).value))
      else if k in Keys(ea) then Find(ea, k)
      else Find(eb, k)
    decreases |eb|
  {
    if |eb| > 0 {
      var k0 := eb[0].key;
      var ea' := MergeKey(ea, k0, eb[0].val);
      assert Keys(eb) == [k0] + Keys(eb[1..]);
      assert Distinct(Keys(eb[1..])) by {
        forall i, j | 0 <= i < j < |Keys(eb[1..])| ensures Keys(eb[1..])[i] != Keys(eb[1..])[j] {
          assert Keys(eb[1..])[i] == Keys(eb)[i + 1] && Keys(eb[1..])[j] == Keys(eb)[j + 1];
        }
      }
      FindMergeEntries(ea', eb[1..], k);
      FindMergeKey(ea, k0, eb[0].val, k);
      if k == k0 {
        assert k !in Keys(eb[1..]) by {
          forall i | 0 <= i < |Keys(eb[1..])| ensures Keys(eb[1..])[i] != k {
            assert Keys(eb[1..])[i] == Keys(eb)[i + 1];
          }
        }
        assert Index(eb, k) == Some(0);
      } else {
        FindTail(eb, k);
      }
    }
  }

  lemma FindTail(es: seq<Entry>, k: string)
    requires |es| > 0 && es[0].key != k
    ensures Find(es, k) == Find(es[1..], k)
  {
    assert Keys(es) == [es[0].key] + Keys(es[1..]);
  }

  /** Merging two trees whose key `k` holds pending queries keeps both sets of
      queries, the first tree's first. */
  lemma MergeAccumulates(a: Value, b: Value, k: string, qa: seq<Query>, qb: seq<Query>)
    requires a.Dict? && b.Dict? && Distinct(Keys(b.entries))
    requires Find(a.entries, k) == Some(Pending(qa)) && Find(b.entries, k) == Some(Pending(qb))
    ensures Merge(a, b).Dict? && Find(Merge(a, b).entries, k) == Some(Pending(qa + qb))
  {
    assert Merge(a, b) == Dict(MergeEntries(a.entries, b.entries), a.typed || b.typed);
    FindMergeEntries(a.entries, b.entries, k);
    assert Merge(Pending(qa), Pending(qb)) == Pending(qa + qb);
  }

  // ---------------------------------------------------------------------------
  // Interpolation.

  /** Every pending value of the tree evaluates without error. */
  predicate QueriesEvaluate(v: Value, root: Value, inv: Inventory)
    decreases v
  {
    match v
    case Leaf(_) => true
    case Dict(es, _) => forall i :: 0 <= i < |es| ==> QueriesEvaluate(es[i].val, root, inv)
    case List(xs, _) => forall i :: 0 <= i < |xs| ==> QueriesEvaluate(xs[i], root, inv)
    case Pending(qs) => EvalPending(qs, root, inv).Ok?
  }

  /** `r` has the shape of `t`: the same keys in the same order, the same list
      lengths and the same scalars, and wherever `t` holds pending queries,
      at any depth, `r` holds their evaluation against `inv` for the
      issuing tree `root`. */
  predicate Fills(t: Value, r: Value, root: Value, inv: Option<Inventory>)
    decreases t
  {
    match t
    case Leaf(_) => r == t
    case Pending(qs) => inv.Some? && EvalPending(qs, root, inv.value) == Ok(r)
    case Dict(es, _) =>
      r.Dict? && |r.entries| == |es|
      && forall i :: 0 <= i < |es| ==> r.entries[i].key == es[i].key && Fills(es[i].val, r.entries[i].val, root, inv)
    case List(xs, _) =>
      r.List? && |r.items| == |xs| && forall i :: 0 <= i < |xs| ==> Fills(xs[i], r.items[i], root, inv)
  }

  /** Resolves every pending value below `v`; `root` is the issuing tree that
      `self:` operands read. */
  function Resolve(v: Value, root: Value, inv: Option<Inventory>): (r: Result<Value, InterpolationError>)
    ensures QueryFree(v) ==> r == Ok(Erase(v))
    ensures inv.None? ==> (r.Ok? <==> QueryFree(v)) && (r.Err? ==> r.error == InventoryRequired)
    ensures inv.Some? ==> (r.Ok? <==> QueriesEvaluate(v, root, inv.value))
    ensures r.Ok? ==> Fills(v, r.value, root, inv)
    ensures r.Ok? && (inv.Some? ==> PlainInventory(inv.value)) ==> Plain(r.value)
    decreases v
  {
    match v
    case Leaf(_) => Ok(v)
    case Dict(es, _) =>
      var es' :- ResolveEntries(es, root, inv);
      ErasedEntries(es', es, v.typed);
      Ok(Dict(es', false))
    case List(xs, _) =>
      var xs' :- ResolveItems(xs, root, inv);
      ErasedItems(xs', xs, v.typed);
      Ok(List(xs', false))
    case Pending(qs) =>
      if inv.None? then Err(InventoryRequired) else EvalPending(qs, root, inv.value)
  }

  function ResolveEntries(es: seq<Entry>, root: Value, inv: Option<Inventory>): (r: Result<seq<Entry>, InterpolationError>)
    ensures r.Ok? <==> forall i :: 0 <= i < |es| ==> Resolve(es[i].val, root, inv).Ok?
    ensures r.Ok? ==> |r.value| == |es|
    ensures r.Ok? ==> forall i :: 0 <= i < |es| ==> r.value[i].key == es[i].key && Resolve(es[i].val, root, inv) == Ok(r.value[i].val)
    ensures inv.None? && r.Err? ==> r.error == InventoryRequired
    decreases es
  {
    if |es| == 0 then Ok([])
    else
      var v :- Resolve(es[0].val, root, inv);
      var rest :- ResolveEntries(es[1..], root, inv);
      assert forall i :: 1 <= i < |es| ==> es[i] == es[1..][i - 1];
      Ok([Entry(es[0].key, v)] + rest)
  }

  function ResolveItems(xs: seq<Value>, root: Value, inv: Option<Inventory>): (r: Result<seq<Value>, InterpolationError>)
    ensures r.Ok? <==> forall i :: 0 <= i < |xs| ==> Resolve(xs[i], root, inv).Ok?
    ensures r.Ok? ==> |r.value| == |xs|
    ensures r.Ok? ==> forall i :: 0 <= i < |xs| ==> Resolve(xs[i], root, inv) == Ok(r.value[i])
    ensures inv.None? && r.Err? ==> r.error == InventoryRequired
    decreases xs
  {
    if |xs| == 0 then Ok([])
    else
      var v :- Resolve(xs[0], root, inv);
      var rest :- ResolveItems(xs[1..], root, inv);
      assert forall i :: 1 <= i < |xs| ==> xs[i] == xs[1..][i - 1];
      Ok([v] + rest)
  }

  /** Resolves the whole tree `t` in one all-or-nothing step: on success
      every query is replaced by its evaluation and every other value keeps
      its place, and against an inventory with plain exports no typed
      container is left; without an inventory any query is an error. */
  function Interpolate(t: Value, inv: Option<Inventory>): (r: Result<Value, InterpolationError>)
    ensures QueryFree(t) ==> r == Ok(Erase(t))
    ensures inv.None? ==> (r.Ok? <==> QueryFree(t)) && (r.Err? ==> r.error == InventoryRequired)
    ensures inv.Some? ==> (r.Ok? <==> QueriesEvaluate(t, t, inv.value))
    ensures r.Ok? ==> Fills(t, r.value, t, inv)
    ensures r.Ok? && (inv.Some? ==> PlainInventory(inv.value)) ==> Plain(r.value)
  {
    Resolve(t, t, inv)
  }

  /** After a successful interpolation, the value under a top-level key is
      what that key's original value resolves to. */
  lemma InterpolateAtKey(t: Value, inv: Option<Inventory>, k: string)
    requires t.Dict? && k in Keys(t.entries) && Interpolate(t, inv).Ok?
    ensures var r := Interpolate(t, inv).value;
      var v := Find(t.entries, k).value;
      Resolve(v, t, inv).Ok? && r.Dict? && Find(r.entries, k) == Some(Resolve(v, t, inv).value)
  {
    var r := Interpolate(t, inv).value;
    var es' := ResolveEntries(t.entries, t, inv).value;
    assert r.entries == es';
    assert Keys(es') == Keys(t.entries);
    IndexByKeys(es', t.entries, k);
  }

  /** A top-level query resolves to its evaluation against the inventory. */
  lemma InterpolateQueryKey(t: Value, inv: Inventory, k: string, qs: seq<Query>)
    requires t.Dict? && Find(t.entries, k) == Some(Pending(qs)) && Interpolate(t, Some(inv)).Ok?
    ensures EvalPending(qs, t, inv).Ok?
    ensures Find(Interpolate(t, Some(inv)).value.entries, k) == Some(EvalPending(qs, t, inv).value)
  {
    InterpolateAtKey(t, Some(inv), k);
    assert Resolve(Pending(qs), t, Some(inv)) == EvalPending(qs, t, inv);
  }

  /** A top-level key without queries comes out with the same content. */
  lemma InterpolateKeepsPlainKey(t: Value, inv: Option<Inventory>, k: string, v: Value)
    requires t.Dict? && Find(t.entries, k) == Some(v) && QueryFree(v) && Interpolate(t, inv).Ok?
    ensures Find(Interpolate(t, inv).value.entries, k) == Some(Erase(v))
  {
    InterpolateAtKey(t, inv, k);
  }

  /** Against an inventory with plain exports, interpolating an already
      interpolated tree changes nothing. */
  lemma InterpolateIdempotent(t: Value, inv: Option<Inventory>, inv': Option<Inventory>)
    requires Interpolate(t, inv).Ok? && (inv.Some? ==> PlainInventory(inv.value))
    ensures Interpolate(Interpolate(t, inv).value, inv') == Interpolate(t, inv)
  {
    var r := Interpolate(t, inv).value;
    PlainQueryFree(r);
    ErasePlain(r);
  }

  lemma {:induction false} PlainQueryFree(v: Value)
    requires Plain(v)
    ensures QueryFree(v)
    decreases v
  {
    match v
    case Leaf(_) =>
    case Dict(es, _) =>
      forall i | 0 <= i < |es| ensures QueryFree(es[i].val) { PlainQueryFree(es[i].val); }
    case List(xs, _) =>
      forall i | 0 <= i < |xs| ensures QueryFree(xs[i]) { PlainQueryFree(xs[i]); }
  }

  /** Type narrowing: raw data without queries is built into typed
      containers, and interpolation gives back the same data in plain
      containers. */
  lemma ConstructThenInterpolate(raw: Value, d: char, inv: Option<Inventory>)
    requires Plain(raw) && NoQueryText(raw)
    ensures Construct(raw, d).Ok? && AllTyped(Construct(raw, d).value)
    ensures Interpolate(Construct(raw, d).value, inv) == Ok(raw)
  {
    ErasePlain(raw);
  }

  /** A key of the raw data holding query text holds, once built, the
      pending query parsed from that text. */
  lemma ConstructQueryKey(raw: Value, d: char, k: string, s: string)
    requires raw.Dict? && Find(raw.entries, k) == Some(Leaf(Str(s))) && IsQueryShape(s)
    requires Construct(raw, d).Ok?
    ensures ParseQuery(s, d).Ok?
    ensures var t := Construct(raw, d).value;
      t.Dict? && Find(t.entries, k) == Some(Pending([ParseQuery(s, d).value]))
  {
    BuiltQueryKey(raw, Construct(raw, d).value, d, k, s);
  }

  lemma BuiltQueryKey(raw: Value, t: Value, d: char, k: string, s: string)
    requires raw.Dict? && Find(raw.entries, k) == Some(Leaf(Str(s))) && IsQueryShape(s)
    requires Built(raw, t, d)
    ensures ParseQuery(s, d).Ok? && t.Dict? && Find(t.entries, k) == Some(Pending([ParseQuery(s, d).value]))
  {
    assert Keys(t.entries) == Keys(raw.entries);
    IndexByKeys(t.entries, raw.entries, k);
    var i := Index(raw.entries, k).value;
    assert Built(raw.entries[i].val, t.entries[i].val, d);
  }

  /** Construction followed by interpolation: a key that held query text
      ends up holding the evaluation of the parsed query. */
  lemma ConstructThenInterpolateQuery(raw: Value, d: char, inv: Inventory, k: string, s: string)
    requires raw.Dict? && Find(raw.entries, k) == Some(Leaf(Str(s))) && IsQueryShape(s)
    requires Construct(raw, d).Ok? && Interpolate(Construct(raw, d).value, Some(inv)).Ok?
    ensures ParseQuery(s, d).Ok?
    ensures EvalPending([ParseQuery(s, d).value], Construct(raw, d).value, inv).Ok?
    ensures var t := Construct(raw, d).value;
      Find(Interpolate(t, Some(inv)).value.entries, k) == Some(EvalPending([ParseQuery(s, d).value], t, inv).value)
  {
    ConstructQueryKey(raw, d, k, s);
    InterpolateQueryKey(Construct(raw, d).value, inv, k, [ParseQuery(s, d).value]);
  }

  /** After `overwrite`, interpolation yields exactly the new data. */
  lemma OverwriteThenInterpolate(t: Value, data: Value, d: char, inv: Option<Inventory>)
    requires Plain(data) && NoQueryText(data)
    ensures Overwrite(t, data, d).Ok?
    ensures Interpolate(Overwrite(t, data, d).value, inv) == Ok(data)
  {
    ConstructThenInterpolate(data, d, inv);
  }

  /** Two trees holding list queries under the same key: after merging and
      interpolating, the key lists the first query's nodes followed by the
      second query's further nodes, without repeats. */
  lemma MergedListQueries(a: Value, b: Value, k: string, q1: Query, q2: Query, inv: Inventory)
    requires a.Dict? && b.Dict? && Distinct(Keys(b.entries)) && DistinctNames(inv)
    requires Find(a.entries, k) == Some(Pending([q1])) && Find(b.entries, k) == Some(Pending([q2]))
    requires IsListQuery(q1) && IsListQuery(q2)
    requires Interpolate(Merge(a, b), Some(inv)).Ok?
    ensures var m := Merge(a, b);
      Find(Interpolate(m, Some(inv)).value.entries, k)
        == Some(NameList(Union(ListResult(q1, m, inv), ListResult(q2, m, inv))))
  {
    var m := Merge(a, b);
    MergeAccumulates(a, b, k, [q1], [q2]);
    assert [q1] + [q2] == [q1, q2];
    InterpolateQueryKey(m, inv, k, [q1, q2]);
    assert SelfRefsResolve([q1, q2][0], m) && SelfRefsResolve([q1, q2][1], m);
    TwoListQueriesUnion(q1, q2, m, inv);
  }
}
