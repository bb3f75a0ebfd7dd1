/** Parameter and export trees. A dictionary or list carries a `typed` tag: it
    is set while the container is a typed container that may still hold
    pending queries, and cleared once interpolation has turned it into a
    plain container. */
module Values {
  import opened Wrappers
  import opened Ast

  datatype Value =
    | Leaf(scalar: Scalar)
    | Dict(entries: seq<Entry>, typed: bool)
    | List(items: seq<Value>, typed: bool)
      /** One parsed query, or several accumulated by merging. */
    | Pending(queries: seq<Query>)

  /** One key of an ordered dictionary. */
  datatype Entry = Entry(key: string, val: Value)

  function Keys(es: seq<Entry>): (ks: seq<string>)
    ensures |ks| == |es|
    ensures forall i :: 0 <= i < |es| ==> ks[i] == es[i].key
  {
    seq(|es|, i requires 0 <= i < |es| => es[i].key)
  }

  /** Position of the first entry with key `k`. */
  function Index(es: seq<Entry>, k: string): (r: Option<nat>)
    ensures r.None? <==> k !in Keys(es)
    ensures r.Some? ==> r.value < |es| && es[r.value].key == k
    ensures r.Some? ==> forall j :: 0 <= j < r.value ==> es[j].key != k
    decreases |es|
  {
    if |es| == 0 then None
    else if es[0].key == k then Some(0)
    else
      assert Keys(es) == [es[0].key] + Keys(es[1..]);
      match Index(es[1..], k)
      case Some(i) => Some(i + 1)
      case None => None
  }

  /** Where the first entry with a key is depends only on the keys. */
  lemma IndexByKeys(a: seq<Entry>, b: seq<Entry>, k: string)
    requires Keys(a) == Keys(b)
    ensures Index(a, k) == Index(b, k)
  {
    var ia, ib := Index(a, k), Index(b, k);
    assert |a| == |Keys(a)| == |b|;
    if ia.Some? && ib.Some? {
      var i, j := ia.value, ib.value;
      assert Keys(a)[j] == Keys(b)[j] == k;
      assert Keys(b)[i] == Keys(a)[i] == k;
      assert !(i < j) && !(j < i);
    }
  }

  /** The value stored under `k`: that of the first entry with the key. */
  function Find(es: seq<Entry>, k: string): (r: Option<Value>)
    ensures r.None? <==> k !in Keys(es)
    ensures r.Some? ==> exists i :: 0 <= i < |es| && es[i] == Entry(k, r.value)
  {
    match Index(es, k)
    case Some(i) => Some(es[i].val)
    case None => None
  }

  /** Follows `p` through nested dictionaries; `None` when a key is missing or
      a non-dictionary is reached before the path ends. */
  function Lookup(v: Value, p: Path): (r: Option<Value>)
    ensures |p| == 0 ==> r == Some(v)
    ensures |p| > 0 && !v.Dict? ==> r.None?
    decreases |p|
  {
    if |p| == 0 then Some(v)
    else match v
      case Dict(es, _) =>
        (match Find(es, p[0])
         case Some(child) => Lookup(child, p[1..])
         case None => None)
      case _ => None
  }

  /** Whatever a path leads to inside plain data is plain. */
  lemma {:induction false} LookupPlain(v: Value, p: Path)
    requires Plain(v) && Lookup(v, p).Some?
    ensures Plain(Lookup(v, p).value)
    decreases |p|
  {
    if |p| > 0 {
      var child := Find(v.entries, p[0]).value;
      var i :| 0 <= i < |v.entries| && v.entries[i] == Entry(p[0], child);
      assert Plain(v.entries[i].val);
      LookupPlain(child, p[1..]);
    }
  }

  /** Keys occur at most once in every dictionary of the tree. */
  predicate WellFormed(v: Value)
    decreases v
  {
    match v
    case Leaf(_) => true
    case Dict(es, _) =>
      (forall i, j :: 0 <= i < j < |es| ==> es[i].key != es[j].key)
      && forall i :: 0 <= i < |es| ==> WellFormed(es[i].val)
    case List(xs, _) => forall i :: 0 <= i < |xs| ==> WellFormed(xs[i])
    case Pending(_) => true
  }

  /** No pending query anywhere in the tree. */
  predicate QueryFree(v: Value)
    decreases v
  {
    match v
    case Leaf(_) => true
    case Dict(es, _) => forall i :: 0 <= i < |es| ==> QueryFree(es[i].val)
    case List(xs, _) => forall i :: 0 <= i < |xs| ==> QueryFree(xs[i])
    case Pending(_) => false
  }

  /** Plain data: no pending query and no typed container anywhere. */
  predicate Plain(v: Value)
    decreases v
  {
    match v
    case Leaf(_) => true
    case Dict(es, t) => !t && forall i :: 0 <= i < |es| ==> Plain(es[i].val)
    case List(xs, t) => !t && forall i :: 0 <= i < |xs| ==> Plain(xs[i])
    case Pending(_) => false
  }

  /** Every container of the tree is still a typed container. */
  predicate AllTyped(v: Value)
    decreases v
  {
    match v
    case Leaf(_) => true
    case Dict(es, t) => t && forall i :: 0 <= i < |es| ==> AllTyped(es[i].val)
    case List(xs, t) => t && forall i :: 0 <= i < |xs| ==> AllTyped(xs[i])
    case Pending(_) => true
  }

  /** The same tree with every container tag cleared: the plain view. */
  function Erase(v: Value): (r: Value)
    ensures QueryFree(v) ==> Plain(r)
    ensures v.Dict? <==> r.Dict?
    ensures v.List? <==> r.List?
    decreases v
  {
    match v
    case Leaf(_) => v
    case Dict(es, _) =>
      Dict(seq(|es|, i requires 0 <= i < |es| => Entry(es[i].key, Erase(es[i].val))), false)
    case List(xs, _) =>
      List(seq(|xs|, i requires 0 <= i < |xs| => Erase(xs[i])), false)
    case Pending(_) => v
  }

  /** Erasing the tags changes nothing in plain data. */
  lemma {:induction false} ErasePlain(v: Value)
    requires Plain(v)
    ensures Erase(v) == v
    decreases v
  {
    match v
    case Leaf(_) =>
    case Dict(es, _) =>
      forall i | 0 <= i < |es| ensures Erase(es[i].val) == es[i].val {
        ErasePlain(es[i].val);
      }
      assert Erase(v).entries == es;
    case List(xs, _) =>
      forall i | 0 <= i < |xs| ensures Erase(xs[i]) == xs[i] {
        ErasePlain(xs[i]);
      }
      assert Erase(v).items == xs;
  }
}
