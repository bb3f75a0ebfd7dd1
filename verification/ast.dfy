/** Abstract syntax of an inventory query, the text between `$[` and `]`:
    `[+AllEnvs] [exports:<path>] [if <cmp> (and|or <cmp>)*]`. */
module Ast {
  import opened Wrappers

  /** A path into a parameter or export tree, one segment per nesting level. */
  type Path = seq<string>

  /** The scalar values a tree leaf or a query literal can hold. */
  datatype Scalar = Int(i: int) | Bool(b: bool) | Str(s: string)

  /** One side of a comparison: a path in the candidate node's exports, a path
      in the issuing node's own parameters, or a literal. */
  datatype Operand = ExportsRef(path: Path) | SelfRef(path: Path) | Lit(lit: Scalar)

  /** `lhs == rhs`, the only comparison the query language has. */
  datatype Comparison = Equals(lhs: Operand, rhs: Operand)

  /** A chain of comparisons joined by one connector: `All` for `and`,
      `Any` for `or`. A single comparison is written `All([c])`. */
  datatype Cond = All(cmps: seq<Comparison>) | Any(cmps: seq<Comparison>)

  /** A parsed query. With `valuePath` it is a value query (node -> value),
      without it a list query (matching node names). */
  datatype Query = Query(allEnvs: bool, valuePath: Option<Path>, cond: Option<Cond>)

  predicate IsListQuery(q: Query) {
    q.valuePath.None?
  }

  predicate CmpSelfFree(c: Comparison) {
    !c.lhs.SelfRef? && !c.rhs.SelfRef?
  }

  /** No `self:` operand is left: the query can be evaluated against the
      inventory alone. */
  predicate SelfFree(q: Query) {
    q.cond.Some? ==> forall i :: 0 <= i < |q.cond.value.cmps| ==> CmpSelfFree(q.cond.value.cmps[i])
  }
}
