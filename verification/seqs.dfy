/** Order-related facts about sequences: subsequences, duplicate-freedom and
    the order-preserving union used to combine accumulated list queries. */
module Seqs {

  /** No element occurs twice in `s`. */
  predicate Distinct<T(==)>(s: seq<T>) {
    forall i, j :: 0 <= i < j < |s| ==> s[i] != s[j]
  }

  /** `a` is obtained from `b` by deleting elements, keeping the rest in order. */
  predicate IsSubseq<T(==)>(a: seq<T>, b: seq<T>)
    decreases |b|
  {
    |a| == 0 || (|b| > 0 && ((a[0] == b[0] && IsSubseq(a[1..], b[1..])) || IsSubseq(a, b[1..])))
  }

  lemma {:induction false} SubseqMembers<T>(a: seq<T>, b: seq<T>)
    requires IsSubseq(a, b)
    ensures forall x :: x in a ==> x in b
    ensures |a| <= |b|
    decreases |b|
  {
    if |a| == 0 {
    } else if a[0] == b[0] && IsSubseq(a[1..], b[1..]) {
      SubseqMembers(a[1..], b[1..]);
      forall x | x in a ensures x in b {
        if x != a[0] {
          assert x in a[1..];
        }
      }
    } else {
      SubseqMembers(a, b[1..]);
    }
  }

  lemma {:induction false} SubseqOfDistinctIsDistinct<T>(a: seq<T>, b: seq<T>)
    requires IsSubseq(a, b) && Distinct(b)
    ensures Distinct(a)
    decreases |b|
  {
    if |a| == 0 {
    } else if a[0] == b[0] && IsSubseq(a[1..], b[1..]) {
      SubseqOfDistinctIsDistinct(a[1..], b[1..]);
      SubseqMembers(a[1..], b[1..]);
      forall i, j | 0 <= i < j < |a| ensures a[i] != a[j] {
        if i == 0 {
          assert a[j] in a[1..];
          assert a[j] in b[1..];
          var k :| 0 <= k < |b[1..]| && b[1..][k] == a[j];
          assert b[k + 1] == a[j];
        } else {
          assert a[i] == a[1..][i - 1] && a[j] == a[1..][j - 1];
        }
      }
    } else {
      assert Distinct(b[1..]) by {
        forall i, j | 0 <= i < j < |b[1..]| ensures b[1..][i] != b[1..][j] {
          assert b[1..][i] == b[i + 1] && b[1..][j] == b[j + 1];
        }
      }
      SubseqOfDistinctIsDistinct(a, b[1..]);
    }
  }

  lemma DistinctSubseq<T>(a: seq<T>, b: seq<T>)
    requires IsSubseq(a, b)
    ensures Distinct(b) ==> Distinct(a)
  {
    if Distinct(b) {
      SubseqOfDistinctIsDistinct(a, b);
    }
  }

  /** Prepending a kept element or a dropped element preserves the subsequence relation. */
  lemma ConsSubseq<T>(x: T, a: seq<T>, b: seq<T>)
    requires IsSubseq(a, b)
    ensures IsSubseq([x] + a, [x] + b)
    ensures IsSubseq(a, [x] + b)
  {
    assert ([x] + a)[1..] == a;
    assert ([x] + b)[1..] == b;
  }

  /** A subsequence of a duplicate-free sequence is determined by its members:
      two subsequences holding the same elements are equal. */
  lemma {:induction false} SubseqUnique<T>(a1: seq<T>, a2: seq<T>, b: seq<T>)
    requires Distinct(b) && IsSubseq(a1, b) && IsSubseq(a2, b)
    requires forall x :: x in a1 <==> x in a2
    ensures a1 == a2
    decreases |b|
  {
    if |b| == 0 {
      SubseqMembers(a1, b);
      SubseqMembers(a2, b);
    } else {
      var h, t := b[0], b[1..];
      assert Distinct(t) by {
        forall i, j | 0 <= i < j < |t| ensures t[i] != t[j] {
          assert t[i] == b[i + 1] && t[j] == b[j + 1];
        }
      }
      assert h !in t by {
        forall k | 0 <= k < |t| ensures t[k] != h {
          assert t[k] == b[k + 1];
        }
      }
      if h in a1 {
        HeadOfSubseq(a1, b);
        HeadOfSubseq(a2, b);
        SubseqMembers(a1[1..], t);
        SubseqMembers(a2[1..], t);
        forall x ensures x in a1[1..] <==> x in a2[1..] {
          if x in a1[1..] {
            assert x != h && x in a1;
            assert x in a2;
          }
          if x in a2[1..] {
            assert x != h && x in a2;
            assert x in a1;
          }
        }
        SubseqUnique(a1[1..], a2[1..], t);
        assert a1 == [h] + a1[1..] && a2 == [h] + a2[1..];
      } else {
        TailSubseq(a1, b);
        TailSubseq(a2, b);
        SubseqUnique(a1, a2, t);
      }
    }
  }

  lemma HeadOfSubseq<T>(a: seq<T>, b: seq<T>)
    requires Distinct(b) && IsSubseq(a, b) && |b| > 0 && b[0] in a
    ensures |a| > 0 && a[0] == b[0] && IsSubseq(a[1..], b[1..])
  {
    assert b[0] !in b[1..] by {
      forall k | 0 <= k < |b[1..]| ensures b[1..][k] != b[0] {
        assert b[1..][k] == b[k + 1];
      }
    }
    if IsSubseq(a, b[1..]) {
      SubseqMembers(a, b[1..]);
    }
  }

  lemma TailSubseq<T>(a: seq<T>, b: seq<T>)
    requires IsSubseq(a, b) && |b| > 0 && b[0] !in a
    ensures IsSubseq(a, b[1..])
  {
    if |a| > 0 {
      assert a[0] in a;
    }
  }

  /** Order-preserving union: the elements of `a` in order, then those elements
      of `b` not seen before, in `b`'s order. */
  function Union<T(==,!new)>(a: seq<T>, b: seq<T>): (r: seq<T>)
    ensures forall x :: x in r <==> x in a || x in b
    ensures |a| <= |r| && r[..|a|] == a
    ensures Distinct(a) ==> Distinct(r)
    ensures forall i :: |a| <= i < |r| ==> r[i] !in a
    ensures IsSubseq(r[|a|..], b) && Distinct(r[|a|..])
    decreases |b|
  {
    if |b| == 0 then a
    else if b[0] in a then
      var r := Union(a, b[1..]);
      assert forall x :: x in b <==> x == b[0] || x in b[1..];
      ConsSubseq(b[0], r[|a|..], b[1..]);
      assert b == [b[0]] + b[1..];
      r
    else
      var a' := a + [b[0]];
      var r := Union(a', b[1..]);
      assert forall x :: x in b <==> x == b[0] || x in b[1..];
      assert Distinct(a) ==> Distinct(a') by {
        if Distinct(a) {
          forall i, j | 0 <= i < j < |a'| ensures a'[i] != a'[j] {
            if j == |a| {
              assert a'[i] == a[i];
            }
          }
        }
      }
      assert r[..|a|] == r[..|a'|][..|a|];
      assert r[|a|] == b[0] by { assert r[..|a'|][|a|] == a'[|a|]; }
      assert r[|a|..] == [b[0]] + r[|a'|..];
      ConsSubseq(b[0], r[|a'|..], b[1..]);
      assert b == [b[0]] + b[1..];
      assert Distinct(r[|a|..]) by {
        forall i, j | 0 <= i < j < |r[|a|..]| ensures r[|a|..][i] != r[|a|..][j] {
          if i == 0 {
            assert r[|a|..][j] == r[|a'|..][j - 1];
            assert r[|a| + j] !in a';
          } else {
            assert r[|a|..][i] == r[|a'|..][i - 1] && r[|a|..][j] == r[|a'|..][j - 1];
          }
        }
      }
      r
  }

  /** The elements of `b` that are not in `a`, in `b`'s order: the reference
      definition of what `Union` appends. */
  function Without<T(==,!new)>(b: seq<T>, a: seq<T>): (r: seq<T>)
    ensures forall x :: x in r <==> x in b && x !in a
    ensures IsSubseq(r, b)
    decreases |b|
  {
    if |b| == 0 then []
    else
      var rest := Without(b[1..], a);
      ConsSubseq(b[0], rest, b[1..]);
      assert b == [b[0]] + b[1..];
      assert forall x :: x in b <==> x == b[0] || x in b[1..];
      if b[0] in a then rest else [b[0]] + rest
  }

  /** When `b` has no repeats, the union is `a` followed by `b`'s new elements
      in `b`'s order: `Union`'s contract determines its result. */
  lemma UnionIsAppend<T(!new)>(a: seq<T>, b: seq<T>)
    requires Distinct(b)
    ensures Union(a, b) == a + Without(b, a)
  {
    var r := Union(a, b);
    var w := Without(b, a);
    forall x ensures x in r[|a|..] <==> x in w {
      if x in r[|a|..] {
        var k :| 0 <= k < |r[|a|..]| && r[|a|..][k] == x;
        assert r[|a| + k] == x;
      }
      if x in w {
        assert x in r;
        var k :| 0 <= k < |r| && r[k] == x;
        assert k >= |a|;
        assert r[|a|..][k - |a|] == x;
      }
    }
    SubseqUnique(r[|a|..], w, b);
    assert r == r[..|a|] + r[|a|..];
  }

  /** When `a + b` has no duplicates, the union is plain concatenation. */
  lemma {:induction false} UnionOfDisjoint<T(!new)>(a: seq<T>, b: seq<T>)
    requires Distinct(a + b)
    ensures Union(a, b) == a + b
    decreases |b|
  {
    if |b| > 0 {
      assert b[0] !in a by {
        forall k | 0 <= k < |a| ensures a[k] != b[0] {
          assert (a + b)[k] == a[k] && (a + b)[|a|] == b[0];
        }
      }
      assert (a + [b[0]]) + b[1..] == a + b;
      UnionOfDisjoint(a + [b[0]], b[1..]);
    }
  }
}
