/** Lexical layer of the query language: whitespace-separated words, and
    paths whose segments are joined by the configured delimiter. */
module Lexer {

  predicate IsSpace(c: char) {
    c == ' ' || c == '\t' || c == '\n' || c == '\r'
  }

  /** The characters the tokenizer reads as symbols of their own rather than
      as parts of a word: the query and reference markers and brackets. */
  predicate IsSymbol(c: char) {
    c == '$' || c == '[' || c == ']' || c == '{' || c == '}'
  }

  predicate SymbolFree(w: string) {
    forall i :: 0 <= i < |w| ==> !IsSymbol(w[i])
  }

  /** A non-empty run of non-whitespace characters. */
  predicate IsWord(w: string) {
    |w| > 0 && forall i :: 0 <= i < |w| ==> !IsSpace(w[i])
  }

  /** Length of the longest whitespace-free prefix of `s`. */
  function WordLength(s: string): (n: nat)
    ensures n <= |s|
    ensures forall i :: 0 <= i < n ==> !IsSpace(s[i])
    ensures n < |s| ==> IsSpace(s[n])
  {
    if |s| == 0 || IsSpace(s[0]) then 0 else 1 + WordLength(s[1..])
  }

  /** The words of `s`, in order; whitespace only separates. */
  function Tokens(s: string): (ws: seq<string>)
    ensures forall i :: 0 <= i < |ws| ==> IsWord(ws[i])
    decreases |s|
  {
    if |s| == 0 then []
    else if IsSpace(s[0]) then Tokens(s[1..])
    else
      var n := WordLength(s);
      [s[..n]] + Tokens(s[n..])
  }

  /** The words separated by single spaces. */
  function Unwords(ws: seq<string>): string
    requires |ws| > 0
  {
    if |ws| == 1 then ws[0] else ws[0] + " " + Unwords(ws[1..])
  }

  /** The words of symbol-free text are symbol-free. */
  lemma {:induction false} TokensSymbolFree(s: string)
    requires SymbolFree(s)
    ensures forall i :: 0 <= i < |Tokens(s)| ==> SymbolFree(Tokens(s)[i])
    decreases |s|
  {
    if |s| > 0 {
      if IsSpace(s[0]) {
        TokensSymbolFree(s[1..]);
      } else {
        TokensSymbolFree(s[WordLength(s)..]);
      }
    }
  }

  /** Words of symbol-free text separated by spaces give symbol-free text. */
  lemma {:induction false} UnwordsSymbolFree(ws: seq<string>)
    requires |ws| > 0 && forall i :: 0 <= i < |ws| ==> SymbolFree(ws[i])
    ensures SymbolFree(Unwords(ws))
    decreases |ws|
  {
    if |ws| > 1 {
      UnwordsSymbolFree(ws[1..]);
    }
  }

  lemma {:induction false} WordLengthOfWord(w: string, t: string)
    requires IsWord(w) && (|t| == 0 || IsSpace(t[0]))
    ensures WordLength(w + t) == |w|
    decreases |w|
  {
    assert (w + t)[0] == w[0];
    if |w| > 1 {
      assert (w + t)[1..] == w[1..] + t;
      WordLengthOfWord(w[1..], t);
    } else {
      assert (w + t)[1..] == t;
    }
  }

  /** A word followed by whitespace (or nothing) is read as one token. */
  lemma TokensOfWord(w: string, t: string)
    requires IsWord(w) && (|t| == 0 || IsSpace(t[0]))
    ensures Tokens(w + t) == [w] + Tokens(t)
  {
    WordLengthOfWord(w, t);
    assert (w + t)[..|w|] == w;
    assert (w + t)[|w|..] == t;
  }

  /** Reading back words written with single spaces gives the same words. */
  lemma {:induction false} TokensUnwords(ws: seq<string>)
    requires |ws| > 0 && forall i :: 0 <= i < |ws| ==> IsWord(ws[i])
    ensures Tokens(Unwords(ws) + " ") == ws
    decreases |ws|
  {
    if |ws| == 1 {
      TokensOfWord(ws[0], " ");
      assert Tokens(" ") == Tokens(""[..]) by { assert " "[1..] == ""; }
    } else {
      var rest := " " + Unwords(ws[1..]) + " ";
      assert Unwords(ws) + " " == ws[0] + rest;
      TokensOfWord(ws[0], rest);
      assert rest[1..] == Unwords(ws[1..]) + " ";
      TokensUnwords(ws[1..]);
      assert ws == [ws[0]] + ws[1..];
    }
  }

  /** The same without a trailing space. */
  lemma {:induction false} TokensUnwordsBare(ws: seq<string>)
    requires |ws| > 0 && forall i :: 0 <= i < |ws| ==> IsWord(ws[i])
    ensures Tokens(Unwords(ws)) == ws
    decreases |ws|
  {
    if |ws| == 1 {
      TokensOfWord(ws[0], "");
      assert ws[0] + "" == ws[0];
    } else {
      var rest := " " + Unwords(ws[1..]);
      assert Unwords(ws) == ws[0] + rest;
      TokensOfWord(ws[0], rest);
      assert rest[1..] == Unwords(ws[1..]);
      TokensUnwordsBare(ws[1..]);
      assert ws == [ws[0]] + ws[1..];
    }
  }

  /** Cuts `s` at every occurrence of `d`. */
  function Split(s: string, d: char): (segs: seq<string>)
    ensures |segs| > 0
    ensures forall i :: 0 <= i < |segs| ==> d !in segs[i]
    decreases |s|
  {
    if |s| == 0 then [""]
    else
      var rest := Split(s[1..], d);
      if s[0] == d then [""] + rest
      else
        assert d !in [s[0]] + rest[0];
        [[s[0]] + rest[0]] + rest[1..]
  }

  /** The segments separated by `d`. */
  function Join(segs: seq<string>, d: char): string
    requires |segs| > 0
  {
    if |segs| == 1 then segs[0] else segs[0] + [d] + Join(segs[1..], d)
  }

  /** Symbol-free segments joined by a delimiter that is no symbol give
      symbol-free text. */
  lemma {:induction false} JoinSymbolFree(segs: seq<string>, d: char)
    requires |segs| > 0 && !IsSymbol(d) && forall i :: 0 <= i < |segs| ==> SymbolFree(segs[i])
    ensures SymbolFree(Join(segs, d))
    decreases |segs|
  {
    if |segs| > 1 {
      JoinSymbolFree(segs[1..], d);
    }
  }

  /** Every character of a segment occurs in the joined text. */
  lemma {:induction false} SegmentCharsInJoin(segs: seq<string>, d: char, k: nat)
    requires |segs| > 0 && k < |segs|
    ensures forall j :: 0 <= j < |segs[k]| ==> segs[k][j] in Join(segs, d)
    decreases |segs|
  {
    if |segs| > 1 {
      var rest := [d] + Join(segs[1..], d);
      assert Join(segs, d) == segs[0] + rest;
      if k == 0 {
        forall j | 0 <= j < |segs[0]| ensures segs[0][j] in Join(segs, d) {
          assert Join(segs, d)[j] == segs[0][j];
        }
      } else {
        SegmentCharsInJoin(segs[1..], d, k - 1);
        forall j | 0 <= j < |segs[k]| ensures segs[k][j] in Join(segs, d) {
          assert segs[k][j] in Join(segs[1..], d);
          var i :| 0 <= i < |Join(segs[1..], d)| && Join(segs[1..], d)[i] == segs[k][j];
          assert Join(segs, d)[|segs[0]| + 1 + i] == segs[k][j];
        }
      }
    }
  }

  lemma JoinCons(c: char, segs: seq<string>, d: char)
    requires |segs| > 0
    ensures Join([[c] + segs[0]] + segs[1..], d) == [c] + Join(segs, d)
  {
    var segs' := [[c] + segs[0]] + segs[1..];
    if |segs| > 1 {
      assert segs'[1..] == segs[1..];
    }
  }

  /** Splitting and joining again restores the text. */
  lemma {:induction false} JoinSplit(s: string, d: char)
    ensures Join(Split(s, d), d) == s
    decreases |s|
  {
    if |s| > 0 {
      var rest := Split(s[1..], d);
      JoinSplit(s[1..], d);
      if s[0] == d {
        assert ([""] + rest)[1..] == rest;
        assert s == [d] + s[1..];
      } else {
        JoinCons(s[0], rest, d);
        assert s == [s[0]] + s[1..];
      }
    }
  }

  lemma {:induction false} SplitPrefix(w: string, t: string, d: char)
    requires d !in w
    ensures Split(w + t, d) == [w + Split(t, d)[0]] + Split(t, d)[1..]
    decreases |w|
  {
    if |w| > 0 {
      assert (w + t)[0] == w[0] && (w + t)[1..] == w[1..] + t;
      SplitPrefix(w[1..], t, d);
      assert [w[0]] + (w[1..] + Split(t, d)[0]) == w + Split(t, d)[0];
    } else {
      assert w + t == t;
      var st := Split(t, d);
      assert w + st[0] == st[0];
      assert st == [st[0]] + st[1..];
    }
  }

  /** Joining segments free of `d` and splitting again restores the segments. */
  lemma {:induction false} SplitJoin(segs: seq<string>, d: char)
    requires |segs| > 0 && forall i :: 0 <= i < |segs| ==> d !in segs[i]
    ensures Split(Join(segs, d), d) == segs
    decreases |segs|
  {
    if |segs| == 1 {
      SplitPrefix(segs[0], "", d);
      assert segs[0] + "" == segs[0];
    } else {
      var tail := [d] + Join(segs[1..], d);
      assert Join(segs, d) == segs[0] + tail;
      SplitPrefix(segs[0], tail, d);
      assert tail[1..] == Join(segs[1..], d);
      SplitJoin(segs[1..], d);
      assert tail[0] == d;
      assert Split(tail, d) == [""] + Split(tail[1..], d);
      assert Split(tail, d)[0] == "" && Split(tail, d)[1..] == segs[1..];
      assert segs[0] + "" == segs[0];
      assert segs == [segs[0]] + segs[1..];
    }
  }
}
