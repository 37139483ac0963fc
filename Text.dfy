/** String operations with the meaning JavaScript's built-ins give them:
    `trim()`, the `\s` class, `toLowerCase()`, `join`, `indexOf`, `lastIndexOf`. */
module Text {

  /** White space as ECMAScript defines it for both the `\s` class and `trim()`:
      the WhiteSpace and LineTerminator code points. */
  predicate IsSpace(c: char) {
    || c == '\t' || c == '\n' || c == '\U{000B}' || c == '\U{000C}' || c == '\r' || c == ' '
    || c == '\U{00A0}' || c == '\U{1680}' || ('\U{2000}' <= c <= '\U{200A}')
    || c == '\U{2028}' || c == '\U{2029}' || c == '\U{202F}' || c == '\U{205F}'
    || c == '\U{3000}' || c == '\U{FEFF}'
  }

  predicate AllSpace(s: string) {
    forall i | 0 <= i < |s| :: IsSpace(s[i])
  }

  /** Every character of an all-white-space slice is white space. */
  lemma AllSpaceSlice(s: string, lo: nat, hi: nat)
    requires lo <= hi <= |s| && AllSpace(s[lo..hi])
    ensures forall j | lo <= j < hi :: IsSpace(s[j])
  {
    forall j | lo <= j < hi ensures IsSpace(s[j]) {
      assert s[lo..hi][j - lo] == s[j];
    }
  }

  /** `t` occurs in `s` starting at index `a`. */
  predicate OccursAt(s: string, t: string, a: nat) {
    a + |t| <= |s| && s[a..a + |t|] == t
  }

  /** `t` is a substring of `s`. */
  predicate Contains(s: string, t: string) {
    exists a: nat | a <= |s| :: OccursAt(s, t, a)
  }

  /** `line` stands in `s` as a whole line: between two line breaks. */
  predicate ContainsLine(s: string, line: string) {
    Contains(s, "\n" + line + "\n")
  }

  /** A substring of a substring is a substring. */
  lemma ContainsTransitive(s: string, t: string, u: string)
    requires Contains(s, t) && Contains(t, u)
    ensures Contains(s, u)
  {
    var a: nat :| a <= |s| && OccursAt(s, t, a);
    var b: nat :| b <= |t| && OccursAt(t, u, b);
    forall i | 0 <= i < |u| ensures s[a + b + i] == u[i] {
      assert t[b + i] == u[i];
      assert s[a..a + |t|][b + i] == s[a + b + i];
    }
    assert OccursAt(s, u, a + b);
  }

  /** The first index at or after `from` that holds no white space, or `|s|`. */
  function SkipSpace(s: string, from: nat): (k: nat)
    requires from <= |s|
    ensures from <= k <= |s|
    ensures AllSpace(s[from..k])
    ensures k == |s| || !IsSpace(s[k])
    decreases |s| - from
  {
    if from < |s| && IsSpace(s[from]) then SkipSpace(s, from + 1) else from
  }

  /** The least `k` in `[lo, hi]` such that `s[k..hi]` is all white space. */
  function BackSpace(s: string, lo: nat, hi: nat): (k: nat)
    requires lo <= hi <= |s|
    ensures lo <= k <= hi
    ensures AllSpace(s[k..hi])
    ensures k == lo || !IsSpace(s[k - 1])
    decreases hi - lo
  {
    if lo < hi && IsSpace(s[hi - 1]) then
      var k := BackSpace(s, lo, hi - 1);
      AllSpaceExtend(s, k, hi);
      k
    else hi
  }

  /** An all-white-space slice extended by one white-space character. */
  lemma AllSpaceExtend(s: string, k: nat, hi: nat)
    requires k < hi <= |s| && AllSpace(s[k..hi - 1]) && IsSpace(s[hi - 1])
    ensures AllSpace(s[k..hi])
  {
    AllSpaceSlice(s, k, hi - 1);
    forall j | 0 <= j < hi - k ensures IsSpace(s[k..hi][j]) {
      assert s[k..hi][j] == s[k + j];
    }
  }

  /** `SkipSpace` is determined by its contract. */
  lemma SkipSpaceIs(s: string, from: nat, k: nat)
    requires from <= k <= |s|
    requires AllSpace(s[from..k])
    requires k == |s| || !IsSpace(s[k])
    ensures SkipSpace(s, from) == k
  {
    var j := SkipSpace(s, from);
    AllSpaceSlice(s, from, k);
    AllSpaceSlice(s, from, j);
  }

  /** `BackSpace` is determined by its contract. */
  lemma BackSpaceIs(s: string, lo: nat, hi: nat, k: nat)
    requires lo <= k <= hi <= |s|
    requires AllSpace(s[k..hi])
    requires k == lo || !IsSpace(s[k - 1])
    ensures BackSpace(s, lo, hi) == k
  {
    var j := BackSpace(s, lo, hi);
    AllSpaceSlice(s, k, hi);
    AllSpaceSlice(s, j, hi);
  }

  /** JavaScript's `trim()`: the string without the white space at either end. */
  function Trim(s: string): (r: string)
    ensures r == [] || (!IsSpace(r[0]) && !IsSpace(r[|r| - 1]))
    ensures r == [] <==> AllSpace(s)
    ensures Contains(s, r)
  {
    var a := SkipSpace(s, 0);
    var b := BackSpace(s, a, |s|);
    assert a == |s| ==> s[0..a] == s;
    assert a < |s| ==> !AllSpace(s) by {
      if a < |s| {
        assert !IsSpace(s[a]);
      }
    }
    assert OccursAt(s, s[a..b], a);
    s[a..b]
  }

  /** `Trim` removes exactly the white space at both ends and nothing else. */
  lemma TrimIs(s: string, a: nat, b: nat)
    requires a <= b <= |s|
    requires AllSpace(s[..a]) && AllSpace(s[b..])
    requires a == b || (!IsSpace(s[a]) && !IsSpace(s[b - 1]))
    ensures Trim(s) == s[a..b]
  {
    if a < b {
      assert s[0..a] == s[..a];
      SkipSpaceIs(s, 0, a);
      assert s[b..|s|] == s[b..];
      BackSpaceIs(s, a, |s|, b);
    } else {
      assert forall i | 0 <= i < |s| :: IsSpace(s[i]) by {
        forall i | 0 <= i < |s| ensures IsSpace(s[i]) {
          if i < a {
            assert s[..a][i] == s[i];
          } else {
            assert s[b..][i - b] == s[i];
          }
        }
      }
      assert AllSpace(s);
    }
  }

  /** A string without white space at either end is its own trim. */
  lemma TrimUnpadded(s: string)
    requires s == [] || (!IsSpace(s[0]) && !IsSpace(s[|s| - 1]))
    ensures Trim(s) == s
  {
    TrimIs(s, 0, |s|);
  }

  /** `toLowerCase()` on one character, for the ASCII letters. */
  function LowerChar(c: char): char {
    if 'A' <= c <= 'Z' then (c as int + 32) as char else c
  }

  /** `toLowerCase()`, with the case mapping restricted to ASCII letters. */
  function Lower(s: string): (r: string)
    ensures |r| == |s|
    ensures forall i | 0 <= i < |s| :: r[i] == LowerChar(s[i])
  {
    seq(|s|, i requires 0 <= i < |s| => LowerChar(s[i]))
  }

  /** Lower-casing twice is lower-casing once. */
  lemma LowerIdempotent(s: string)
    ensures Lower(Lower(s)) == Lower(s)
  {
    var l := Lower(s);
    forall i | 0 <= i < |s| ensures Lower(l)[i] == l[i] {
      assert l[i] == LowerChar(s[i]);
    }
  }

  /** Lower-casing neither creates nor removes white space. */
  lemma LowerKeepsSpace(c: char)
    ensures IsSpace(LowerChar(c)) <==> IsSpace(c)
  {
  }

  /** `xs.join(sep)`. */
  function Join(xs: seq<string>, sep: string): string {
    if |xs| == 0 then ""
    else if |xs| == 1 then xs[0]
    else xs[0] + sep + Join(xs[1..], sep)
  }

  /** Joining splits at every element boundary. */
  lemma {:induction false} JoinSplit(xs: seq<string>, sep: string, k: nat)
    requires 0 < k < |xs|
    ensures Join(xs, sep) == Join(xs[..k], sep) + sep + Join(xs[k..], sep)
  {
    if k > 1 {
      JoinSplit(xs[1..], sep, k - 1);
      assert xs[1..][..k - 1] == xs[..k][1..];
      assert xs[1..][k - 1..] == xs[k..];
    }
  }

  /** The elements `xs[i..j]`, joined, stand between two separators in the joined string. */
  lemma JoinSpan(xs: seq<string>, sep: string, i: nat, j: nat)
    requires 0 < i < j < |xs|
    ensures Join(xs, sep) == Join(xs[..i], sep) + sep + Join(xs[i..j], sep) + sep + Join(xs[j..], sep)
    ensures OccursAt(Join(xs, sep), sep + Join(xs[i..j], sep) + sep, |Join(xs[..i], sep)|)
    ensures Contains(Join(xs, sep), sep + Join(xs[i..j], sep) + sep)
  {
    JoinSplit(xs, sep, i);
    JoinSplit(xs[i..], sep, j - i);
    assert xs[i..][..j - i] == xs[i..j];
    assert xs[i..][j - i..] == xs[j..];
    var a, b, c := Join(xs[..i], sep), Join(xs[i..j], sep), Join(xs[j..], sep);
    assert Join(xs, sep) == a + sep + (b + sep + c);
    ConcatAssoc(a, sep, b, c);
    OccursInMiddle(a, sep + b + sep, c);
  }

  /** The middle part of a concatenation occurs right after the first part. */
  lemma OccursInMiddle(a: string, t: string, c: string)
    ensures OccursAt(a + t + c, t, |a|) && Contains(a + t + c, t)
  {
    var s := a + t + c;
    assert s[|a|..|a| + |t|] == t;
    assert OccursAt(s, t, |a|);
  }

  /** The two ways of grouping the concatenations in `JoinSpan` agree. */
  lemma ConcatAssoc(a: string, sep: string, b: string, c: string)
    ensures a + sep + (b + sep + c) == a + (sep + b + sep) + c
    ensures a + sep + (b + sep + c) == a + sep + b + sep + c
  {
  }

  /** A slice of a slice is a slice of the original. */
  lemma SliceOfSlice(s: string, lo: nat, hi: nat, a: nat, b: nat)
    requires lo <= hi <= |s| && a <= b <= hi - lo
    ensures s[lo..hi][a..b] == s[lo + a..lo + b]
  {
    forall k | 0 <= k < b - a ensures s[lo..hi][a..b][k] == s[lo + a..lo + b][k] {
      assert s[lo..hi][a..b][k] == s[lo..hi][a + k];
    }
  }

  /** An inner element stands, whole, between two separators in the joined string. */
  lemma JoinLine(xs: seq<string>, sep: string, k: nat)
    requires 0 < k < |xs| - 1
    ensures Contains(Join(xs, sep), sep + xs[k] + sep)
  {
    JoinSpan(xs, sep, k, k + 1);
    assert xs[k..k + 1] == [xs[k]];
  }

  /** Two adjacent inner elements stand, whole and in order, between separators in the
      joined string. */
  lemma JoinPair(xs: seq<string>, sep: string, k: nat)
    requires 0 < k && k + 1 < |xs| - 1
    ensures Contains(Join(xs, sep), sep + xs[k] + sep + xs[k + 1] + sep)
  {
    var a, b := xs[k], xs[k + 1];
    JoinSpan(xs, sep, k, k + 2);
    assert xs[k..k + 2] == [a, b];
    JoinTwo(a, b, sep);
    MiddleRegrouped(a, b, sep);
  }

  /** Two elements joined: the separator between them. */
  lemma JoinTwo(a: string, b: string, sep: string)
    ensures Join([a, b], sep) == a + sep + b
  {
    assert [a, b][1..] == [b];
  }

  /** Regrouping the concatenation in `JoinPair`. */
  lemma MiddleRegrouped(a: string, b: string, sep: string)
    ensures sep + (a + sep + b) + sep == sep + a + sep + b + sep
  {
  }

  /** Replacing one inner element changes the joined length by exactly the change in
      that element's length. */
  lemma JoinReplace(xs: seq<string>, ys: seq<string>, sep: string, k: nat)
    requires |xs| == |ys| && 0 < k < |xs| - 1
    requires xs[..k] == ys[..k] && xs[k + 1..] == ys[k + 1..]
    ensures |Join(xs, sep)| + |ys[k]| == |Join(ys, sep)| + |xs[k]|
  {
    JoinSpan(xs, sep, k, k + 1);
    JoinSpan(ys, sep, k, k + 1);
    assert xs[k..k + 1] == [xs[k]];
    assert ys[k..k + 1] == [ys[k]];
  }

  /** `s.indexOf(c)`: the first index of `c`, or -1 (see `IndexOfSpec`). */
  function IndexOf(s: string, c: char): (r: int)
    ensures -1 <= r < |s|
  {
    if s == [] then -1
    else if s[0] == c then 0
    else
      var k := IndexOf(s[1..], c);
      if k == -1 then -1 else k + 1
  }

  /** `IndexOf` is -1 exactly when `c` is absent, and otherwise the index of its first
      occurrence. */
  lemma {:induction false} IndexOfSpec(s: string, c: char)
    ensures IndexOf(s, c) == -1 <==> c !in s
    ensures IndexOf(s, c) >= 0 ==> s[IndexOf(s, c)] == c && c !in s[..IndexOf(s, c)]
  {
    if s != [] && s[0] != c {
      IndexOfSpec(s[1..], c);
      assert s == [s[0]] + s[1..];
      var k := IndexOf(s[1..], c);
      if k != -1 {
        assert s[..k + 1] == [s[0]] + s[1..][..k];
      }
    }
  }

  /** `s.lastIndexOf(c)`: the last index of `c`, or -1 (see `LastIndexOfSpec`). */
  function LastIndexOf(s: string, c: char): (r: int)
    ensures -1 <= r < |s|
  {
    if s == [] then -1
    else if s[|s| - 1] == c then |s| - 1
    else LastIndexOf(s[..|s| - 1], c)
  }

  /** `LastIndexOf` is -1 exactly when `c` is absent, and otherwise the index of its last
      occurrence. */
  lemma {:induction false} LastIndexOfSpec(s: string, c: char)
    ensures LastIndexOf(s, c) == -1 <==> c !in s
    ensures LastIndexOf(s, c) >= 0 ==> s[LastIndexOf(s, c)] == c && c !in s[LastIndexOf(s, c) + 1..]
  {
    if s != [] && s[|s| - 1] != c {
      var t := s[..|s| - 1];
      LastIndexOfSpec(t, c);
      assert s == t + [s[|s| - 1]];
      var k := LastIndexOf(t, c);
      if k != -1 {
        assert s[k + 1..] == t[k + 1..] + [s[|s| - 1]];
      }
    }
  }

  /** `IndexOf` finds an occurrence with none before it. */
  lemma IndexOfIs(s: string, c: char, f: nat)
    requires f < |s| && s[f] == c && c !in s[..f]
    ensures IndexOf(s, c) == f
  {
    var r := IndexOf(s, c);
    IndexOfSpec(s, c);
    assert s[..f + 1][f] == c;
    assert forall k | 0 <= k < f :: s[k] != c by {
      forall k | 0 <= k < f ensures s[k] != c {
        assert s[..f][k] == s[k];
      }
    }
    assert forall k | 0 <= k < r :: s[k] != c by {
      forall k | 0 <= k < r ensures s[k] != c {
        assert s[..r][k] == s[k];
      }
    }
  }

  /** `LastIndexOf` finds an occurrence with none after it. */
  lemma LastIndexOfIs(s: string, c: char, l: nat)
    requires l < |s| && s[l] == c && c !in s[l + 1..]
    ensures LastIndexOf(s, c) == l
  {
    var r := LastIndexOf(s, c);
    LastIndexOfSpec(s, c);
    assert s[l..][0] == c;
    assert forall k | l < k < |s| :: s[k] != c by {
      forall k | l < k < |s| ensures s[k] != c {
        assert s[l + 1..][k - (l + 1)] == s[k];
      }
    }
    assert forall k | r < k < |s| :: s[k] != c by {
      forall k | r < k < |s| ensures s[k] != c {
        assert s[r + 1..][k - (r + 1)] == s[k];
      }
    }
  }

  /** The white space before `a`, indexed within the slice `s[lo..hi]`. */
  lemma AllSpaceHead(s: string, lo: nat, a: nat, hi: nat)
    requires lo <= a <= hi <= |s| && AllSpace(s[lo..a])
    ensures AllSpace(s[lo..hi][..a - lo])
  {
    var w := s[lo..hi][..a - lo];
    forall k | 0 <= k < |w| ensures IsSpace(w[k]) {
      assert w[k] == s[lo..a][k];
    }
  }

  /** The white space after `b`, indexed within the slice `s[lo..hi]`. */
  lemma AllSpaceTail(s: string, lo: nat, b: nat, hi: nat)
    requires lo <= b <= hi <= |s| && AllSpace(s[b..hi])
    ensures AllSpace(s[lo..hi][b - lo..])
  {
    var w := s[lo..hi][b - lo..];
    forall k | 0 <= k < |w| ensures IsSpace(w[k]) {
      assert w[k] == s[b..hi][k];
    }
  }

  /** Trimming a slice: white space before `a` and after `b`, none at either end of
      `s[a..b]`. */
  lemma TrimSlice(s: string, lo: nat, a: nat, b: nat, hi: nat)
    requires lo <= a <= b <= hi <= |s|
    requires AllSpace(s[lo..a]) && AllSpace(s[b..hi])
    requires a == b || (!IsSpace(s[a]) && !IsSpace(s[b - 1]))
    ensures Trim(s[lo..hi]) == s[a..b]
  {
    var u, i, j := s[lo..hi], a - lo, b - lo;
    AllSpaceHead(s, lo, a, hi);
    AllSpaceTail(s, lo, b, hi);
    SliceOfSlice(s, lo, hi, i, j);
    TrimIs(u, i, j);
  }
}
