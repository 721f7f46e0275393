/** The java.lang.String operations the plugin relies on, over `seq<char>`. */
module Strings {
  import opened Wrappers

  /** `s.startsWith(prefix)` */
  predicate StartsWith(s: string, prefix: string) {
    |prefix| <= |s| && s[..|prefix|] == prefix
  }

  /** `s.endsWith(suffix)` */
  predicate EndsWith(s: string, suffix: string) {
    |suffix| <= |s| && s[|s| - |suffix|..] == suffix
  }

  /** `sub` occurs in `s` starting at index `i`. */
  predicate OccursAt(s: string, sub: string, i: nat) {
    i + |sub| <= |s| && s[i..i + |sub|] == sub
  }

  /** An occurrence past the first character is an occurrence in the tail. */
  lemma OccursInTail(s: string, sub: string, j: nat)
    requires 0 < j && |s| > 0
    ensures OccursAt(s, sub, j) <==> OccursAt(s[1..], sub, j - 1)
  {
    if j + |sub| <= |s| {
      assert s[j..j + |sub|] == s[1..][j - 1..j - 1 + |sub|];
    }
  }

  /** `s.indexOf(sub)`, with None for -1. */
  function IndexOf(s: string, sub: string): (r: Option<nat>)
    ensures r.Some? ==> OccursAt(s, sub, r.value)
    ensures r.Some? ==> forall j: nat :: j < r.value ==> !OccursAt(s, sub, j)
    ensures r.None? ==> forall j: nat :: !OccursAt(s, sub, j)
    decreases |s|
  {
    if |s| < |sub| then None
    else if s[..|sub|] == sub then Some(0)
    else
      assert !OccursAt(s, sub, 0);
      assert forall j: nat | 0 < j :: OccursAt(s, sub, j) <==> OccursAt(s[1..], sub, j - 1) by {
        forall j: nat | 0 < j ensures OccursAt(s, sub, j) <==> OccursAt(s[1..], sub, j - 1) {
          OccursInTail(s, sub, j);
        }
      }
      match IndexOf(s[1..], sub)
      case None => None
      case Some(k) => Some(k + 1)
  }

  /** `s.contains(sub)` */
  predicate Contains(s: string, sub: string) {
    IndexOf(s, sub).Some?
  }

  /** `s.indexOf(c)` for a single character, with None for -1. */
  function IndexOfChar(s: string, c: char): (r: Option<nat>)
    ensures r.Some? ==> r.value < |s| && s[r.value] == c && c !in s[..r.value]
    ensures r.None? ==> c !in s
  {
    if s == [] then None
    else if s[0] == c then Some(0)
    else
      match IndexOfChar(s[1..], c)
      case None => None
      case Some(k) =>
        assert s[..k + 1] == [s[0]] + s[1..][..k];
        Some(k + 1)
  }

  /** Java's String.trim: removes every leading and trailing character whose
      code is at most U+0020. */
  function Trim(s: string): (r: string)
    ensures r == "" || (r[0] > ' ' && r[|r| - 1] > ' ')
  {
    TrimEnd(TrimStart(s))
  }

  /** Trim removes blanks only, and only at the two ends. */
  lemma TrimRemovesOnlyEndBlanks(s: string)
    ensures exists i, j :: TrimmedAt(s, Trim(s), i, j)
  {
    var t := TrimStart(s);
    assert Trim(s) == TrimEnd(t);
    TrimmedAtHalves(s, t, TrimEnd(t));
  }

  /** `r` is `s[i..j]` and everything of `s` outside it is blank. */
  ghost predicate TrimmedAt(s: string, r: string, i: int, j: int) {
    && 0 <= i <= j <= |s| && r == s[i..j]
    && (forall k :: 0 <= k < i ==> s[k] <= ' ')
    && (forall k :: j <= k < |s| ==> s[k] <= ' ')
  }

  lemma TrimmedAtHalves(s: string, t: string, r: string)
    requires |t| <= |s| && t == s[|s| - |t|..]
    requires forall k :: 0 <= k < |s| - |t| ==> s[k] <= ' '
    requires |r| <= |t| && r == t[..|r|]
    requires forall k :: |r| <= k < |t| ==> t[k] <= ' '
    ensures TrimmedAt(s, r, |s| - |t|, |s| - |t| + |r|)
  {
    var i := |s| - |t|;
    assert r == s[i..i + |r|];
    forall k | i + |r| <= k < |s| ensures s[k] <= ' ' {
      assert s[k] == t[k - i];
    }
  }

  /** The leading-blank half of Trim. */
  function TrimStart(s: string): (r: string)
    ensures |r| <= |s| && r == s[|s| - |r|..]
    ensures r == "" || r[0] > ' '
    ensures forall k :: 0 <= k < |s| - |r| ==> s[k] <= ' '
  {
    if s != [] && s[0] <= ' ' then
      var r := TrimStart(s[1..]);
      assert forall k :: 0 < k < |s| - |r| ==> s[k] == s[1..][k - 1];
      r
    else
      s
  }

  /** The trailing-blank half of Trim; it keeps a non-blank first character. */
  function TrimEnd(s: string): (r: string)
    ensures |r| <= |s| && r == s[..|r|]
    ensures r == "" || r[|r| - 1] > ' '
    ensures s == "" || s[0] > ' ' ==> r == "" || r[0] > ' '
    ensures forall k :: |r| <= k < |s| ==> s[k] <= ' '
  {
    if s != [] && s[|s| - 1] <= ' ' then
      var r := TrimEnd(s[..|s| - 1]);
      assert forall k :: |r| <= k < |s| - 1 ==> s[k] == s[..|s| - 1][k];
      r
    else
      s
  }

  /** `a.compareTo(b) < 0`: lexicographic order on character codes, a proper
      prefix coming first. */
  predicate LexLess(a: string, b: string) {
    if a == [] then b != []
    else if b == [] then false
    else if a[0] != b[0] then a[0] < b[0]
    else LexLess(a[1..], b[1..])
  }

  lemma {:induction false} LexLessIrreflexive(a: string)
    ensures !LexLess(a, a)
  {
    if a != [] {
      LexLessIrreflexive(a[1..]);
    }
  }

  lemma {:induction false} LexLessTransitive(a: string, b: string, c: string)
    requires LexLess(a, b) && LexLess(b, c)
    ensures LexLess(a, c)
  {
    if a != [] && b != [] && c != [] && a[0] == b[0] && b[0] == c[0] {
      LexLessTransitive(a[1..], b[1..], c[1..]);
    }
  }

  lemma {:induction false} LexLessTotal(a: string, b: string)
    requires a != b
    ensures LexLess(a, b) || LexLess(b, a)
  {
    if a != [] && b != [] && a[0] == b[0] {
      assert a == [a[0]] + a[1..] && b == [b[0]] + b[1..];
      LexLessTotal(a[1..], b[1..]);
    }
  }

  /** Every element is strictly less than the next: sorted, without duplicates. */
  predicate StrictlySorted(s: seq<string>) {
    forall i, j :: 0 <= i < j < |s| ==> LexLess(s[i], s[j])
  }

  /** Inserts `x` at its place in a strictly sorted sequence. */
  function InsertSorted(s: seq<string>, x: string): (r: seq<string>)
    requires StrictlySorted(s) && x !in s
    ensures StrictlySorted(r)
    ensures forall y :: y in r <==> y in s || y == x
    ensures |r| == |s| + 1
  {
    if s == [] then [x]
    else if LexLess(x, s[0]) then
      forall j | 0 < j < |s| ensures LexLess(x, s[j]) {
        LexLessTransitive(x, s[0], s[j]);
      }
      [x] + s
    else
      LexLessTotal(x, s[0]);
      var t := InsertSorted(s[1..], x);
      assert forall y :: y in s[1..] ==> y in s;
      assert forall y :: y in s ==> y == s[0] || y in s[1..];
      assert forall j :: 0 < j < |s| ==> LexLess(s[0], s[j]);
      assert forall y :: y in t ==> LexLess(s[0], y) by {
        forall y | y in t ensures LexLess(s[0], y) {
          if y != x {
            var j :| 0 <= j < |s[1..]| && s[1..][j] == y;
            assert s[j + 1] == y;
          }
        }
      }
      [s[0]] + t
  }
}
