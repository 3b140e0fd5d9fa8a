/**
 * The parts of Go's `strings` package that the server uses, on byte strings.
 * A Go string is a sequence of bytes; here each byte is one `char`, so `|s|`
 * is Go's `len(s)`.
 */
module GoStrings {

  /** Concatenation regroups freely. */
  lemma ConcatAssoc(a: string, b: string, c: string)
    ensures a + b + c == a + (b + c)
  {
  }

  /** A slice that ends within the first part of a concatenation is a slice of that part. */
  lemma SliceOfConcat(a: string, b: string, i: nat, j: nat)
    requires i <= j <= |a|
    ensures (a + b)[i..j] == a[i..j]
  {
    assert forall k :: 0 <= k < j - i ==> (a + b)[i..j][k] == a[i + k];
  }

  /** `s` contains `sub` starting at byte offset `i`. */
  predicate OccursAt(s: string, sub: string, i: nat) {
    i + |sub| <= |s| && s[i..i + |sub|] == sub
  }

  /** strings.HasPrefix */
  predicate HasPrefix(s: string, prefix: string) {
    |prefix| <= |s| && s[..|prefix|] == prefix
  }

  /** strings.HasSuffix */
  predicate HasSuffix(s: string, suffix: string) {
    |suffix| <= |s| && s[|s| - |suffix|..] == suffix
  }

  /** strings.Contains */
  predicate Contains(s: string, sub: string) {
    exists i: nat :: i <= |s| && OccursAt(s, sub, i)
  }

  /** The first offset at or after `from` where `sub` occurs, or -1. */
  function IndexFrom(s: string, sub: string, from: nat): (r: int)
    requires from <= |s| + 1
    ensures r == -1 || (from <= r && OccursAt(s, sub, r))
    ensures r == -1 ==> forall j: nat :: from <= j ==> !OccursAt(s, sub, j)
    ensures r >= 0 ==> forall j: nat :: from <= j < r ==> !OccursAt(s, sub, j)
    decreases |s| + 1 - from
  {
    if from + |sub| > |s| then -1
    else if s[from..from + |sub|] == sub then from
    else IndexFrom(s, sub, from + 1)
  }

  /** strings.Index: the offset of the first occurrence of `sub` in `s`, or -1. */
  function Index(s: string, sub: string): (r: int)
    ensures r == -1 <==> forall j: nat :: !OccursAt(s, sub, j)
    ensures r >= 0 ==> OccursAt(s, sub, r) && forall j: nat :: j < r ==> !OccursAt(s, sub, j)
  {
    IndexFrom(s, sub, 0)
  }

  /**
   * strings.Replace(s, pat, rep, 1): replace the FIRST occurrence of `pat`
   * only. An empty `pat` occurs at offset 0, so it yields `rep + s`, as in Go.
   */
  function ReplaceFirst(s: string, pat: string, rep: string): (r: string)
    ensures Index(s, pat) == -1 ==> r == s
    ensures Index(s, pat) >= 0 ==>
      var k := Index(s, pat); r == s[..k] + rep + s[k + |pat|..]
  {
    var k := Index(s, pat);
    if k < 0 then s else s[..k] + rep + s[k + |pat|..]
  }

  /** strings.LastIndex(s, string([c])): the offset of the last `c`, or -1. */
  function LastIndexOf(s: string, c: char): (r: int)
    ensures -1 <= r < |s|
    ensures r >= 0 ==> s[r] == c
    ensures forall j :: r < j < |s| ==> s[j] != c
  {
    if s == [] then -1
    else if s[|s| - 1] == c then |s| - 1
    else LastIndexOf(s[..|s| - 1], c)
  }

  /** strings.IndexByte(s, c): the offset of the first `c`, or -1. */
  function IndexOf(s: string, c: char): (r: int)
    ensures -1 <= r < |s|
    ensures r >= 0 ==> s[r] == c
    ensures forall j :: 0 <= j < |s| && (r == -1 || j < r) ==> s[j] != c
  {
    if s == [] then -1
    else if s[0] == c then 0
    else var k := IndexOf(s[1..], c); if k < 0 then -1 else k + 1
  }

  /** strings.Split(s, string([c]))[0]: the text before the first `c`, or all of `s`. */
  function FirstField(s: string, c: char): (r: string)
    ensures HasPrefix(s, r)
    ensures c !in r
    ensures r == s || (|r| < |s| && s[|r|] == c)
  {
    var k := IndexOf(s, c);
    if k < 0 then s else s[..k]
  }

  /** ReplaceFirst removes `pat` from the front of a string that starts with it. */
  lemma ReplaceAtStart(s: string, pat: string, rest: string)
    requires s == pat + rest
    ensures ReplaceFirst(s, pat, "") == rest
  {
    assert OccursAt(s, pat, 0) by { assert s[..|pat|] == pat; }
    assert s[|pat|..] == rest;
  }

  /** The first occurrence is the only occurrence at the end when `sub` occurs nowhere earlier. */
  lemma FirstOccurrenceAtEnd(s: string, sub: string)
    requires HasSuffix(s, sub)
    requires forall j: nat :: j < |s| - |sub| ==> !OccursAt(s, sub, j)
    ensures Index(s, sub) == |s| - |sub|
  {
    assert OccursAt(s, sub, |s| - |sub|);
  }

  /** If a string has two suffixes, the shorter is a suffix of the longer. */
  lemma SuffixOfSuffix(s: string, x: string, y: string)
    requires HasSuffix(s, x) && HasSuffix(s, y) && |x| <= |y|
    ensures HasSuffix(y, x)
  {
    assert y[|y| - |x|..] == s[|s| - |x|..];
  }
}
