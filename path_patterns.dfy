/**
 * The built-in URL patterns, as explicit predicates on the path instead of
 * regular expressions. Every pattern is anchored at the end (`$`) and begins
 * with a lazy `.*?`, so a match is determined by the EARLIEST offset at
 * which the pattern's fixed tail matches the rest of the path. As in Go's
 * regexp package, `.` does not match a newline, while a negated class such
 * as `[^/]` does.
 */
module PathPatterns {
  import opened Wrappers
  import opened GoStrings

  predicate IsLowerHex(c: char) {
    '0' <= c <= '9' || 'a' <= c <= 'f'
  }

  /** `[0-9a-f]{n}` for n == |s| */
  predicate AllLowerHex(s: string) {
    forall i :: 0 <= i < |s| ==> IsLowerHex(s[i])
  }

  /** The tails the patterns end with. */
  datatype Tail =
    | Literal(text: string)   // a fixed suffix such as `/info/refs`
    | InfoFile                // `/objects/info/[^/]*`
    | LooseObject             // `/objects/[0-9a-f]{2}/[0-9a-f]{38}`
    | PackFile(ext: string)   // `/objects/pack/pack-[0-9a-f]{40}` then `.pack` or `.idx`
    | Archive                 // `/archive/.*?\.(zip|tar)`

  const InfoDir := "/objects/info/"
  const ObjectsDir := "/objects/"
  const PackPrefix := "/objects/pack/pack-"
  const ArchiveDir := "/archive/"

  /** The tail matches `p[i..]` up to the end of `p`. */
  predicate TailAt(t: Tail, p: string, i: nat)
    requires i <= |p|
  {
    var rest := p[i..];
    match t
    case Literal(text) => rest == text
    case InfoFile => HasPrefix(rest, InfoDir) && '/' !in rest[|InfoDir|..]
    case LooseObject =>
      |rest| == 50 && HasPrefix(rest, ObjectsDir) && AllLowerHex(rest[9..11]) && rest[11] == '/' && AllLowerHex(rest[12..])
    case PackFile(ext) =>
      |rest| == 59 + |ext| && HasPrefix(rest, PackPrefix) && AllLowerHex(rest[19..59]) && rest[59..] == ext
    case Archive =>
      |rest| >= 13 && HasPrefix(rest, ArchiveDir) && (HasSuffix(rest, ".zip") || HasSuffix(rest, ".tar"))
      && '\n' !in rest[9..|rest| - 4]
  }

  /** The earliest offset at or after `from` where the tail matches, or -1. */
  function FirstTailFrom(t: Tail, p: string, from: nat): (r: int)
    requires from <= |p| + 1
    ensures r == -1 || (from <= r <= |p| && TailAt(t, p, r))
    ensures r == -1 ==> forall i :: from <= i <= |p| ==> !TailAt(t, p, i)
    ensures r >= 0 ==> forall i :: from <= i < r ==> !TailAt(t, p, i)
    decreases |p| + 1 - from
  {
    if from > |p| then -1
    else if TailAt(t, p, from) then from
    else FirstTailFrom(t, p, from + 1)
  }

  /** The earliest offset where the tail matches, or -1 when the pattern does not match at all. */
  function FirstTail(t: Tail, p: string): (r: int)
    ensures r == -1 <==> forall i :: 0 <= i <= |p| ==> !TailAt(t, p, i)
    ensures r >= 0 ==> r <= |p| && TailAt(t, p, r) && forall i :: 0 <= i < r ==> !TailAt(t, p, i)
  {
    FirstTailFrom(t, p, 0)
  }

  /** The offset just after the last newline before `i`: where a `.*` ending at `i` can start at the earliest. */
  function LineStart(p: string, i: nat): (r: nat)
    requires i <= |p|
    ensures r <= i && '\n' !in p[r..i]
    ensures r > 0 ==> p[r - 1] == '\n'
  {
    var k := LastIndexOf(p[..i], '\n');
    assert forall j :: k + 1 <= j < i ==> p[..i][j] == p[j];
    k + 1
  }

  /** The groups after group 1: the `(zip|tar)` of the archive pattern. */
  function ExtraGroups(t: Tail, p: string): seq<string> {
    if t.Archive? && |p| >= 3 then [p[|p| - 3..]] else []
  }

  /**
   * FindStringSubmatch for `.*?(T)$`: the whole match, from the leftmost
   * possible start, and group 1, the tail at its earliest offset.
   */
  function TailGroupMatch(t: Tail, p: string): (m: Option<seq<string>>)
    ensures m.None? <==> FirstTail(t, p) == -1
    ensures m.Some? ==> |m.value| >= 2 && m.value[1] == p[FirstTail(t, p)..]
  {
    var i := FirstTail(t, p);
    if i < 0 then None else Some([p[LineStart(p, i)..], p[i..]] + ExtraGroups(t, p))
  }

  /**
   * FindStringSubmatch for `(.*?)T$`: the whole match and group 1, the text
   * between the leftmost possible start and the earliest tail offset.
   */
  function PrefixGroupMatch(t: Tail, p: string): (m: Option<seq<string>>)
    ensures m.None? <==> FirstTail(t, p) == -1
    ensures m.Some? ==> |m.value| >= 2 && m.value[1] == p[LineStart(p, FirstTail(t, p))..FirstTail(t, p)]
  {
    var i := FirstTail(t, p);
    if i < 0 then None else Some([p[LineStart(p, i)..], p[LineStart(p, i)..i]] + ExtraGroups(t, p))
  }

  /** The whole match is group 1 followed by the tail. */
  lemma PrefixGroupThenTail(t: Tail, p: string)
    requires PrefixGroupMatch(t, p).Some?
    ensures var m := PrefixGroupMatch(t, p).value; m[0] == m[1] + p[FirstTail(t, p)..]
  {
    var i := FirstTail(t, p);
    var s := LineStart(p, i);
    assert p[s..] == p[s..i] + p[i..];
  }

  /** Without newlines in the path, group 1 is everything before the earliest tail. */
  lemma PrefixGroupWithoutNewline(t: Tail, p: string)
    requires PrefixGroupMatch(t, p).Some? && '\n' !in p
    ensures PrefixGroupMatch(t, p).value[1] == p[..FirstTail(t, p)]
  {
  }

  /** An offset where the tail matches and no earlier one does is the earliest offset. */
  lemma FirstTailIs(t: Tail, p: string, i: nat)
    requires i <= |p| && TailAt(t, p, i)
    requires forall j :: 0 <= j < i ==> !TailAt(t, p, j)
    ensures FirstTail(t, p) == i
  {
  }

  /** A literal tail matches exactly when the path ends with it, at the one offset that leaves it. */
  lemma LiteralTail(text: string, p: string)
    ensures FirstTail(Literal(text), p) == if HasSuffix(p, text) then |p| - |text| else -1
  {
    if HasSuffix(p, text) {
      assert TailAt(Literal(text), p, |p| - |text|);
      forall i | 0 <= i < |p| - |text| ensures !TailAt(Literal(text), p, i) {
        assert |p[i..]| != |text|;
      }
    } else {
      forall i | 0 <= i <= |p| ensures !TailAt(Literal(text), p, i) {
      }
    }
  }

  /**
   * A fixed-length tail can only start `n` bytes before the end, so the
   * pattern matches exactly when the last `n` bytes have its shape.
   */
  lemma FixedLengthTail(t: Tail, p: string, n: nat)
    requires t.LooseObject? ==> n == 50
    requires t.PackFile? ==> n == 59 + |t.ext|
    requires t.LooseObject? || t.PackFile?
    ensures FirstTail(t, p) == if n <= |p| && TailAt(t, p, |p| - n) then |p| - n else -1
  {
    forall i | 0 <= i <= |p| && i != |p| - n ensures !TailAt(t, p, i) {
      assert |p[i..]| != n;
    }
  }

  /** A path ending in a loose-object name matches the loose-object pattern there. */
  lemma LooseObjectShape(prefix: string, dir: string, name: string)
    requires |dir| == 2 && |name| == 38 && AllLowerHex(dir) && AllLowerHex(name)
    ensures FirstTail(LooseObject, prefix + ObjectsDir + dir + "/" + name) == |prefix|
  {
    var p := prefix + ObjectsDir + dir + "/" + name;
    var rest := p[|prefix|..];
    assert rest == ObjectsDir + dir + "/" + name;
    assert rest[9..11] == dir && rest[12..] == name;
    assert TailAt(LooseObject, p, |prefix|);
    FixedLengthTail(LooseObject, p, 50);
  }

  /** A path ending in a pack name matches the pack pattern there. */
  lemma PackFileShape(prefix: string, hash: string, ext: string)
    requires |hash| == 40 && AllLowerHex(hash)
    ensures FirstTail(PackFile(ext), prefix + PackPrefix + hash + ext) == |prefix|
  {
    var p := prefix + PackPrefix + hash + ext;
    var rest := p[|prefix|..];
    assert rest == PackPrefix + hash + ext;
    assert rest[19..59] == hash && rest[59..] == ext;
    assert TailAt(PackFile(ext), p, |prefix|);
    FixedLengthTail(PackFile(ext), p, 59 + |ext|);
  }
}
