/**
 * The path matchers of githttpxfer: `matchSuffix` for the fixed endings and
 * `findStringSubmatch` for the regular-expression endings. Both split the
 * URL path into a repository path and a file path by removing the FIRST
 * occurrence of the matched ending (strings.Replace with n == 1) and then
 * the first occurrence of the repository path plus a slash.
 */
module XferMatchers {
  import opened Wrappers
  import opened GoStrings
  import opened GoPath
  import opened PathPatterns
  import opened PathShapes

  /** githttpxfer's Match. */
  datatype PathMatch = PathMatch(repoPath: string, filePath: string)

  /** The split both matchers share, given the matched ending `tail`. */
  function Split(path: string, tail: string): PathMatch {
    var repoPath := ReplaceFirst(path, tail, "");
    PathMatch(repoPath, ReplaceFirst(path, repoPath + "/", ""))
  }

  /** matchSuffix: nil unless the path ends with the suffix. */
  function MatchSuffix(path: string, suffix: string): (m: Option<PathMatch>)
    ensures m.None? <==> !HasSuffix(path, suffix)
    ensures m.Some? ==> |m.value.repoPath| == |path| - |suffix|
  {
    if !HasSuffix(path, suffix) then None
    else
      assert OccursAt(path, suffix, |path| - |suffix|);
      Some(Split(path, suffix))
  }

  /** findStringSubmatch with a pattern `.*?(T)$`: group 1 is the tail at its earliest offset. */
  function FindStringSubmatch(t: Tail, path: string): (m: Option<PathMatch>)
    ensures m.None? <==> FirstTail(t, path) == -1
    ensures m.Some? ==> |m.value.repoPath| == FirstTail(t, path)
  {
    match TailGroupMatch(t, path)
    case None => None
    case Some(groups) =>
      var i := FirstTail(t, path);
      assert OccursAt(path, path[i..], i);
      Some(Split(path, groups[1]))
  }

  // The built-in matchers, in the order the patterns are declared.
  function ServiceRPCUpload(path: string): Option<PathMatch> { MatchSuffix(path, "/git-upload-pack") }
  function ServiceRPCReceive(path: string): Option<PathMatch> { MatchSuffix(path, "/git-receive-pack") }
  function GetInfoRefs(path: string): Option<PathMatch> { MatchSuffix(path, "/info/refs") }
  function GetHead(path: string): Option<PathMatch> { MatchSuffix(path, "/HEAD") }
  function GetAlternates(path: string): Option<PathMatch> { MatchSuffix(path, "/objects/info/alternates") }
  function GetHTTPAlternates(path: string): Option<PathMatch> { MatchSuffix(path, "/objects/info/http-alternates") }
  function GetInfoPacks(path: string): Option<PathMatch> { MatchSuffix(path, "/objects/info/packs") }
  function GetInfoFile(path: string): Option<PathMatch> { FindStringSubmatch(InfoFile, path) }
  function GetLooseObject(path: string): Option<PathMatch> { FindStringSubmatch(LooseObject, path) }
  function GetPackFile(path: string): Option<PathMatch> { FindStringSubmatch(PackFile(".pack"), path) }
  function GetIdxFile(path: string): Option<PathMatch> { FindStringSubmatch(PackFile(".idx"), path) }

  /**
   * When the ending starts with a slash and occurs nowhere before the end,
   * the split is the intended one: the repository path is everything before
   * the ending and the file path is the ending without its slash.
   */
  lemma SplitAtOnlyOccurrence(path: string, i: nat)
    requires i < |path| && path[i] == '/'
    requires Index(path, path[i..]) == i
    ensures Split(path, path[i..]) == PathMatch(path[..i], path[i + 1..])
  {
    assert path[..i] + "" + path[i + |path[i..]|..] == path[..i];
    assert path == (path[..i] + "/") + path[i + 1..];
    ReplaceAtStart(path, path[..i] + "/", path[i + 1..]);
  }

  /** matchSuffix when the suffix starts with a slash and occurs only at the end. */
  lemma MatchSuffixOnlyAtEnd(path: string, suffix: string)
    requires |suffix| >= 1 && suffix[0] == '/' && HasSuffix(path, suffix)
    requires Index(path, suffix) == |path| - |suffix|
    ensures MatchSuffix(path, suffix) == Some(PathMatch(path[..|path| - |suffix|], suffix[1..]))
  {
    var i := |path| - |suffix|;
    assert path[i..] == suffix;
    SplitAtOnlyOccurrence(path, i);
  }

  /** matchSuffix on a repository path of plain components followed by the suffix. */
  lemma MatchSuffixWellFormed(r: seq<string>, suffix: string, first: string)
    requires AllPlain(r) && LedBy(suffix, first)
    requires forall k :: 0 <= k < |r| ==> !HasPrefix(r[k], first)
    ensures MatchSuffix(Slashed(r) + suffix, suffix) == Some(PathMatch(Slashed(r), suffix[1..]))
  {
    var repo := Slashed(r);
    var path := repo + suffix;
    SuffixOnlyAtEnd(r, suffix, first);
    assert path[..|repo|] == repo;
    assert HasSuffix(path, suffix) by { assert path[|repo|..] == suffix; }
    assert suffix[0] == '/' by { assert suffix[..1 + |first|][0] == ("/" + first)[0]; }
    MatchSuffixOnlyAtEnd(path, suffix);
  }

  /** Every pattern tail other than a literal starts with a slash. */
  lemma TailStartsWithSlash(t: Tail, p: string, i: nat)
    requires i <= |p| && TailAt(t, p, i) && !t.Literal?
    ensures i < |p| && p[i] == '/'
  {
    assert p[i..][0] == p[i];
  }

  /** findStringSubmatch on a repository path of plain components followed by the tail it matches. */
  lemma FindWellFormed(t: Tail, r: seq<string>, tail: string, first: string)
    requires !t.Literal? && AllPlain(r) && LedBy(tail, first)
    requires forall k :: 0 <= k < |r| ==> !HasPrefix(r[k], first)
    requires FirstTail(t, Slashed(r) + tail) == |Slashed(r)|
    ensures FindStringSubmatch(t, Slashed(r) + tail) == Some(PathMatch(Slashed(r), tail[1..]))
  {
    var path := Slashed(r) + tail;
    var i := |Slashed(r)|;
    SuffixOnlyAtEnd(r, tail, first);
    assert path[i..] == tail && path[..i] == Slashed(r) && path[i + 1..] == tail[1..];
    TailStartsWithSlash(t, path, i);
    SplitAtOnlyOccurrence(path, i);
  }

  /**
   * The first occurrence, not the trailing one, is removed: in `/HEAD/x/HEAD`
   * the leading `/HEAD` goes, and as `/x/HEAD/` does not occur in the path
   * the file path is the whole path.
   */
  lemma FirstOccurrenceQuirk()
    ensures MatchSuffix("/HEAD/x/HEAD", "/HEAD") == Some(PathMatch("/x/HEAD", "/HEAD/x/HEAD"))
  {
    var path := "/HEAD/x/HEAD";
    assert HasSuffix(path, "/HEAD") by { assert path[7..] == "/HEAD"; }
    assert MatchSuffix(path, "/HEAD") == Some(Split(path, "/HEAD"));
    QuirkRepoPath();
    assert "/x/HEAD" + "/" == "/x/HEAD/";
    QuirkFilePath();
  }

  lemma QuirkRepoPath()
    ensures ReplaceFirst("/HEAD/x/HEAD", "/HEAD", "") == "/x/HEAD"
  {
    var path := "/HEAD/x/HEAD";
    ReplaceAtStart(path, "/HEAD", "/x/HEAD");
  }

  lemma QuirkFilePath()
    ensures ReplaceFirst("/HEAD/x/HEAD", "/x/HEAD/", "") == "/HEAD/x/HEAD"
  {
    var path := "/HEAD/x/HEAD";
    var sub := "/x/HEAD/";
    assert IndexFrom(path, sub, 5) == -1;
    assert path[4..12][0] == 'D' && path[3..11][0] == 'A' && path[2..10][0] == 'E' && path[1..9][0] == 'H';
    assert IndexFrom(path, sub, 1) == -1;
    assert path[0..8][1] == 'H';
    assert IndexFrom(path, sub, 0) == -1;
  }

  /**
   * The loose-object matcher fires exactly when the path ends in
   * `/objects/` + 2 lower-case hex digits + `/` + 38 lower-case hex digits.
   */
  lemma LooseObjectMatcher(path: string)
    ensures GetLooseObject(path).Some? <==> |path| >= 50 && TailAt(LooseObject, path, |path| - 50)
  {
    FixedLengthTail(LooseObject, path, 50);
  }

  /** The pack and index matchers fire exactly when the path ends in `/objects/pack/pack-` + 40 hex digits + the extension. */
  lemma PackMatchers(path: string)
    ensures GetPackFile(path).Some? <==> |path| >= 64 && TailAt(PackFile(".pack"), path, |path| - 64)
    ensures GetIdxFile(path).Some? <==> |path| >= 63 && TailAt(PackFile(".idx"), path, |path| - 63)
  {
    FixedLengthTail(PackFile(".pack"), path, 64);
    FixedLengthTail(PackFile(".idx"), path, 63);
  }

  /** An info-file tail ends at the last slash of the path plus the name after it. */
  lemma InfoFileTailAtLastSlash(p: string, i: nat)
    requires i <= |p| && TailAt(InfoFile, p, i)
    ensures i + 13 == LastIndexOf(p, '/')
  {
    var rest := p[i..];
    assert rest[13] == '/' by { assert rest[..14] == InfoDir; }
    forall j | i + 14 <= j < |p| ensures p[j] != '/' {
      assert p[j] == rest[14..][j - i - 14];
    }
  }

  /**
   * The info-file matcher fires exactly when the last slash of the path is
   * the end of `/objects/info/`: the name after it may not hold a slash.
   */
  lemma InfoFileMatcher(path: string)
    ensures GetInfoFile(path).Some? <==>
      var k := LastIndexOf(path, '/'); k >= 13 && path[k - 13..k + 1] == InfoDir
  {
    var k := LastIndexOf(path, '/');
    var i := FirstTail(InfoFile, path);
    if i >= 0 {
      InfoFileEndsAtLastSlash(path, i);
    }
    if k >= 13 && path[k - 13..k + 1] == InfoDir {
      InfoDirAtLastSlash(path);
    }
  }

  /** Where the info-file tail matches, `/objects/info/` ends at the last slash. */
  lemma InfoFileEndsAtLastSlash(path: string, i: nat)
    requires i <= |path| && TailAt(InfoFile, path, i)
    ensures var k := LastIndexOf(path, '/'); k >= 13 && path[k - 13..k + 1] == InfoDir
  {
    InfoFileTailAtLastSlash(path, i);
    assert path[i..][..14] == path[i..i + 14];
  }

  /** `/objects/info/` ending at the last slash is where the info-file tail matches. */
  lemma InfoDirAtLastSlash(path: string)
    requires var k := LastIndexOf(path, '/'); k >= 13 && path[k - 13..k + 1] == InfoDir
    ensures TailAt(InfoFile, path, LastIndexOf(path, '/') - 13)
  {
    var k := LastIndexOf(path, '/');
    var rest := path[k - 13..];
    assert rest[..14] == InfoDir;
    forall c | c in rest[14..] ensures c != '/' {
      var j :| 0 <= j < |rest[14..]| && rest[14..][j] == c;
      assert rest[14..][j] == path[k + 1 + j];
    }
  }

  /** A name without a slash after `/objects/info/` is found right after the prefix. */
  lemma InfoFileShape(prefix: string, name: string)
    requires '/' !in name
    ensures FirstTail(InfoFile, prefix + InfoDir + name) == |prefix|
  {
    var p := prefix + InfoDir + name;
    var rest := p[|prefix|..];
    assert rest == InfoDir + name;
    assert rest[|InfoDir|..] == name;
    assert TailAt(InfoFile, p, |prefix|);
    forall i | 0 <= i < |prefix| ensures !TailAt(InfoFile, p, i) {
      assert p[i..][14..][|prefix| + 13 - i - 14] == p[|prefix| + 13] == '/';
    }
  }
}
