/**
 * How the archive handlers turn a repository path and a requested file
 * name such as `archive/master.zip` into the arguments of `git archive`.
 * The same derivation appears in the older snapshot's getArchive and in
 * both archive add-ons.
 */
module ArchiveNaming {
  import opened Wrappers
  import opened GoStrings
  import opened GoPath
  import opened Os
  import opened Http
  import opened GitRepo

  /** The names derived from one request. */
  datatype ArchiveName = ArchiveName(repoName: string, fileName: string, tree: string, format: string)

  /**
   * repoName is the repository's base name up to its first `.`; fileName is
   * the base name of the requested file; tree is fileName up to its last
   * `.`, and format the extension without its dot. A file name without a
   * dot makes the slice `fileName[0:-1]` panic: None.
   */
  function Derive(repoPath: string, filePath: string): (r: Option<ArchiveName>)
    ensures r.None? <==> '.' !in Base(filePath)
    ensures r.Some? ==> r.value.fileName == Base(filePath)
    ensures r.Some? ==> r.value.tree + "." + r.value.format == r.value.fileName
    ensures r.Some? ==> '.' !in r.value.format && '/' !in r.value.format
    ensures r.Some? ==> '.' !in r.value.repoName && HasPrefix(Base(repoPath), r.value.repoName)
  {
    var repoName := FirstField(Base(repoPath), '.');
    var fileName := Base(filePath);
    var dot := LastIndexOf(fileName, '.');
    if dot < 0 then None
    else
      SplitAtLastDot(fileName);
      Some(ArchiveName(repoName, fileName, fileName[..dot], ReplaceFirst(Ext(fileName), ".", "")))
  }

  /** In a name without slashes, the extension starts at the last dot, and removing its dot leaves the rest. */
  lemma SplitAtLastDot(name: string)
    requires '/' !in name && LastIndexOf(name, '.') >= 0
    ensures var dot := LastIndexOf(name, '.');
      && Ext(name) == name[dot..]
      && ReplaceFirst(Ext(name), ".", "") == name[dot + 1..]
      && name[..dot] + "." + name[dot + 1..] == name
      && '.' !in name[dot + 1..] && '/' !in name[dot + 1..]
  {
    var dot := LastIndexOf(name, '.');
    NoSlashNoLastIndex(name);
    DropLeadingDot(name[dot..]);
    assert name[dot..][1..] == name[dot + 1..];
    JoinAtDot(name, dot);
  }

  lemma NoSlashNoLastIndex(s: string)
    requires '/' !in s
    ensures LastIndexOf(s, '/') == -1
  {
  }

  /** Replacing the first "." of a string that starts with one drops that dot. */
  lemma DropLeadingDot(t: string)
    requires |t| > 0 && t[0] == '.'
    ensures ReplaceFirst(t, ".", "") == t[1..]
  {
    assert t == "." + t[1..];
    ReplaceAtStart(t, ".", t[1..]);
  }

  /** Cutting a string around a dot and gluing it back gives the string. */
  lemma JoinAtDot(name: string, dot: nat)
    requires dot < |name| && name[dot] == '.'
    ensures name[..dot] + "." + name[dot + 1..] == name
  {
  }

  /** The arguments of `git archive`: the format, a directory prefix naming repository and tree, then the tree. */
  function ArchiveArgs(n: ArchiveName): (args: seq<string>)
    ensures |args| == 4 && args[0] == "archive" && args[3] == n.tree
    ensures HasPrefix(args[1], "--format=") && args[1][|"--format="|..] == n.format
    ensures HasPrefix(args[2], "--prefix=") && HasSuffix(args[2], "/")
  {
    var prefix := "--prefix=" + n.repoName + "-" + n.tree + "/";
    assert prefix[|prefix| - 1..] == "/";
    ["archive", "--format=" + n.format, prefix, n.tree]
  }

  /** The value of the Content-Disposition header: download under the requested file name. */
  function ContentDisposition(fileName: string): (v: string)
    ensures HasPrefix(v, "attachment; filename=\"") && HasSuffix(v, "\"")
  {
    var v := "attachment; filename=\"" + fileName + "\"";
    assert v[..|"attachment; filename=\""|] == "attachment; filename=\"";
    assert v[|v| - 1..] == "\"";
    v
  }

  /** The headers every archive handler sets before the archive is copied out. */
  function DownloadHeaderSteps(fileName: string): seq<Step> {
    [HeaderSet("Content-Type", "application/octet-stream"),
     HeaderAdded("Content-Disposition", ContentDisposition(fileName)),
     HeaderAdded("Content-Transfer-Encoding", "binary")]
  }

  /** `git archive` for `n`, run in the repository, with the process-group flag of the snapshot's GitCommand. */
  function ArchiveCommand(g: Git, repoPath: string, n: ArchiveName, setpgid: bool): CommandSpec {
    CommandSpec(g.binPath, ArchiveArgs(n), GetAbsolutePath(g, repoPath), setpgid, None)
  }

  /** A name `stem.format` with a dot-free format such as `zip` or `tar` gives that format and the stem as the tree. */
  lemma ExtensionName(repoPath: string, filePath: string, stem: string, format: string)
    requires '.' !in format && '/' !in format
    requires stem + "." + format == Base(filePath)
    ensures Derive(repoPath, filePath)
      == Some(ArchiveName(FirstField(Base(repoPath), '.'), Base(filePath), stem, format))
  {
    var fileName := Base(filePath);
    LastDotBeforeExtension(stem, format);
    var n := Derive(repoPath, filePath).value;
    assert n.tree == fileName[..|stem|];
    assert n.tree == stem;
    assert n.format == fileName[|stem| + 1..];
  }

  /** The last dot of `stem.format` is the one before a dot-free format. */
  lemma LastDotBeforeExtension(stem: string, format: string)
    requires '.' !in format
    ensures LastIndexOf(stem + "." + format, '.') == |stem|
    ensures (stem + "." + format)[..|stem|] == stem
    ensures (stem + "." + format)[|stem| + 1..] == format
  {
    var s := stem + "." + format;
    assert s[|stem| + 1..] == format;
    LastIndexAt(s, |stem|, '.');
  }

  /** A `c` with no `c` after it is the last one. */
  lemma {:induction false} LastIndexAt(s: string, i: nat, c: char)
    requires i < |s| && s[i] == c && c !in s[i + 1..]
    ensures LastIndexOf(s, c) == i
    decreases |s|
  {
    if i < |s| - 1 {
      var t := s[..|s| - 1];
      assert s[|s| - 1] == s[i + 1..][|s| - 2 - i];
      assert t[i + 1..] == s[i + 1..|s| - 1];
      LastIndexAt(t, i, c);
    }
  }

  /** The base of `dir/name` is `name` when `name` is a plain element. */
  lemma BaseAfterSlash(dir: string, name: string)
    requires '/' !in name && name != ""
    ensures Base(dir + "/" + name) == name
  {
    var p := dir + "/" + name;
    assert p[|p| - 1] == name[|name| - 1];
    BaseOfPlainPath(p);
    assert p[|dir| + 1..] == name;
    LastIndexAt(p, |dir|, '/');
  }

  /** The first field of `stem.rest` is `stem` when `stem` has no dot. */
  lemma FirstFieldBeforeDot(stem: string, rest: string)
    requires '.' !in stem
    ensures FirstField(stem + "." + rest, '.') == stem
  {
    var s := stem + "." + rest;
    assert s[|stem|] == '.';
    assert forall j :: 0 <= j < |stem| ==> s[j] == stem[j];
    assert IndexOf(s, '.') == |stem|;
    assert s[..|stem|] == stem;
  }

  /**
   * A repository `dir/repo.suffix` and a request `fileDir/stem.format`
   * (`format` being `zip` or `tar`, say) name the archive of tree `stem` in
   * that format, downloaded as `stem.format`, with the directory prefix
   * `repo-stem/`; for example
   * `/x/archive_test.git` with `archive/master.zip` gives
   * `git archive --format=zip --prefix=archive_test-master/ master`.
   */
  lemma DeriveFromParts(dir: string, repo: string, suffix: string, fileDir: string, stem: string, format: string)
    requires '.' !in repo && '/' !in repo && '/' !in suffix
    requires '/' !in stem && '.' !in format && '/' !in format
    ensures Derive(dir + "/" + repo + "." + suffix, fileDir + "/" + stem + "." + format)
      == Some(ArchiveName(repo, stem + "." + format, stem, format))
    ensures ArchiveArgs(ArchiveName(repo, stem + "." + format, stem, format))
      == ["archive", "--format=" + format, "--prefix=" + repo + "-" + stem + "/", stem]
  {
    var repoPath := dir + "/" + repo + "." + suffix;
    var filePath := fileDir + "/" + stem + "." + format;
    assert repoPath == dir + "/" + (repo + "." + suffix);
    BaseAfterSlash(dir, repo + "." + suffix);
    FirstFieldBeforeDot(repo, suffix);
    assert filePath == fileDir + "/" + (stem + "." + format);
    BaseAfterSlash(fileDir, stem + "." + format);
    ExtensionName(repoPath, filePath, stem, format);
  }
}
