/**
 * Go's `path` package as the server uses it: Base, Ext, Clean and Join on
 * slash-separated paths. Clean is written element by element and follows
 * the element-wise rules of path.Clean's documentation.
 */
module GoPath {
  import opened GoStrings

  /** strings.Split(p, "/") */
  function SplitSlash(p: string): (r: seq<string>)
    ensures |r| >= 1
    decreases |p|
  {
    var k := IndexOf(p, '/');
    if k < 0 then [p] else [p[..k]] + SplitSlash(p[k + 1..])
  }

  /** strings.Join(elems, "/") */
  function JoinSlash(elems: seq<string>): string {
    if elems == [] then ""
    else if |elems| == 1 then elems[0]
    else elems[0] + "/" + JoinSlash(elems[1..])
  }

  /**
   * One lexical rule of path.Clean: empty and `.` elements vanish, `..`
   * removes the previous real element, is dropped at the root of a rooted
   * path, and is kept otherwise; any other element is kept.
   */
  function CleanStep(e: string, rooted: bool, stack: seq<string>): seq<string> {
    if e == "" || e == "." then stack
    else if e == ".." then
      if |stack| > 0 && stack[|stack| - 1] != ".." then stack[..|stack| - 1]
      else if rooted then stack
      else stack + [".."]
    else stack + [e]
  }

  function CleanElems(elems: seq<string>, rooted: bool, stack: seq<string>): seq<string>
    decreases |elems|
  {
    if elems == [] then stack
    else CleanElems(elems[1..], rooted, CleanStep(elems[0], rooted, stack))
  }

  lemma CleanElemsCons(e: string, rest: seq<string>, rooted: bool, stack: seq<string>)
    ensures CleanElems([e] + rest, rooted, stack) == CleanElems(rest, rooted, CleanStep(e, rooted, stack))
  {
    assert ([e] + rest)[1..] == rest;
  }

  /** path.Clean */
  function Clean(p: string): (r: string)
    ensures r != ""
    ensures |p| > 0 && p[0] == '/' ==> r[0] == '/'
  {
    if p == "" then "."
    else
      var rooted := p[0] == '/';
      var body := JoinSlash(CleanElems(SplitSlash(p), rooted, []));
      if rooted then "/" + body
      else if body == "" then "."
      else body
  }

  /** path.Join(a, b): join the non-empty elements with `/` and clean the result. */
  function Join(a: string, b: string): (r: string)
    ensures r == "" <==> a == "" && b == ""
  {
    if a == "" then (if b == "" then "" else Clean(b)) else Clean(a + "/" + b)
  }

  function TrimTrailingSlashes(p: string): (r: string)
    ensures HasPrefix(p, r)
    ensures r == "" || r[|r| - 1] != '/'
    ensures forall i :: |r| <= i < |p| ==> p[i] == '/'
  {
    if p == [] || p[|p| - 1] != '/' then p else TrimTrailingSlashes(p[..|p| - 1])
  }

  /** path.Base: the last element, after dropping trailing slashes; "." for "" and "/" for all-slashes. */
  function Base(p: string): (r: string)
    ensures r != ""
    ensures r == "/" || '/' !in r
    ensures p == "" ==> r == "."
  {
    if p == "" then "."
    else
      var t := TrimTrailingSlashes(p);
      var e := t[LastIndexOf(t, '/') + 1..];
      if e == "" then "/" else e
  }

  /** path.Ext: the suffix from the final `.` of the last element, or "". */
  function Ext(p: string): (r: string)
    ensures r == "" || (r[0] == '.' && HasSuffix(p, r) && '/' !in r && '.' !in r[1..])
  {
    var dot := LastIndexOf(p, '.');
    if dot > LastIndexOf(p, '/') then p[dot..] else ""
  }

  /** Base of a path that does not end in a slash is the text after its last slash. */
  lemma BaseOfPlainPath(p: string)
    requires p != "" && p[|p| - 1] != '/'
    ensures Base(p) == p[LastIndexOf(p, '/') + 1..]
  {
  }

  /** An element that Clean keeps as it is: not empty, not `.`, not `..`, no slash. */
  predicate IsPlainElem(e: string) {
    e != "" && e != "." && e != ".." && '/' !in e
  }

  predicate AllPlain(elems: seq<string>) {
    forall i :: 0 <= i < |elems| ==> IsPlainElem(elems[i])
  }

  lemma SplitPlain(a: string)
    requires '/' !in a
    ensures SplitSlash(a) == [a]
  {
  }

  lemma IndexOfIs(s: string, c: char, k: nat)
    requires k < |s| && s[k] == c && forall j :: 0 <= j < k ==> s[j] != c
    ensures IndexOf(s, c) == k
  {
  }

  /** Splitting at the first slash. */
  lemma SplitAtFirstSlash(x: string, y: string)
    requires '/' !in x
    ensures SplitSlash(x + "/" + y) == [x] + SplitSlash(y)
  {
    var s := x + "/" + y;
    forall j | 0 <= j < |x| ensures s[j] != '/' { assert s[j] == x[j]; }
    IndexOfIs(s, '/', |x|);
    assert s[..|x|] == x;
    assert s[|x| + 1..] == y;
  }

  lemma Regroup(a: string, b: string, c: string, sep: string)
    ensures a + sep + b + sep + c == a + sep + (b + sep + c)
  {
  }

  /** A string with a slash in it splits at its first slash. */
  lemma SplitAtIndex(x: string)
    requires IndexOf(x, '/') >= 0
    ensures var k := IndexOf(x, '/');
      x == x[..k] + "/" + x[k + 1..] && '/' !in x[..k] && SplitSlash(x) == [x[..k]] + SplitSlash(x[k + 1..])
  {
    var k := IndexOf(x, '/');
    assert x == x[..k] + "/" + x[k + 1..];
  }

  lemma SeqRegroup(a: seq<string>, b: seq<string>, c: seq<string>)
    ensures a + b + c == a + (b + c)
  {
  }

  /** Splitting distributes over a joining slash. */
  lemma {:induction false} SplitAppend(x: string, y: string)
    ensures SplitSlash(x + "/" + y) == SplitSlash(x) + SplitSlash(y)
    decreases |x|, 1
  {
    if IndexOf(x, '/') < 0 {
      SplitAtFirstSlash(x, y);
    } else {
      SplitAppendAtSlash(x, y);
    }
  }

  /** SplitAppend when `x` has a slash of its own: split `x` first. */
  lemma {:induction false} SplitAppendAtSlash(x: string, y: string)
    requires IndexOf(x, '/') >= 0
    ensures SplitSlash(x + "/" + y) == SplitSlash(x) + SplitSlash(y)
    decreases |x|, 0
  {
    var k := IndexOf(x, '/');
    var x1, x2 := x[..k], x[k + 1..];
    SplitAtIndex(x);
    Regroup(x1, x2, y, "/");
    SplitAtFirstSlash(x1, x2 + "/" + y);
    SplitAppend(x2, y);
    SeqRegroup([x1], SplitSlash(x2), SplitSlash(y));
  }

  lemma {:induction false} SplitJoin(elems: seq<string>)
    requires |elems| >= 1 && forall i :: 0 <= i < |elems| ==> '/' !in elems[i]
    ensures SplitSlash(JoinSlash(elems)) == elems
    decreases |elems|, 1
  {
    if |elems| == 1 {
      SplitPlain(elems[0]);
    } else {
      SplitJoinCons(elems);
    }
  }

  /** SplitJoin for two or more elements: the first one splits off at the first slash. */
  lemma {:induction false} SplitJoinCons(elems: seq<string>)
    requires |elems| >= 2 && forall i :: 0 <= i < |elems| ==> '/' !in elems[i]
    ensures SplitSlash(JoinSlash(elems)) == elems
    decreases |elems|, 0
  {
    var first, rest := elems[0], elems[1..];
    assert JoinSlash(elems) == first + "/" + JoinSlash(rest);
    assert forall i :: 0 <= i < |rest| ==> '/' !in rest[i] by {
      forall i | 0 <= i < |rest| ensures '/' !in rest[i] { assert rest[i] == elems[i + 1]; }
    }
    assert '/' !in first;
    SplitAtFirstSlash(first, JoinSlash(rest));
    SplitJoin(rest);
    assert elems == [first] + rest;
  }

  lemma {:induction false} JoinSlashAppend(a: seq<string>, b: seq<string>)
    requires |a| >= 1 && |b| >= 1
    ensures JoinSlash(a + b) == JoinSlash(a) + "/" + JoinSlash(b)
    decreases |a|
  {
    if |a| == 1 {
      assert (a + b)[1..] == b;
    } else {
      assert (a + b)[1..] == a[1..] + b;
      JoinSlashAppend(a[1..], b);
    }
  }

  /** Clean folds over its elements from left to right. */
  lemma {:induction false} CleanElemsAppend(a: seq<string>, b: seq<string>, rooted: bool, stack: seq<string>)
    ensures CleanElems(a + b, rooted, stack) == CleanElems(b, rooted, CleanElems(a, rooted, stack))
    decreases |a|
  {
    if a != [] {
      assert (a + b)[0] == a[0] && (a + b)[1..] == a[1..] + b;
      CleanElemsAppend(a[1..], b, rooted, CleanStep(a[0], rooted, stack));
    } else {
      assert a + b == b;
    }
  }

  lemma {:induction false} CleanElemsPlain(elems: seq<string>, rooted: bool, stack: seq<string>)
    requires AllPlain(elems)
    ensures CleanElems(elems, rooted, stack) == stack + elems
    decreases |elems|
  {
    if elems != [] {
      CleanElemsPlain(elems[1..], rooted, stack + [elems[0]]);
      assert stack + [elems[0]] + elems[1..] == stack + elems;
    }
  }

  lemma SplitPlainParts(a: seq<string>, b: seq<string>)
    requires |a| >= 1 && |b| >= 1 && AllPlain(a) && AllPlain(b)
    ensures SplitSlash(JoinSlash(a)) == a && SplitSlash(JoinSlash(b)) == b
  {
    forall i | 0 <= i < |a| ensures '/' !in a[i] { }
    forall i | 0 <= i < |b| ensures '/' !in b[i] { }
    SplitJoin(a);
    SplitJoin(b);
  }

  lemma AllPlainConcat(a: seq<string>, b: seq<string>)
    requires AllPlain(a) && AllPlain(b)
    ensures AllPlain(a + b)
  {
    forall i | 0 <= i < |a + b| ensures IsPlainElem((a + b)[i]) {
      if i < |a| { assert (a + b)[i] == a[i]; } else { assert (a + b)[i] == b[i - |a|]; }
    }
  }

  /** A leading slash splits off one empty element. */
  lemma SplitLeadingSlash(p: string)
    ensures SplitSlash("/" + p) == [""] + SplitSlash(p)
  {
    assert "/" + p == "" + "/" + p;
    SplitAtFirstSlash("", p);
  }

  lemma StringRegroup(p: string, q: string, r: string, t: string)
    ensures p + q + r + t == p + (q + r + t)
  {
  }

  lemma SplitRelativeJoin(root: seq<string>, rel: seq<string>)
    requires |root| >= 1 && |rel| >= 1 && AllPlain(root) && AllPlain(rel)
    ensures SplitSlash("/" + JoinSlash(root) + "/" + JoinSlash(rel)) == [""] + (root + rel)
  {
    var a, b := JoinSlash(root), JoinSlash(rel);
    SplitPlainParts(root, rel);
    StringRegroup("/", a, "/", b);
    SplitLeadingSlash(a + "/" + b);
    SplitAppend(a, b);
  }

  lemma SplitAbsoluteJoin(root: seq<string>, rel: seq<string>)
    requires |root| >= 1 && |rel| >= 1 && AllPlain(root) && AllPlain(rel)
    ensures SplitSlash("/" + JoinSlash(root) + "/" + ("/" + JoinSlash(rel))) == [""] + (root + ([""] + rel))
  {
    var a, b := JoinSlash(root), JoinSlash(rel);
    var t := "/" + b;
    SplitPlainParts(root, rel);
    StringRegroup("/", a, "/", t);
    SplitLeadingSlash(a + "/" + t);
    SplitAppend(a, t);
    SplitLeadingSlash(b);
  }

  lemma CleanRelativeJoin(root: seq<string>, rel: seq<string>)
    requires AllPlain(root) && AllPlain(rel)
    ensures CleanElems([""] + (root + rel), true, []) == root + rel
  {
    CleanElemsCons("", root + rel, true, []);
    AllPlainConcat(root, rel);
    CleanElemsPlain(root + rel, true, []);
    assert [] + (root + rel) == root + rel;
  }

  lemma CleanAbsoluteJoin(root: seq<string>, rel: seq<string>)
    requires AllPlain(root) && AllPlain(rel)
    ensures CleanElems([""] + (root + ([""] + rel)), true, []) == root + rel
  {
    CleanElemsCons("", root + ([""] + rel), true, []);
    CleanElemsAppend(root, [""] + rel, true, []);
    CleanElemsPlain(root, true, []);
    assert [] + root == root;
    CleanElemsCons("", rel, true, root);
    CleanElemsPlain(rel, true, root);
  }

  /**
   * Joining a clean absolute root with a clean relative repository path
   * concatenates them with one slash (the tests join a temporary root
   * directory with "foo").
   */
  lemma JoinPlainRelative(root: seq<string>, rel: seq<string>)
    requires |root| >= 1 && |rel| >= 1 && AllPlain(root) && AllPlain(rel)
    ensures Join("/" + JoinSlash(root), JoinSlash(rel)) == "/" + JoinSlash(root + rel)
  {
    SplitRelativeJoin(root, rel);
    CleanRelativeJoin(root, rel);
    JoinSlashAppend(root, rel);
  }

  /**
   * The same with a repository path that starts with a slash, as the
   * routers produce it from a URL path: the doubled slash is cleaned away.
   */
  lemma JoinPlainAbsolute(root: seq<string>, rel: seq<string>)
    requires |root| >= 1 && |rel| >= 1 && AllPlain(root) && AllPlain(rel)
    ensures Join("/" + JoinSlash(root), "/" + JoinSlash(rel)) == "/" + JoinSlash(root + rel)
  {
    SplitAbsoluteJoin(root, rel);
    CleanAbsoluteJoin(root, rel);
    JoinSlashAppend(root, rel);
  }

  lemma EscapeJoinSlash()
    ensures JoinSlash(["", "data", "git", "..", "..", "etc"]) == "/data/git" + "/" + "../../etc"
  {
    var root, rel := ["", "data", "git"], ["..", "..", "etc"];
    assert root + rel == ["", "data", "git", "..", "..", "etc"];
    JoinSlashAppend(root, rel);
    assert JoinSlash(root) == "/data/git" by {
      assert root[1..][1..] == ["git"];
      assert JoinSlash(root[1..]) == "data/git";
    }
    assert JoinSlash(rel) == "../../etc" by {
      assert rel[1..][1..] == ["etc"];
      assert JoinSlash(rel[1..]) == "../etc";
    }
  }

  lemma SplitEscapePath()
    ensures SplitSlash("/data/git" + "/" + "../../etc") == ["", "data", "git", "..", "..", "etc"]
  {
    SplitJoin(["", "data", "git", "..", "..", "etc"]);
    EscapeJoinSlash();
  }

  lemma CleanEscapeElems()
    ensures CleanElems(["", "data", "git", "..", "..", "etc"], true, []) == ["etc"]
  {
    CleanElemsCons("", ["data", "git", "..", "..", "etc"], true, []);
    CleanElemsCons("data", ["git", "..", "..", "etc"], true, []);
    CleanElemsCons("git", ["..", "..", "etc"], true, ["data"]);
    CleanElemsCons("..", ["..", "etc"], true, ["data", "git"]);
    assert CleanStep("..", true, ["data", "git"]) == ["data"];
    CleanElemsCons("..", ["etc"], true, ["data"]);
    assert CleanStep("..", true, ["data"]) == [];
    CleanElemsCons("etc", [], true, []);
  }

  /** Join does not keep a result inside its first argument: `..` elements climb out of it. */
  lemma JoinEscapesRoot()
    ensures Join("/data/git", "../../etc") == "/etc"
  {
    SplitEscapePath();
    CleanEscapeElems();
  }
}
