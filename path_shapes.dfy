/**
 * Well-formed request paths: a slash before each plain component. On such
 * paths a route's suffix occurs only at the end, which is what makes the
 * first-occurrence string surgery of the matchers split them as intended.
 */
module PathShapes {
  import opened GoStrings
  import opened GoPath

  /** "/" + R[0] + "/" + R[1] + ... */
  function Slashed(r: seq<string>): string
    decreases |r|
  {
    if r == [] then "" else "/" + r[0] + Slashed(r[1..])
  }

  lemma {:induction false} SlashedJoin(r: seq<string>)
    requires |r| >= 1
    ensures Slashed(r) == "/" + JoinSlash(r)
    decreases |r|
  {
    if |r| > 1 {
      SlashedJoin(r[1..]);
    }
  }

  /** `sub` starts with "/" + first, and `first` is followed by a slash or the end. */
  predicate LedBy(sub: string, first: string) {
    IsPlainElem(first) && HasPrefix(sub, "/" + first) && (|sub| == 1 + |first| || sub[1 + |first|] == '/')
  }

  lemma OccursInTail(a: string, b: string, sub: string, j: nat)
    requires |a| <= j
    ensures OccursAt(a + b, sub, j) <==> OccursAt(b, sub, j - |a|)
  {
    if j + |sub| <= |a + b| {
      assert (a + b)[j..j + |sub|] == b[j - |a|..j - |a| + |sub|];
    }
  }

  /** Two different strings of one length differ at some offset. */
  lemma DiffersAt(a: string, b: string)
    requires |a| == |b| && a != b
    ensures exists i :: 0 <= i < |a| && a[i] != b[i]
  {
    assert !(forall i :: 0 <= i < |a| ==> a[i] == b[i]);
  }

  /** No component, read from its leading slash, begins with a copy of `sub`. */
  lemma NotAtComponent(c: string, rest: string, sub: string, first: string)
    requires IsPlainElem(c) && LedBy(sub, first) && !HasPrefix(c, first)
    requires rest == "" || rest[0] == '/'
    ensures !OccursAt("/" + c + rest, sub, 0)
  {
    var s := "/" + c + rest;
    if |sub| <= |s| {
      if |first| <= |c| {
        DiffersAt(c[..|first|], first);
        var i :| 0 <= i < |first| && c[..|first|][i] != first[i];
        assert sub[..1 + |first|] == "/" + first;
        assert sub[1 + i] == sub[..1 + |first|][1 + i] == first[i];
        assert s[..|sub|][1 + i] == s[1 + i] == c[i];
      } else {
        assert s[..|sub|][1 + |c|] == s[1 + |c|] == '/';
        assert sub[..1 + |first|] == "/" + first;
        assert sub[1 + |c|] == sub[..1 + |first|][1 + |c|] == first[|c|];
      }
    }
  }

  lemma {:induction false} NoEarlyOccurrence(r: seq<string>, sub: string, first: string)
    requires AllPlain(r) && LedBy(sub, first)
    requires forall k :: 0 <= k < |r| ==> !HasPrefix(r[k], first)
    ensures forall j: nat :: j < |Slashed(r)| ==> !OccursAt(Slashed(r) + sub, sub, j)
    decreases |r|
  {
    if r != [] {
      var rest := Slashed(r[1..]) + sub;
      var s := Slashed(r) + sub;
      assert s == "/" + r[0] + rest;
      assert rest[0] == '/' by {
        if r[1..] != [] {
          assert Slashed(r[1..])[0] == '/';
        }
      }
      NoEarlyOccurrence(r[1..], sub, first);
      forall j: nat | j < |Slashed(r)| ensures !OccursAt(s, sub, j) {
        if j == 0 {
          NotAtComponent(r[0], rest, sub, first);
        } else if j <= |r[0]| {
          assert s[j] == r[0][j - 1];
          assert sub[0] == '/';
        } else {
          OccursInTail("/" + r[0], rest, sub, j);
        }
      }
    }
  }

  /** In a well-formed path the suffix is found first at the end. */
  lemma SuffixOnlyAtEnd(r: seq<string>, sub: string, first: string)
    requires AllPlain(r) && LedBy(sub, first)
    requires forall k :: 0 <= k < |r| ==> !HasPrefix(r[k], first)
    ensures Index(Slashed(r) + sub, sub) == |Slashed(r)|
  {
    NoEarlyOccurrence(r, sub, first);
    FirstOccurrenceAtEnd(Slashed(r) + sub, sub);
  }
}
