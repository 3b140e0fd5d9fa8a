/** Reading the requested service from the query string. */
module XferSupport {
  import opened GoStrings
  import opened Http

  /**
   * getServiceType: the `service` form value with its leading "git-"
   * removed, or "" when it does not start with "git-".
   */
  function ServiceType(req: Request): (r: string)
    ensures var v := FormValue(req, "service");
      && (HasPrefix(v, "git-") ==> r == v[4..])
      && (!HasPrefix(v, "git-") ==> r == "")
  {
    var v := FormValue(req, "service");
    if !HasPrefix(v, "git-") then ""
    else
      ReplaceAtStart(v, "git-", v[4..]);
      ReplaceFirst(v, "git-", "")
  }

  /** Only the first "git-" is removed. */
  lemma ServiceTypeStripsOnce(req: Request)
    requires FormValue(req, "service") == "git-git-upload-pack"
    ensures ServiceType(req) == "git-upload-pack"
  {
  }

  /** A non-empty service name comes from exactly one form value: the name with "git-" in front. */
  lemma ServiceTypeIs(req: Request, name: string)
    requires name != ""
    ensures ServiceType(req) == name <==> FormValue(req, "service") == "git-" + name
  {
    var v := FormValue(req, "service");
    if v == "git-" + name {
      assert HasPrefix(v, "git-") && v[4..] == name;
    }
    if ServiceType(req) == name {
      assert HasPrefix(v, "git-");
      assert v == v[..4] + v[4..];
    }
  }
}
