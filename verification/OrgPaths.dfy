/**
 * Dashboard paths with an organisation segment: printing, parsing, the redirect
 * that adds the segment, and the path of the setup page.
 */
module OrgPaths {
  import opened Options
  import opened Text

  datatype Scoped = Scoped(orgId: string, path: string)

  const SEGMENT := "/o/"
  const DASHBOARD := "/dashboard"

  // ----- Printing and parsing -----

  predicate IdChar(c: char) { '0' <= c <= '9' || 'a' <= c <= 'z' }

  predicate IsOrgId(v: string) {
    |v| == 26 && v[..4] == "org_" && forall k :: 4 <= k < 26 ==> IdChar(v[k])
  }

  /** What an organisation id looks like: the prefix and 22 digits or small letters. */
  lemma OrgIdLooks(c: char)
    ensures IsOrgId("org_0123456789abcdefghijkz")
    ensures IdChar('0') && IdChar('9') && IdChar('a') && IdChar('z')
    ensures IdChar(c) <==> '0' <= c < ':' || '`' < c < '{'
  {
  }

  /** The dashboard, everything below it, and nothing that only starts like it. */
  lemma DashboardPaths(tail: string)
    ensures IsDashboardPath("/dashboard") && IsDashboardPath("/dashboard/" + tail) && !IsDashboardPath("/dashboards" + tail)
  {
    assert ("/dashboard/" + tail)[..11] == "/dashboard/";
    assert ("/dashboards" + tail)[..11] == "/dashboards" && "/dashboards"[10] == 's';
  }

  /** Where the query or fragment starts, or the length of the path. */
  function SuffixStart(path: string): (at: nat)
    ensures at <= |path|
    ensures forall k :: 0 <= k < at ==> path[k] != '?' && path[k] != '#'
    ensures at < |path| ==> path[at] == '?' || path[at] == '#'
  {
    if path == "" || path[0] == '?' || path[0] == '#' then 0 else 1 + SuffixStart(path[1..])
  }

  function Pathname(path: string): string { path[..SuffixStart(path)] }

  predicate IsDashboardPath(pathname: string) {
    pathname == DASHBOARD || StartsWith(pathname, DASHBOARD + "/")
  }

  function OrgDashboardPath(path: string, orgId: string): string {
    if !IsDashboardPath(Pathname(path)) || !IsOrgId(orgId) then path
    else SEGMENT + orgId + Pathname(path) + path[SuffixStart(path)..]
  }

  function ParseOrgDashboardPath(path: string): Option<Scoped> {
    var pathname := Pathname(path);
    if !StartsWith(pathname, SEGMENT) then None
    else
      var tail := pathname[|SEGMENT|..];
      var cut := IndexOf(tail, "/", 0);
      if cut < 0 then None
      else
        var orgId, rest := tail[..cut], tail[cut..];
        if !IsOrgId(orgId) || !IsDashboardPath(rest) then None
        else Some(Scoped(orgId, rest + path[SuffixStart(path)..]))
  }

  function StripOrgDashboardPath(path: string): string {
    var r := ParseOrgDashboardPath(path);
    if r.Some? then r.value.path else path
  }

  lemma {:induction false} SuffixStartAt(path: string, at: nat)
    requires at <= |path|
    requires forall k :: 0 <= k < at ==> path[k] != '?' && path[k] != '#'
    requires at < |path| ==> path[at] == '?' || path[at] == '#'
    ensures SuffixStart(path) == at
  {
    if at > 0 { SuffixStartAt(path[1..], at - 1); }
  }

  lemma OrgIdChars(id: string)
    requires IsOrgId(id)
    ensures forall k :: 0 <= k < |id| ==> id[k] != '/' && id[k] != '?' && id[k] != '#'
    ensures id[0] == 'o' && id[1] == 'r'
  {
    assert forall k :: 0 <= k < 4 ==> id[k] == "org_"[k];
  }

  /** A path in front of which plain characters are put keeps its suffix. */
  lemma SuffixShift(front: string, path: string)
    requires forall k :: 0 <= k < |front| ==> front[k] != '?' && front[k] != '#'
    ensures SuffixStart(front + path) == |front| + SuffixStart(path)
    ensures Pathname(front + path) == front + Pathname(path)
  {
    SuffixStartAt(front + path, |front| + SuffixStart(path));
  }

  lemma FirstSlash(id: string, rest: string)
    requires IsOrgId(id) && rest != "" && rest[0] == '/'
    ensures IndexOf(id + rest, "/", 0) == |id|
  {
    OrgIdChars(id);
    var s := id + rest;
    var k := IndexOf(s, "/", 0);
    assert OccursAt(s, "/", |id|) by { assert s[|id|..|id| + 1] == "/"; }
    assert s[k] == s[k..k + 1][0];
  }

  predicate IsScopable(path: string) {
    IsDashboardPath(Pathname(path))
  }

  lemma DashboardStart(path: string)
    requires IsDashboardPath(path) || IsScopable(path)
    ensures |path| >= 10 && path[..10] == DASHBOARD && path[0] == '/'
  {
    var p := if IsDashboardPath(path) then path else Pathname(path);
    assert p[..10] == DASHBOARD;
    assert path[..10] == p[..10];
    assert path[0] == path[..10][0];
  }

  lemma PrintForm(path: string, id: string)
    requires IsScopable(path) && IsOrgId(id)
    ensures OrgDashboardPath(path, id) == SEGMENT + id + path
  {
    var pathname, suffix := Pathname(path), path[SuffixStart(path)..];
    assert path == pathname + suffix;
    assert SEGMENT + id + pathname + suffix == SEGMENT + id + (pathname + suffix);
  }

  lemma PrintThenParse(path: string, id: string)
    requires IsScopable(path) && IsOrgId(id)
    ensures ParseOrgDashboardPath(SEGMENT + id + path) == Some(Scoped(id, path))
  {
    hide IndexOf, IsOrgId, IsDashboardPath, SuffixStart;
    OrgIdChars(id);
    var front := SEGMENT + id;
    SuffixShift(front, path);
    var pathname := Pathname(front + path);
    var tail := pathname[|SEGMENT|..];
    assert pathname == SEGMENT + (id + Pathname(path));
    assert tail == id + Pathname(path);
    DashboardStart(Pathname(path));
    FirstSlash(id, Pathname(path));
    assert tail[..|id|] == id && tail[|id|..] == Pathname(path);
    assert (front + path)[SuffixStart(front + path)..] == path[SuffixStart(path)..];
    assert path == Pathname(path) + path[SuffixStart(path)..];
  }

  lemma ParseThenPrint(path: string)
    requires ParseOrgDashboardPath(path).Some?
    ensures var s := ParseOrgDashboardPath(path).value;
      IsOrgId(s.orgId) && IsScopable(s.path) && path == SEGMENT + s.orgId + s.path
  {
    hide ParseOrgDashboardPath, IsOrgId, IsDashboardPath, SuffixStart;
    var s := ParseOrgDashboardPath(path).value;
    var rest, suffix := ParsedRest(path);
    SuffixStartAt(s.path, |rest|);
    assert Pathname(s.path) == rest;
    assert SEGMENT + s.orgId + rest + suffix == SEGMENT + s.orgId + (rest + suffix);
  }

  /** The pieces a successful parse found. */
  lemma ParsedRest(path: string) returns (rest: string, suffix: string)
    requires ParseOrgDashboardPath(path).Some?
    ensures var s := ParseOrgDashboardPath(path).value;
      && IsOrgId(s.orgId) && IsDashboardPath(rest) && s.path == rest + suffix
      && path == SEGMENT + s.orgId + rest + suffix
    ensures forall k :: 0 <= k < |rest| ==> rest[k] != '?' && rest[k] != '#'
    ensures suffix != "" ==> suffix[0] == '?' || suffix[0] == '#'
  {
    hide IndexOf, IsOrgId, IsDashboardPath, SuffixStart;
    var at := SuffixStart(path);
    var pathname := Pathname(path);
    suffix := path[at..];
    var tail := pathname[|SEGMENT|..];
    rest := tail[IndexOf(tail, "/", 0)..];
    assert pathname == SEGMENT + tail;
    assert path == pathname + suffix;
    forall k | 0 <= k < |rest| ensures rest[k] != '?' && rest[k] != '#' {
      assert rest[k] == path[at - |rest| + k];
    }
  }

  /** A path parses to an organisation and a dashboard path exactly when it is the
      printed form of the two. */
  lemma ParseInvertsPrint(path: string, id: string, inner: string)
    ensures ParseOrgDashboardPath(path) == Some(Scoped(id, inner)) <==>
      IsOrgId(id) && IsScopable(inner) && path == OrgDashboardPath(inner, id)
  {
    if IsOrgId(id) && IsScopable(inner) {
      PrintForm(inner, id);
      PrintThenParse(inner, id);
    }
    if ParseOrgDashboardPath(path) == Some(Scoped(id, inner)) {
      ParseThenPrint(path);
    }
  }

  /** Stripping undoes the printing. */
  lemma StripUndoesPrint(path: string, id: string)
    requires IsScopable(path) && IsOrgId(id)
    ensures StripOrgDashboardPath(OrgDashboardPath(path, id)) == path
  {
    ParseInvertsPrint(OrgDashboardPath(path, id), id, path);
  }
}
