/**
 * Locale-prefixed pathnames: splitting them, redirecting dashboard paths into an
 * organisation, and finding the setup page.
 */
module SetupGate {
  import opened Options
  import opened Text
  import opened OrgPaths

  datatype SplitPath = SplitPath(localePrefix: string, hasLocale: bool, orgId: Option<string>, path: string)

  /** End of the first segment: the second slash or the end. */
  function SegmentEnd(pathname: string): (k: int)
    requires pathname != ""
    ensures 1 <= k <= |pathname|
    ensures k < |pathname| ==> pathname[k] == '/'
    ensures forall j :: 1 <= j < k ==> pathname[j] != '/'
  {
    SegmentEndFrom(pathname, 1)
  }

  function SegmentEndFrom(pathname: string, i: nat): (k: int)
    requires i <= |pathname|
    ensures i <= k <= |pathname|
    ensures k < |pathname| ==> pathname[k] == '/'
    ensures forall j :: i <= j < k ==> pathname[j] != '/'
    decreases |pathname| - i
  {
    if i == |pathname| || pathname[i] == '/' then i else SegmentEndFrom(pathname, i + 1)
  }

  predicate NoTerminatorFrom(s: string, i: nat) {
    forall k :: i <= k < |s| ==> !IsLineTerminator(s[k])
  }

  /** The first segment of `/segment` or `/segment/rest`; the rest must be one line. */
  function Head(pathname: string): Option<string> {
    if pathname == "" || pathname[0] != '/' then None
    else
      var k := SegmentEnd(pathname);
      if k == 1 || !NoTerminatorFrom(pathname, k) then None else Some(pathname[1..k])
  }

  /** The locale a pathname starts with, if it is a known one. */
  function LocaleOf(pathname: string, locales: seq<string>): Option<string> {
    if Head(pathname).Some? && Head(pathname).value in locales then Head(pathname) else None
  }

  function Rest(pathname: string, locales: seq<string>): string {
    var locale := LocaleOf(pathname, locales);
    if locale.None? then pathname
    else if |pathname| <= 1 + |locale.value| then "/" else pathname[1 + |locale.value|..]
  }

  function SplitPathname(pathname: string, locales: seq<string>): SplitPath {
    var locale := LocaleOf(pathname, locales);
    var prefix := if locale.Some? then "/" + locale.value else "";
    var rest := Rest(pathname, locales);
    match ParseOrgDashboardPath(rest)
    case Some(scoped) => SplitPath(prefix, locale.Some?, Some(scoped.orgId), scoped.path)
    case None => SplitPath(prefix, locale.Some?, None, rest)
  }

  predicate NeedsOrgSegment(pathname: string, locales: seq<string>, orgScopedRoutes: bool) {
    var split := SplitPathname(pathname, locales);
    orgScopedRoutes && split.hasLocale && split.orgId.None? && IsDashboardPath(split.path)
  }

  function OrgScopedDashboardPathname(pathname: string, orgId: string, locales: seq<string>): Option<string> {
    var split := SplitPathname(pathname, locales);
    if !split.hasLocale || split.orgId.Some? || !IsDashboardPath(split.path) then None
    else
      var scoped := OrgDashboardPath(split.path, orgId);
      if scoped == split.path then None else Some(split.localePrefix + scoped)
  }

  function SetupPathFor(pathname: string): string {
    var at := IndexOf(pathname, DASHBOARD, 0);
    if at < 0 then pathname
    else
      var prefix := pathname[..at];
      var org := LastIndexOf(prefix, SEGMENT, |prefix|);
      (if org >= 0 && IsOrgId(prefix[org + |SEGMENT|..]) then prefix[..org] else prefix) + "/setup"
  }

  // ----- The redirect -----

  lemma DashboardIsScopable(path: string)
    requires IsDashboardPath(path)
    ensures IsScopable(path)
  {
    hide SuffixStart;
    DashboardPlain(path);
    var at := SuffixStart(path);
    if StartsWith(path, DASHBOARD + "/") {
      assert path[10] == path[..11][10] == '/';
      assert path[..at][..11] == path[..11];
    } else {
      assert path[..at] == path;
    }
  }

  lemma DashboardPlain(path: string)
    requires IsDashboardPath(path)
    ensures SuffixStart(path) >= 10
  {
    hide IsDashboardPath;
    DashboardStart(path);
    forall k | 0 <= k < 10 ensures path[k] != '?' && path[k] != '#' {
      assert path[k] == path[..10][k] == DASHBOARD[k];
    }
  }

  lemma ScopedForm(path: string, id: string)
    requires IsDashboardPath(path) && IsOrgId(id)
    ensures OrgDashboardPath(path, id) == SEGMENT + id + path
    ensures ParseOrgDashboardPath(SEGMENT + id + path) == Some(Scoped(id, path))
  {
    DashboardIsScopable(path);
    PrintForm(path, id);
    PrintThenParse(path, id);
  }

  /** A redirect exists exactly for the paths that need one and valid organisations. */
  lemma RedirectWhenNeeded(pathname: string, id: string, locales: seq<string>)
    ensures OrgScopedDashboardPathname(pathname, id, locales).Some? <==>
      NeedsOrgSegment(pathname, locales, true) && IsOrgId(id)
  {
    var split := SplitPathname(pathname, locales);
    if NeedsOrgSegment(pathname, locales, true) && IsOrgId(id) {
      ScopedForm(split.path, id);
    }
  }

  /** The shape of a path that needs the segment: a locale segment and a dashboard path. */
  lemma NeededShape(pathname: string, locales: seq<string>) returns (locale: string)
    requires NeedsOrgSegment(pathname, locales, true)
    ensures var split := SplitPathname(pathname, locales);
      && locale in locales && locale != "" && '/' !in locale
      && split.localePrefix == "/" + locale && pathname == "/" + locale + split.path
      && NoTerminatorFrom(split.path, 0)
  {
    locale := LocaleOf(pathname, locales).value;
    DashboardStart(Rest(pathname, locales));
    HeadShape(pathname, locale);
  }

  lemma HeadShape(pathname: string, head: string)
    requires Head(pathname) == Some(head)
    ensures head != "" && '/' !in head && 1 + |head| <= |pathname|
    ensures pathname == "/" + head + pathname[1 + |head|..] && NoTerminatorFrom(pathname[1 + |head|..], 0)
  {
    var k := SegmentEnd(pathname);
    assert pathname[..k] == "/" + head && pathname == pathname[..k] + pathname[k..];
    assert forall j :: 0 <= j < |pathname| - k ==> pathname[k..][j] == pathname[k + j];
  }

  lemma SegmentEndOf(locale: string, tail: string)
    requires '/' !in locale && tail != "" && tail[0] == '/'
    ensures SegmentEnd("/" + locale + tail) == 1 + |locale|
  {
    var s := "/" + locale + tail;
    assert s[1 + |locale|] == '/';
    assert forall j :: 1 <= j < 1 + |locale| ==> s[j] == locale[j - 1];
  }

  /** A locale segment in front is split off again. */
  lemma SplitLocale(locale: string, tail: string, locales: seq<string>)
    requires locale in locales && locale != "" && '/' !in locale
    requires tail != "" && tail[0] == '/' && NoTerminatorFrom(tail, 0)
    ensures SplitPathname("/" + locale + tail, locales) ==
      match ParseOrgDashboardPath(tail)
      case Some(scoped) => SplitPath("/" + locale, true, Some(scoped.orgId), scoped.path)
      case None => SplitPath("/" + locale, true, None, tail)
  {
    hide ParseOrgDashboardPath, IsSpace;
    var s := "/" + locale + tail;
    SegmentEndOf(locale, tail);
    var k := 1 + |locale|;
    assert s[1..k] == locale;
    assert forall j :: k <= j < |s| ==> s[j] == tail[j - k];
    assert s[k..] == tail;
  }

  lemma OneLine(path: string, id: string)
    requires IsOrgId(id) && NoTerminatorFrom(path, 0)
    ensures NoTerminatorFrom(SEGMENT + id + path, 0)
  {
    var s := SEGMENT + id + path;
    assert forall k :: 0 <= k < 4 ==> id[k] == "org_"[k];
    assert forall k :: 0 <= k < |s| ==>
      s[k] == if k < 3 then SEGMENT[k] else if k < 29 then id[k - 3] else path[k - 29];
  }

  /** The redirect keeps locale and page, puts the organisation in, and leads to a
      path that needs no further redirect. */
  lemma RedirectSettles(pathname: string, id: string, locales: seq<string>)
    requires OrgScopedDashboardPathname(pathname, id, locales).Some?
    ensures var target := OrgScopedDashboardPathname(pathname, id, locales).value;
      && SplitPathname(target, locales) == SplitPathname(pathname, locales).(orgId := Some(id))
      && !NeedsOrgSegment(target, locales, true)
  {
    RedirectWhenNeeded(pathname, id, locales);
    var split := SplitPathname(pathname, locales);
    var locale := NeededShape(pathname, locales);
    ScopedForm(split.path, id);
    OneLine(split.path, id);
    SplitLocale(locale, SEGMENT + id + split.path, locales);
  }

  /** A locale alone leads to its root. */
  lemma SplitBareLocale(locale: string, locales: seq<string>)
    requires locale in locales && locale != "" && '/' !in locale
    ensures SplitPathname("/" + locale, locales) == SplitPath("/" + locale, true, None, "/")
  {
    var s := "/" + locale;
    assert forall j :: 1 <= j < |s| ==> s[j] == locale[j - 1];
    assert SegmentEnd(s) == |s| && s[1..] == locale;
    assert s[1..|s|] == locale && Head(s) == Some(locale);
    assert ParseOrgDashboardPath("/") == None by { assert |Pathname("/")| <= 1; }
  }

  // ----- The setup page -----

  /** A locale that starts like the dashboard hides the real dashboard segment. */
  lemma FrontOccurs(front: string, tail: string)
    requires front != "" && tail != "" && tail[0] == '/'
    ensures OccursAt(front + tail, DASHBOARD, 0) <==> StartsWith(front, DASHBOARD)
  {
    var s := front + tail;
    if |front| < 10 {
      assert |s| >= 10 ==> s[0..10][|front|] == '/';
    } else {
      assert s[0..10] == front[..10];
    }
  }

  lemma DashboardNeedsSlash(s: string, k: int)
    requires OccursAt(s, DASHBOARD, k)
    ensures s[k] == '/' && s[k + 1] == 'd'
  {
    assert s[k] == s[k..k + 10][0] && s[k + 1] == s[k..k + 10][1];
  }

  /** Where the setup path is cut, given where slashes stand in front. */
  lemma FirstDashboard(front: string, path: string)
    requires front != "" && |path| >= 10 && path[..10] == DASHBOARD
    requires !StartsWith(front, DASHBOARD)
    requires forall k :: 1 <= k < |front| && front[k] == '/' ==> k + 1 < |front| && front[k + 1] != 'd'
    ensures IndexOf(front + path, DASHBOARD, 0) == |front|
  {
    var s := front + path;
    assert OccursAt(s, DASHBOARD, |front|) by { assert s[|front|..|front| + 10] == path[..10]; }
    assert path[0] == path[..10][0] == '/';
    FrontOccurs(front, path);
    var at := IndexOf(s, DASHBOARD, 0);
    DashboardNeedsSlash(s, at);
  }

  lemma SetupAtFront(s: string)
    requires OccursAt(s, DASHBOARD, 0)
    ensures SetupPathFor(s) == "/setup"
  {
    assert IndexOf(s, DASHBOARD, 0) == 0;
    assert s[..0] == "";
    assert LastIndexOf("", SEGMENT, 0) == -1;
  }

  lemma SegmentNeedsSlashes(s: string, k: int)
    requires OccursAt(s, SEGMENT, k)
    ensures s[k] == '/' && s[k + 1] == 'o' && s[k + 2] == '/'
  {
    assert s[k] == s[k..k + 3][0] && s[k + 1] == s[k..k + 3][1] && s[k + 2] == s[k..k + 3][2];
  }

  /** The setup page of a path without an organisation: behind the locale. */
  lemma SetupPlain(locale: string, path: string)
    requires '/' !in locale && locale != "" && |path| >= 10 && path[..10] == DASHBOARD
    ensures SetupPathFor("/" + locale + path) ==
      if StartsWith("/" + locale, DASHBOARD) then "/setup" else "/" + locale + "/setup"
  {
    var front := "/" + locale;
    assert path[0] == path[..10][0] == '/';
    FrontOccurs(front, path);
    if StartsWith(front, DASHBOARD) {
      SetupAtFront(front + path);
    } else {
      assert forall k :: 1 <= k < |front| ==> front[k] == locale[k - 1];
      FirstDashboard(front, path);
      assert (front + path)[..|front|] == front;
      var org := LastIndexOf(front, SEGMENT, |front|);
      if org >= 0 { SegmentNeedsSlashes(front, org); }
    }
  }

  lemma ScopedFront(locale: string, id: string)
    requires '/' !in locale && locale != "" && IsOrgId(id)
    ensures var front := "/" + locale + SEGMENT + id;
      && (forall k :: 1 <= k < |front| && front[k] == '/' ==> k + 1 < |front| && front[k + 1] != 'd')
      && LastIndexOf(front, SEGMENT, |front|) == 1 + |locale|
      && front[1 + |locale| + 3..] == id && front[..1 + |locale|] == "/" + locale
  {
    OrgIdChars(id);
    var front, n := "/" + locale + SEGMENT + id, 1 + |locale|;
    forall k | 1 <= k < |front| && front[k] == '/' ensures k == n || k == n + 2 {
    }
    assert front[n..n + 3] == SEGMENT && OccursAt(front, SEGMENT, n);
    var org := LastIndexOf(front, SEGMENT, |front|);
    SegmentNeedsSlashes(front, org);
    assert front[n + 3] == id[0];
  }

  /** The setup page of a path within an organisation is the same. */
  lemma SetupScoped(locale: string, id: string, path: string)
    requires '/' !in locale && locale != "" && IsOrgId(id) && |path| >= 10 && path[..10] == DASHBOARD
    ensures SetupPathFor("/" + locale + SEGMENT + id + path) ==
      if StartsWith("/" + locale, DASHBOARD) then "/setup" else "/" + locale + "/setup"
  {
    var a, tail := "/" + locale, SEGMENT + id + path;
    var front := a + SEGMENT + id;
    assert front + path == a + tail;
    FrontOccurs(a, tail);
    if StartsWith(a, DASHBOARD) {
      SetupAtFront(front + path);
    } else {
      ScopedFront(locale, id);
      NotDashboard(a, SEGMENT + id);
      assert a + (SEGMENT + id) == front;
      FirstDashboard(front, path);
      assert (front + path)[..|front|] == front;
    }
  }

  lemma NotDashboard(a: string, tail: string)
    requires a != "" && tail != "" && tail[0] == '/' && !StartsWith(a, DASHBOARD)
    ensures !StartsWith(a + tail, DASHBOARD)
  {
    FrontOccurs(a, tail);
  }

  /** Without a locale the setup page is the same inside and outside an organisation, too. */
  lemma SetupUnlocalised(id: string, path: string)
    requires IsOrgId(id) && |path| >= 10 && path[..10] == DASHBOARD
    ensures SetupPathFor(SEGMENT + id + path) == SetupPathFor(path) == "/setup"
  {
    OrgIdChars(id);
    SetupAtFront(path);
    var front := SEGMENT + id;
    assert forall k :: 3 <= k < |front| ==> front[k] == id[k - 3];
    assert front[0] == '/' && front[1] == 'o' && front[2] == '/';
    assert front[3] == id[0] == id[..4][0] == 'o';
    assert !StartsWith(front, DASHBOARD) by { assert |front| >= 10 && front[..10][1] == 'o' && DASHBOARD[1] == 'd'; }
    FirstDashboard(front, path);
    assert (front + path)[..|front|] == front && front[..3] == SEGMENT && front[3..] == id;
    var org := LastIndexOf(front, SEGMENT, |front|);
    assert OccursAt(front, SEGMENT, 0);
    SegmentNeedsSlashes(front, org);
    assert org == 0;
  }

  lemma RedirectForm(pathname: string, id: string, locales: seq<string>) returns (locale: string, path: string)
    requires OrgScopedDashboardPathname(pathname, id, locales).Some?
    ensures '/' !in locale && locale != "" && IsOrgId(id) && |path| >= 10 && path[..10] == DASHBOARD
    ensures pathname == "/" + locale + path
    ensures OrgScopedDashboardPathname(pathname, id, locales).value == "/" + locale + SEGMENT + id + path
  {
    RedirectWhenNeeded(pathname, id, locales);
    locale := NeededShape(pathname, locales);
    path := SplitPathname(pathname, locales).path;
    DashboardStart(path);
    RedirectValue(pathname, id, locales, locale, path);
  }

  lemma RedirectValue(pathname: string, id: string, locales: seq<string>, locale: string, path: string)
    requires OrgScopedDashboardPathname(pathname, id, locales).Some? && IsOrgId(id)
    requires SplitPathname(pathname, locales) == SplitPath("/" + locale, true, None, path)
    ensures OrgScopedDashboardPathname(pathname, id, locales).value == "/" + locale + SEGMENT + id + path
  {
    ScopedForm(path, id);
    JoinPieces("/" + locale, id, path);
  }

  lemma JoinPieces(front: string, id: string, path: string)
    ensures front + (SEGMENT + id + path) == front + SEGMENT + id + path
  {
  }

  /** Redirecting into an organisation does not move the setup page. */
  lemma SetupUnmoved(pathname: string, id: string, locales: seq<string>)
    requires OrgScopedDashboardPathname(pathname, id, locales).Some?
    ensures SetupPathFor(OrgScopedDashboardPathname(pathname, id, locales).value) == SetupPathFor(pathname)
  {
    var locale, path := RedirectForm(pathname, id, locales);
    SetupPlain(locale, path);
    SetupScoped(locale, id, path);
  }
}
