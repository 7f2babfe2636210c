/**
 * The path and URL the widget shows for its current route
 * (`crates/makepad-router-widgets/src/widget/url_state.rs`).
 *
 * The path of a route comes from its pattern formatted with its parameters
 * (cut at the first unformattable segment), or from its id when it has no
 * pattern; the configured not-found route shows the unknown path that led to
 * it instead; a route hosting a child router has the child's own current
 * path joined behind it. Child routers are other widgets: their current
 * paths are a parameter, `childPaths`, holding the path of each live child.
 */
module UrlState {
  import opened Wrappers
  import opened Ids
  import opened Text
  import opened Patterns
  import opened Routes
  import opened Registry
  import opened Navigation
  import opened Url
  import opened CommitSpec
  import opened Widgets

  /* -------------------------------------------------------- slash trimming */

  /** `str::trim_end_matches('/')`. */
  function TrimEndSlashes(s: string): (r: string)
    ensures |r| <= |s| && r == s[..|r|]
    ensures |r| > 0 ==> r[|r| - 1] != '/'
    ensures forall i :: |r| <= i < |s| ==> s[i] == '/'
    decreases |s|
  {
    if |s| > 0 && s[|s| - 1] == '/' then TrimEndSlashes(s[..|s| - 1]) else s
  }

  /** `str::trim_start_matches('/')`. */
  function TrimStartSlashes(s: string): (r: string)
    ensures |r| <= |s| && r == s[|s| - |r|..]
    ensures |r| > 0 ==> r[0] != '/'
    ensures forall i :: 0 <= i < |s| - |r| ==> s[i] == '/'
    decreases |s|
  {
    if |s| > 0 && s[0] == '/' then
      var r := TrimStartSlashes(s[1..]);
      assert s[1..][|s| - 1 - |r|..] == s[|s| - |r|..];
      r
    else s
  }

  /* ------------------------------------------------------------- segments */

  /** `find` gives the first occurrence. */
  lemma FindFirst(s: string, c: char, i: nat)
    requires i < |s| && s[i] == c && c !in s[..i]
    ensures Find(s, c) == Some(i)
  {
  }

  /** A separator splits the text into the pieces before it and the pieces after it. */
  lemma {:induction false} SplitAround(a: string, b: string)
    ensures Split(a + "/" + b, '/') == Split(a, '/') + Split(b, '/')
    decreases |a|
  {
    var s := a + "/" + b;
    match Find(a, '/')
    case None =>
      assert s[..|a|] == a && s[|a|] == '/';
      FindFirst(s, '/', |a|);
      assert s[|a| + 1..] == b;
      assert Split(s, '/') == [a] + Split(b, '/');
      assert Split(a, '/') == [a];
    case Some(i) =>
      assert s[..i] == a[..i] && s[i] == '/';
      FindFirst(s, '/', i);
      assert s[i + 1..] == a[i + 1..] + "/" + b;
      SplitAround(a[i + 1..], b);
      assert Split(s, '/') == [a[..i]] + Split(a[i + 1..] + "/" + b, '/');
      assert Split(a, '/') == [a[..i]] + Split(a[i + 1..], '/');
      ConcatAssoc([a[..i]], Split(a[i + 1..], '/'), Split(b, '/'));
  }

  lemma {:induction false} NonEmptyPartsAppend(x: seq<string>, y: seq<string>)
    ensures NonEmptyParts(x + y) == NonEmptyParts(x) + NonEmptyParts(y)
    decreases |x|
  {
    if |x| > 0 {
      assert (x + y)[1..] == x[1..] + y;
      NonEmptyPartsAppend(x[1..], y);
    } else {
      assert x + y == y;
    }
  }

  /** The segments of `a/b` are those of `a` followed by those of `b`. */
  lemma SegmentsAround(a: string, b: string)
    ensures Segments(a + "/" + b) == Segments(a) + Segments(b)
  {
    SplitAround(a, b);
    NonEmptyPartsAppend(Split(a, '/'), Split(b, '/'));
  }

  lemma SegmentsOfEmpty()
    ensures Segments("") == []
  {
    assert Split("", '/') == [""];
  }

  /** Trailing slashes add no segment. */
  lemma {:induction false} SegmentsTrimEnd(s: string)
    ensures Segments(TrimEndSlashes(s)) == Segments(s)
    decreases |s|
  {
    if |s| > 0 && s[|s| - 1] == '/' {
      var init := s[..|s| - 1];
      assert s == init + "/" + "";
      SegmentsAround(init, "");
      SegmentsOfEmpty();
      SegmentsTrimEnd(init);
    }
  }

  /** Leading slashes add no segment. */
  lemma {:induction false} SegmentsTrimStart(s: string)
    ensures Segments(TrimStartSlashes(s)) == Segments(s)
    decreases |s|
  {
    if |s| > 0 && s[0] == '/' {
      assert s == "" + "/" + s[1..];
      SegmentsAround("", s[1..]);
      SegmentsOfEmpty();
      SegmentsTrimStart(s[1..]);
    }
  }

  /* ------------------------------------------------------------ joining */

  /** One `/` between the base and the tail, a lone `/` for an empty base and the base alone for an empty tail. */
  function Seam(bt: string, tt: string): (r: string)
    ensures |r| > 0
    ensures bt == "" || bt[0] == '/' ==> r[0] == '/'
  {
    if tt == "" then
      (if bt == "" || bt == "/" then "/" else bt)
    else if bt == "" || bt == "/" then "/" + tt
    else bt + "/" + tt
  }

  /**
   * `join_paths`: the trimmed base without its trailing slashes, one `/`,
   * and the trimmed tail without its leading slashes; an empty base counts
   * as `/`, and an empty tail leaves the base alone.
   */
  function JoinPaths(base: string, tail: string): (r: string)
    ensures |r| > 0
    ensures Trim(base) == "" || Trim(base)[0] == '/' ==> r[0] == '/'
  {
    var b := if Trim(base) == "" then "/" else Trim(base);
    assert b[0] == '/' ==> TrimEndSlashes(b) == "" || TrimEndSlashes(b)[0] == '/';
    Seam(TrimEndSlashes(b), TrimStartSlashes(Trim(tail)))
  }

  lemma SeamSegments(bt: string, tt: string)
    ensures Segments(Seam(bt, tt)) == Segments(bt) + Segments(tt)
  {
    SegmentsOfEmpty();
    SegmentsAround("", "");
    assert "" + "/" + "" == "/";
    if tt != "" {
      if bt == "" || bt == "/" {
        assert "/" + tt == "" + "/" + tt;
        SegmentsAround("", tt);
      } else {
        SegmentsAround(bt, tt);
      }
    }
  }

  /**
   * Joining concatenates segments: the segments of the joined path are the
   * segments of the trimmed base followed by those of the trimmed tail,
   * whatever slashes either carries at the seam.
   */
  lemma JoinedSegments(base: string, tail: string)
    ensures Segments(JoinPaths(base, tail)) == Segments(Trim(base)) + Segments(Trim(tail))
  {
    var b := if Trim(base) == "" then "/" else Trim(base);
    SegmentsOfEmpty();
    SegmentsAround("", "");
    assert "" + "/" + "" == "/";
    assert Segments(b) == Segments(Trim(base));
    SegmentsTrimEnd(b);
    SegmentsTrimStart(Trim(tail));
    SeamSegments(TrimEndSlashes(b), TrimStartSlashes(Trim(tail)));
  }

  /** A base that is only slashes, or empty, gives the tail behind one slash. */
  lemma JoinOnRoot(base: string, tail: string)
    requires forall i :: 0 <= i < |Trim(base)| ==> Trim(base)[i] == '/'
    requires TrimStartSlashes(Trim(tail)) != ""
    ensures JoinPaths(base, tail) == "/" + TrimStartSlashes(Trim(tail))
  {
    var b := if Trim(base) == "" then "/" else Trim(base);
    assert TrimEndSlashes(b) == "";
  }

  /* --------------------------------------------------------------- paths */

  /** The not-found override as shown: trimmed, `/` when empty, with a leading `/` added when missing. */
  function OverridePath(p: string): (r: string)
    ensures |r| > 0 && r[0] == '/'
    ensures Trim(p) != "" && Trim(p)[0] == '/' ==> r == Trim(p)
    ensures Trim(p) != "" && Trim(p)[0] != '/' ==> r == "/" + Trim(p)
  {
    var t := Trim(p);
    if t == "" then "/" else if t[0] != '/' then "/" + t else t
  }

  /** Showing an override again changes nothing. */
  lemma OverridePathIdempotent(p: string)
    ensures OverridePath(OverridePath(p)) == OverridePath(p)
  {
    var r := OverridePath(p);
    TrimmedIsFixed(r);
  }

  /** The pattern a route is shown with: its own, or the one registered for its id. */
  function ShownPattern(byId: map<LiveId, RouteEntry>, route: Route): Option<RoutePattern> {
    if route.pattern.Some? then route.pattern else PatternOfId(byId, route.id)
  }

  /** The route's own path: its formatted pattern, or `/` and its id. */
  function BasePath(byId: map<LiveId, RouteEntry>, route: Route): (r: string)
    ensures |r| > 0 && r[0] == '/'
    ensures ShownPattern(byId, route).Some? && FormatPath(ShownPattern(byId, route).value, route.params).Some? ==>
      r == FormatPath(ShownPattern(byId, route).value, route.params).value
    ensures ShownPattern(byId, route).None? ==> r == "/" + route.id
  {
    match ShownPattern(byId, route)
    case Some(p) =>
      (match FormatPath(p, route.params)
       case Some(s) => s
       case None => FormatBasePath(p, route.params))
    case None => if route.id == "" then "/" else "/" + route.id
  }

  /** Whether the route is the configured not-found route and an unknown path is kept for it. */
  predicate ShowsOverride(notFoundRoute: LiveId, urlPathOverride: Option<string>, route: Route) {
    notFoundRoute != NoId && route.id == notFoundRoute && urlPathOverride.Some?
  }

  /**
   * `current_path_for_route`: always an absolute path; the kept unknown path
   * for the not-found route; otherwise the route's own path, followed by the
   * current path of the child router it hosts, if that child is live.
   */
  function PathForRoute(notFoundRoute: LiveId, urlPathOverride: Option<string>, byId: map<LiveId, RouteEntry>,
                        childRouters: seq<LiveId>, childPaths: map<LiveId, string>, route: Route): (r: string)
    ensures |r| > 0 && r[0] == '/'
    ensures ShowsOverride(notFoundRoute, urlPathOverride, route) ==> r == OverridePath(urlPathOverride.value)
  {
    if ShowsOverride(notFoundRoute, urlPathOverride, route) then OverridePath(urlPathOverride.value)
    else
      var base := BasePath(byId, route);
      if route.id in childRouters && route.id in childPaths then
        TrimmedIsFixed([base[0]]);
        assert Trim(base)[0] == '/' by { TrimStartOfSlash(base); }
        JoinPaths(base, childPaths[route.id])
      else base
  }

  lemma TrimStartOfSlash(s: string)
    requires |s| > 0 && s[0] == '/'
    ensures |Trim(s)| > 0 && Trim(s)[0] == '/'
  {
    assert TrimStart(s) == s;
  }

  /**
   * A route outside the not-found case hosting a live child is shown as its
   * own segments followed by the child's.
   */
  lemma ChildPathJoined(notFoundRoute: LiveId, urlPathOverride: Option<string>, byId: map<LiveId, RouteEntry>,
                        childRouters: seq<LiveId>, childPaths: map<LiveId, string>, route: Route)
    requires !ShowsOverride(notFoundRoute, urlPathOverride, route)
    requires route.id in childRouters && route.id in childPaths
    ensures Segments(PathForRoute(notFoundRoute, urlPathOverride, byId, childRouters, childPaths, route)) ==
      Segments(Trim(BasePath(byId, route))) + Segments(Trim(childPaths[route.id]))
  {
    JoinedSegments(BasePath(byId, route), childPaths[route.id]);
  }

  /**
   * The path shown for a route reached by matching a path against its
   * pattern has that path's segments: for a pattern free of wildcards, with
   * distinct parameter names, formatting gives the matched path back.
   */
  lemma ShownPathOfMatchedRoute(notFoundRoute: LiveId, urlPathOverride: Option<string>, byId: map<LiveId, RouteEntry>,
                                childRouters: seq<LiveId>, childPaths: map<LiveId, string>, route: Route, text: string)
    requires route.pattern.Some?
    requires forall i :: 0 <= i < |route.pattern.value.segments| ==>
      route.pattern.value.segments[i].Static? || route.pattern.value.segments[i].Dynamic?
    requires DistinctNames(route.pattern.value.segments)
    requires MatchPath(route.pattern.value, text) == Some(route.params)
    requires !ShowsOverride(notFoundRoute, urlPathOverride, route)
    requires !(route.id in childRouters && route.id in childPaths)
    ensures PathForRoute(notFoundRoute, urlPathOverride, byId, childRouters, childPaths, route) == "/" + Join(PathSegments(text), '/')
    ensures Segments(PathForRoute(notFoundRoute, urlPathOverride, byId, childRouters, childPaths, route)) == PathSegments(text)
  {
    FormatInvertsMatch(route.pattern.value.segments, PathSegments(text));
    SegmentsOfJoined(PathSegments(text));
  }

  /** `current_path`: `/` without a current route, else the current route's path. */
  function CurrentPath(env: Env, c: Core, childRouters: seq<LiveId>, childPaths: map<LiveId, string>): (r: string)
    ensures |r| > 0 && r[0] == '/'
    ensures CurrentOf(c.history).None? ==> r == "/"
  {
    match CurrentOf(c.history)
    case None => "/"
    case Some(route) => PathForRoute(env.notFoundRoute, c.urlPathOverride, env.byId, childRouters, childPaths, route)
  }

  /** `clear_url_extras`: forget the kept unknown path. */
  method ClearUrlExtras(w: RouterWidget)
    requires w.Valid()
    modifies w
    ensures w.Valid() && Keeps(w)
    ensures w.Core() == old(w.Core()).(urlPathOverride := None)
  {
    w.urlPathOverride := None;
  }

  /**
   * `current_url`: the current path, then the route's query built from its
   * map, then its hash; just the current path without a current route.
   */
  method CurrentUrl(w: RouterWidget, childPaths: map<LiveId, string>) returns (url: string)
    requires w.Valid()
    ensures CurrentOf(w.Core().history).None? ==> url == "/"
    ensures CurrentOf(w.Core().history).Some? ==>
      var route := CurrentOf(w.Core().history).value;
      url == CurrentPath(w.Env(), w.Core(), w.childRouters, childPaths) + BuildQuery(route.query.data) + route.hash
  {
    var current := w.router.CurrentRoute();
    if current.None? {
      return "/";
    }
    var route := current.value;
    var path := PathForRoute(w.notFoundRoute, w.urlPathOverride, w.router.registry.byId, w.childRouters, childPaths, route);
    var query := BuildQueryString(route.query.data);
    url := path + query + route.hash;
  }
}
