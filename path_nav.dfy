/**
 * Navigation by path (`crates/makepad-router-widgets/src/widget/path_nav.rs`):
 * resolving a path to an intent through the URL cache, the registry, the
 * nested-prefix tier and the not-found fallback, and applying an intent to
 * the widget. Each method is proved to do what the function of the same
 * name in `CommitSpec` describes.
 */
module PathNav {
  import opened Wrappers
  import opened Ids
  import opened Routes
  import opened Navigation
  import opened Registry
  import opened Url
  import opened Routers
  import opened WidgetTypes
  import opened UrlCache
  import opened CommitSpec
  import opened Widgets
  import opened Actions
  import opened Nested

  /** `resolve_path_intent`, through the URL cache and the nested-prefix cache. */
  method ResolvePathIntent(w: RouterWidget, path: string, replace: bool, clearExtras: bool) returns (r: Option<ResolvedPathIntent>)
    requires w.Valid()
    modifies w.caches
    ensures w.Valid()
    ensures r == CommitSpec.ResolvePathIntent(w.Env(), w.Core().history, path, replace, clearExtras)
    ensures w.caches.routeRegistryEpoch == old(w.caches.routeRegistryEpoch)
  {
    var parsed := w.caches.ParseUrlCached(path);
    r := ResolveParsed(w, parsed, replace, clearExtras);
  }

  /** The tiers of `resolve_path_intent` once the path is parsed. */
  method ResolveParsed(w: RouterWidget, parsed: RouterUrl, replace: bool, clearExtras: bool) returns (r: Option<ResolvedPathIntent>)
    requires w.Valid()
    modifies w.caches
    ensures w.Valid()
    ensures r == CommitSpec.ResolveParsed(w.Env(), w.Core().history, parsed, replace, clearExtras)
    ensures w.caches.routeRegistryEpoch == old(w.caches.routeRegistryEpoch)
  {
    var query := QueryFromString(parsed.query);
    var hash := parsed.hash;
    var n := parsed.path;
    var full := w.router.registry.ResolvePath(n);
    if full.Some? {
      if full.value.id in w.templates {
        return Some(ResolvedPathIntent(n, full.value.(query := query, hash := hash), FullMatch, clearExtras, replace));
      }
      return None;
    }
    r := ResolveFallbackTiers(w, n, query, hash, replace, clearExtras);
  }

  /** The nested-prefix tier and the not-found fallback of `resolve_path_intent`. */
  method ResolveFallbackTiers(w: RouterWidget, n: string, query: RouteQuery, hash: string, replace: bool, clearExtras: bool)
    returns (r: Option<ResolvedPathIntent>)
    requires w.Valid()
    modifies w.caches
    ensures w.Valid()
    ensures r == FallbackTiers(w.Env(), w.Core().history, n, query, hash, replace, clearExtras)
    ensures w.caches.routeRegistryEpoch == old(w.caches.routeRegistryEpoch)
  {
    var nested := ResolveNestedPrefix(w, n);
    if nested.Some? {
      var hit := nested.value;
      if hit.routeId in w.templates {
        return Some(ResolvedPathIntent(n, Route(hit.routeId, hit.params, query, hash, Some(hit.pattern)), NestedPrefix(hit.tail), clearExtras, replace));
      }
      return None;
    }
    if w.notFoundRoute != NoId && w.notFoundRoute in w.templates {
      if !replace && w.router.CurrentRouteId() == Some(w.notFoundRoute) {
        return None;
      }
      return Some(ResolvedPathIntent(n, New(w.notFoundRoute).(query := query, hash := hash), NotFoundFallback, clearExtras, replace));
    }
    r := None;
  }

  /**
   * `apply_resolved_path_intent`, without its calls to
   * `delegate_tail_to_child`: their result is discarded, and apart from the
   * child router they can only add to this widget's list of child routers,
   * so this widget's navigation state is as stated here.
   */
  method ApplyResolvedPathIntent(w: RouterWidget, intent: ResolvedPathIntent) returns (ok: bool)
    requires w.Valid()
    modifies w, w.router.history
    ensures w.Valid() && Keeps(w)
    ensures (w.Core(), ok) == CommitIntent(old(w.Core()), intent)
  {
    var oldId := w.router.CurrentRouteId();
    SetIntentOverride(w, intent);
    var route := intent.route;
    MoveTo(w, route, intent.replace);
    QueueRouteActions(w, Some(if intent.replace then RouterAction.Replace(route) else RouterAction.Navigate(route)), oldId, route);
    ok := true;
  }

  /** The kept unknown path: the intent's path for the not-found fallback, nothing otherwise. */
  method SetIntentOverride(w: RouterWidget, intent: ResolvedPathIntent)
    requires w.Valid()
    modifies w
    ensures w.Valid() && Keeps(w)
    ensures w.Core() == old(w.Core()).(urlPathOverride := if intent.kind.NotFoundFallback? then Some(intent.path) else None)
  {
    w.urlPathOverride := None;
    if intent.kind.NotFoundFallback? {
      w.urlPathOverride := Some(intent.path);
    }
  }

  /** Push or replace the route in the history and make it the active route. */
  method MoveTo(w: RouterWidget, route: Route, replace: bool)
    requires w.Valid()
    modifies w, w.router.history
    ensures w.Valid() && Keeps(w)
    ensures w.Core() == old(w.Core()).(history := if replace then AfterReplace(old(w.Core().history), route) else AfterPush(old(w.Core().history), route),
                                        activeRoute := route.id)
  {
    if replace {
      w.router.Replace(route);
    } else {
      w.router.Navigate(route);
    }
    w.activeRoute := route.id;
  }

  /** `navigate_by_path_internal`: push what the path resolves to; nothing changes when it resolves to nothing. */
  method NavigateByPathInternal(w: RouterWidget, path: string, clearExtras: bool) returns (ok: bool)
    requires w.Valid()
    modifies w, w.router.history, w.caches
    ensures w.Valid() && Keeps(w)
    ensures (w.Core(), ok) == CommitPath(old(w.Env()), old(w.Core()), path, false, clearExtras)
  {
    var intent := ResolvePathIntent(w, path, false, clearExtras);
    if intent.Some? {
      ok := ApplyResolvedPathIntent(w, intent.value);
      return;
    }
    ok := false;
  }

  /** `replace_by_path_internal`: the same, replacing the current entry. */
  method ReplaceByPathInternal(w: RouterWidget, path: string, clearExtras: bool) returns (ok: bool)
    requires w.Valid()
    modifies w, w.router.history, w.caches
    ensures w.Valid() && Keeps(w)
    ensures (w.Core(), ok) == CommitPath(old(w.Env()), old(w.Core()), path, true, clearExtras)
  {
    var intent := ResolvePathIntent(w, path, true, clearExtras);
    if intent.Some? {
      ok := ApplyResolvedPathIntent(w, intent.value);
      return;
    }
    ok := false;
  }
}
