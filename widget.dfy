/**
 * The router widget's state (`crates/makepad-router-widgets/src/widget.rs`
 * and `widget/fields.rs`), without its rendering, transition and callback
 * parts: the headless router, the caches, the route templates, the pattern
 * and child-router ids, the guard lists, the capability flags and the
 * navigation bookkeeping.
 *
 * The operations, split over files as in the source, are methods of the
 * modules that import this one. Each is proved against a function of
 * `CommitSpec`, `GuardSpec` or its own module, read through `Env()` (what
 * navigation reads but never changes), `Core()` (what it changes) and
 * `Settings()` (configuration that navigation neither reads nor changes).
 */
module Widgets {
  import opened Wrappers
  import opened Ids
  import opened Patterns
  import opened Routes
  import opened Navigation
  import opened Registry
  import opened Routers
  import opened WidgetTypes
  import opened UrlCache
  import opened NestedSelect
  import opened CommitSpec

  /** The default route, the three default transitions and the persistence flag. */
  datatype WidgetSettings = WidgetSettings(defaultRoute: LiveId, pushTransition: LiveId, popTransition: LiveId, replaceTransition: LiveId, persistState: bool)

  /** Every id whose registry entry has a pattern is one of the widget's pattern ids. */
  predicate PatternsListed(byId: map<LiveId, RouteEntry>, patternIds: seq<LiveId>) {
    forall id :: id in byId && PatternOfId(byId, id).Some? ==> id in patternIds
  }

  /**
   * The one-entry nested-prefix cache is trusted only while its epoch is the
   * registry epoch, and then it holds the selection for its path.
   */
  predicate NestedCacheCoherent(byId: map<LiveId, RouteEntry>, cands: seq<LiveId>, cacheEpoch: nat, registryEpoch: nat,
                                path: string, result: Option<NestedHit>) {
    cacheEpoch == registryEpoch ==> result == BestNested(byId, cands, path)
  }

  /** What navigation leaves alone: what it reads, the configuration and the guard lists. */
  twostate predicate Keeps(w: RouterWidget)
    reads w, w.router, w.router.registry
  {
    w.Env() == old(w.Env()) && w.Settings() == old(w.Settings()) && w.guards == old(w.guards)
  }

  /** Registering a pattern for `id` keeps every patterned id listed once `id` is listed. */
  lemma ListedAfterRegister(before: map<LiveId, RouteEntry>, after: map<LiveId, RouteEntry>, order: seq<LiveId>, id: LiveId)
    requires PatternsListed(before, order)
    requires forall other :: other != id ==> PatternOfId(after, other) == PatternOfId(before, other)
    ensures PatternsListed(after, if id in order then order else order + [id])
  {
    forall other | other in after && PatternOfId(after, other).Some?
      ensures other in (if id in order then order else order + [id])
    {
      if other != id {
        assert PatternOfId(before, other).Some?;
      }
    }
  }

  class RouterWidget {
    const router: Router
    const caches: RouterCaches
    /** The ids of `routes.templates`. */
    var templates: set<LiveId>
    /**
     * The ids of `routes.patterns`. The source keeps them in a
     * `ComponentMap` and the model fixes its order as insertion order.
     */
    var patternOrder: seq<LiveId>
    /** The ids of `child_routers`, likewise in insertion order. */
    var childRouters: seq<LiveId>
    var guards: GuardLists
    var activeRoute: LiveId
    var defaultRoute: LiveId
    var notFoundRoute: LiveId
    var pushTransition: LiveId
    var popTransition: LiveId
    var replaceTransition: LiveId
    /** The five `cap_*` flags. */
    var capabilities: Capabilities
    var persistState: bool
    var pendingNavigation: Option<PendingNavigation>
    var guardBypass: bool
    var pendingActions: seq<RouterAction>
    var urlPathOverride: Option<string>
    var lastBlockedReason: Option<BlockReason>

    predicate Valid()
      reads this, router, router.history, router.registry, caches
    {
      router.Valid() && caches.Valid() &&
      PatternsListed(router.registry.byId, patternOrder) &&
      NestedCacheCoherent(router.registry.byId, patternOrder + childRouters, caches.nestedPrefixCacheEpoch,
                          caches.routeRegistryEpoch, caches.nestedPrefixCachePath, caches.nestedPrefixCacheResult)
    }

    function Env(): Env
      reads this, router, router.registry
    {
      CommitSpec.Env(templates, capabilities, notFoundRoute, router.registry.byId, router.registry.byPattern, patternOrder + childRouters)
    }

    function Core(): Core
      reads this, router, router.history
    {
      CommitSpec.Core(router.history.Model(), activeRoute, urlPathOverride, pendingActions, lastBlockedReason, pendingNavigation, guardBypass)
    }

    function Settings(): WidgetSettings
      reads this
    {
      WidgetSettings(defaultRoute, pushTransition, popTransition, replaceTransition, persistState)
    }

    /**
     * A widget with the given templates and everything else at its default:
     * an empty history, no patterns, no guards, every capability off.
     */
    constructor (templates: set<LiveId>)
      ensures Valid() && fresh(router) && fresh(router.history) && fresh(router.registry) && fresh(caches)
      ensures Core() == CommitSpec.Core(EmptyHistory, NoId, None, [], None, None, false)
      ensures Env() == CommitSpec.Env(templates, NoCapabilities, NoId, map[], [], [])
      ensures guards == GuardLists([], [], [], [])
    {
      router := new Router.Default();
      caches := new RouterCaches();
      this.templates := templates;
      patternOrder, childRouters := [], [];
      guards := GuardLists([], [], [], []);
      activeRoute, defaultRoute, notFoundRoute := NoId, NoId, NoId;
      pushTransition, popTransition, replaceTransition := NoId, NoId, NoId;
      capabilities := NoCapabilities;
      persistState := false;
      pendingNavigation := None;
      guardBypass := false;
      pendingActions := [];
      urlPathOverride := None;
      lastBlockedReason := None;
    }

    /**
     * `register_route_pattern`: register in the router, record the id, and
     * move the registry epoch on so the nested-prefix cache is no longer
     * trusted. A malformed pattern changes nothing.
     */
    method RegisterRoutePattern(text: string, id: LiveId) returns (r: Result<(), PatternError>)
      requires Valid()
      modifies this, router.registry, caches
      ensures Valid()
      ensures r.Ok? <==> ParsePattern(text).Ok?
      ensures r.Err? ==> unchanged(this, router.registry, caches)
      ensures r.Ok? ==> router.registry.GetPattern(id) == Some(ParsePattern(text).value) && id in patternOrder
      ensures r.Ok? ==> var e := RouteEntry(id, Some(ParsePattern(text).value), Priority(ParsePattern(text).value));
        router.registry.byId == old(router.registry.byId)[id := e] && router.registry.byPattern == Inserted(old(router.registry.byPattern), e)
      ensures r.Ok? ==> caches.routeRegistryEpoch == old(caches.routeRegistryEpoch) + 1 && caches.nestedPrefixCacheEpoch == 0
      ensures r.Ok? ==> caches.nestedPrefixCachePath == "" && caches.nestedPrefixCacheResult.None?
      ensures Core() == old(Core()) && Settings() == old(Settings()) && guards == old(guards)
      ensures templates == old(templates) && capabilities == old(capabilities) && notFoundRoute == old(notFoundRoute)
      ensures childRouters == old(childRouters) && caches.urlParseCache == old(caches.urlParseCache)
    {
      ghost var byId := router.registry.byId;
      r := router.RegisterRoutePattern(text, id);
      if r.Err? {
        return;
      }
      ListedAfterRegister(byId, router.registry.byId, patternOrder, id);
      NoteRegisteredPattern(id);
    }

    /** The widget's side of `register_route_pattern` once the router has the pattern: list the id, move the epoch on. */
    method NoteRegisteredPattern(id: LiveId)
      requires router.Valid() && caches.Valid()
      requires PatternsListed(router.registry.byId, if id in patternOrder then patternOrder else patternOrder + [id])
      modifies this, caches
      ensures Valid()
      ensures patternOrder == if id in old(patternOrder) then old(patternOrder) else old(patternOrder) + [id]
      ensures caches.routeRegistryEpoch == old(caches.routeRegistryEpoch) + 1 && caches.nestedPrefixCacheEpoch == 0
      ensures caches.nestedPrefixCachePath == "" && caches.nestedPrefixCacheResult.None?
      ensures Core() == old(Core()) && Settings() == old(Settings()) && guards == old(guards)
      ensures templates == old(templates) && capabilities == old(capabilities) && notFoundRoute == old(notFoundRoute)
      ensures childRouters == old(childRouters) && caches.urlParseCache == old(caches.urlParseCache)
    {
      if id !in patternOrder {
        patternOrder := patternOrder + [id];
      }
      caches.routeRegistryEpoch := caches.routeRegistryEpoch + 1;
      caches.nestedPrefixCacheEpoch := 0;
      caches.nestedPrefixCachePath := "";
      caches.nestedPrefixCacheResult := None;
    }

    /**
     * `register_child_router`: refused with `CapabilityDisabled` while nested
     * routing is off. The nested-prefix cache is left as it is, which is
     * sound because a child router id only adds a candidate that is already
     * a pattern id or has no pattern.
     */
    method RegisterChildRouter(id: LiveId)
      requires Valid()
      modifies this
      ensures Valid()
      ensures !capabilities.nested ==> childRouters == old(childRouters) && lastBlockedReason == Some(CapabilityDisabled)
      ensures capabilities.nested ==> childRouters == (if id in old(childRouters) then old(childRouters) else old(childRouters) + [id])
      ensures capabilities.nested ==> lastBlockedReason == old(lastBlockedReason)
      ensures Core() == old(Core()).(lastBlocked := lastBlockedReason)
      ensures Settings() == old(Settings()) && guards == old(guards)
      ensures templates == old(templates) && capabilities == old(capabilities) && notFoundRoute == old(notFoundRoute)
      ensures patternOrder == old(patternOrder)
    {
      if !capabilities.nested {
        lastBlockedReason := Some(CapabilityDisabled);
        return;
      }
      if id !in childRouters {
        var byId := router.registry.byId;
        assert id in patternOrder || PatternOfId(byId, id).None?;
        ExtraCandidatesKeep(byId, patternOrder + childRouters, [id], caches.nestedPrefixCachePath);
        assert patternOrder + (childRouters + [id]) == (patternOrder + childRouters) + [id];
        childRouters := childRouters + [id];
      }
    }
  }
}
