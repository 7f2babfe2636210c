/**
 * The headless `Router` (`crates/makepad-router-core/src/router.rs`): a
 * navigation history, a persistence flag and a route registry, with every
 * navigation call delegated to the history and `navigate_by_path` resolving
 * through the registry first.
 */
module Routers {
  import opened Wrappers
  import opened Ids
  import opened Routes
  import opened Navigation
  import opened Registry
  import opened Patterns

  const NoRouteForPath := "No route found for path: "

  /** `RouterAction`: what a router reports to its host after a change. */
  datatype RouterAction =
    | Navigate(route: Route)
    | Replace(route: Route)
    | Back
    | Forward
    | Reset(route: Route)
    | RouteChanged(from: Option<LiveId>, to: LiveId)

  class Router {
    const history: NavigationHistory
    const registry: RouteRegistry
    var persistState: bool

    predicate Valid()
      reads this, history, registry
    {
      history.Valid() && registry.Valid()
    }

    /** `Router::new`: a history of one route, persistence off, an empty registry. */
    constructor (initial: Route)
      ensures Valid() && fresh(history) && fresh(registry)
      ensures history.Model() == Start(initial) && !persistState
      ensures registry.byId == map[] && registry.byPattern == []
    {
      history := new NavigationHistory(initial);
      registry := new RouteRegistry();
      persistState := false;
    }

    /** `Router::default`: an empty history. */
    constructor Default()
      ensures Valid() && fresh(history) && fresh(registry)
      ensures history.Model() == EmptyHistory && !persistState
      ensures registry.byId == map[] && registry.byPattern == []
    {
      history := new NavigationHistory.Empty();
      registry := new RouteRegistry();
      persistState := false;
    }

    /** `Router::with_persistence`. */
    constructor WithPersistence(initial: Route)
      ensures Valid() && fresh(history) && fresh(registry)
      ensures history.Model() == Start(initial) && persistState
      ensures registry.byId == map[] && registry.byPattern == []
    {
      history := new NavigationHistory(initial);
      registry := new RouteRegistry();
      persistState := true;
    }

    function CurrentRoute(): Option<Route>
      reads this, history
    {
      history.Current()
    }

    /** `current_route_id`. */
    function CurrentRouteId(): (r: Option<LiveId>)
      reads this, history
      ensures r.Some? <==> CurrentRoute().Some?
      ensures r.Some? ==> r.value == CurrentRoute().value.id
    {
      match history.Current()
      case Some(route) => Some(route.id)
      case None => None
    }

    function CanGoBack(): bool
      reads this, history
    {
      Navigation.CanGoBack(history.Model())
    }

    function CanGoForward(): bool
      reads this, history
    {
      Navigation.CanGoForward(history.Model())
    }

    function Depth(): nat
      reads this, history
    {
      history.Depth()
    }

    /** `navigate` and its alias `push`. */
    method Navigate(route: Route)
      requires Valid()
      modifies history
      ensures Valid() && history.Model() == AfterPush(old(history.Model()), route)
    {
      history.Push(route);
    }

    /** `navigate_to`: push a fresh route with the id. */
    method NavigateTo(id: LiveId)
      requires Valid()
      modifies history
      ensures Valid() && history.Model() == AfterPush(old(history.Model()), New(id))
    {
      Navigate(New(id));
    }

    method Replace(route: Route)
      requires Valid()
      modifies history
      ensures Valid() && history.Model() == AfterReplace(old(history.Model()), route)
    {
      history.Replace(route);
    }

    /** `replace_with`: replace with a fresh route with the id. */
    method ReplaceWith(id: LiveId)
      requires Valid()
      modifies history
      ensures Valid() && history.Model() == AfterReplace(old(history.Model()), New(id))
    {
      Replace(New(id));
    }

    method Back() returns (moved: bool)
      requires Valid()
      modifies history
      ensures Valid() && (history.Model(), moved) == AfterBack(old(history.Model()))
    {
      moved := history.Back();
    }

    method Forward() returns (moved: bool)
      requires Valid()
      modifies history
      ensures Valid() && (history.Model(), moved) == AfterForward(old(history.Model()))
    {
      moved := history.Forward();
    }

    method Reset(route: Route)
      requires Valid()
      modifies history
      ensures Valid() && history.Model() == AfterReset(route)
    {
      history.Reset(route);
    }

    /** `clear_history`. */
    method ClearHistory()
      requires Valid()
      modifies history
      ensures Valid() && history.Model() == AfterClear(old(history.Model()))
    {
      history.Clear();
    }

    method Pop() returns (popped: bool)
      requires Valid()
      modifies history
      ensures Valid() && (history.Model(), popped) == AfterPop(old(history.Model()))
    {
      popped := history.Pop();
    }

    method PopTo(id: LiveId) returns (popped: bool)
      requires Valid()
      modifies history
      ensures Valid() && (history.Model(), popped) == AfterPopTo(old(history.Model()), id)
    {
      popped := history.PopTo(id);
    }

    method PopToRoot() returns (popped: bool)
      requires Valid()
      modifies history
      ensures Valid() && (history.Model(), popped) == AfterPopToRoot(old(history.Model()))
    {
      popped := history.PopToRoot();
    }

    method SetStack(routes: seq<Route>)
      requires Valid()
      modifies history
      ensures Valid() && history.Model() == AfterSetStack(routes)
    {
      history.SetStack(routes);
    }

    /** `register_route_pattern`. */
    method RegisterRoutePattern(text: string, id: LiveId) returns (r: Result<(), PatternError>)
      requires Valid()
      modifies registry
      ensures Valid()
      ensures r.Ok? <==> Patterns.ParsePattern(text).Ok?
      ensures r.Ok? ==> registry.HasRoute(id) && registry.GetPattern(id) == Some(Patterns.ParsePattern(text).value)
      ensures r.Ok? ==> var e := RouteEntry(id, Some(Patterns.ParsePattern(text).value), Patterns.Priority(Patterns.ParsePattern(text).value));
        registry.byId == old(registry.byId)[id := e] && registry.byPattern == Inserted(old(registry.byPattern), e)
      ensures r.Ok? ==> forall other :: other != id ==> PatternOfId(registry.byId, other) == PatternOfId(old(registry.byId), other)
      ensures r.Err? ==> unchanged(registry)
    {
      r := registry.RegisterPattern(text, id);
    }

    /**
     * `navigate_by_path`: a registry miss is an error and leaves the history
     * alone; a hit pushes the resolved route and returns it.
     */
    method NavigateByPath(path: string) returns (r: Result<Route, string>)
      requires Valid()
      modifies history
      ensures Valid()
      ensures r.Err? <==> Resolve(registry.byId, registry.byPattern, path).None?
      ensures r.Err? ==> r.error == NoRouteForPath + path && history.Model() == old(history.Model())
      ensures r.Ok? ==> r.value == Resolve(registry.byId, registry.byPattern, path).value
      ensures r.Ok? ==> history.Model() == AfterPush(old(history.Model()), r.value)
    {
      var resolved := registry.ResolvePath(path);
      if resolved.None? {
        return Err(NoRouteForPath + path);
      }
      Navigate(resolved.value);
      r := Ok(resolved.value);
    }
  }

  /** A new router has depth one with its route current; the default one has no current route. */
  lemma FreshRouters(initial: Route)
    ensures |Start(initial).stack| == 1 && CurrentOf(Start(initial)) == Some(initial)
    ensures |EmptyHistory.stack| == 0 && CurrentOf(EmptyHistory).None?
  {
  }

  /** From a fresh router, two `navigate_to` calls are undone by two `back` calls, ending at the root. */
  lemma TwoForwardTwoBack(root: Route, a: LiveId, b: LiveId)
    ensures var h2 := AfterPush(AfterPush(Start(root), New(a)), New(b));
      var b1 := AfterBack(h2);
      var b2 := AfterBack(b1.0);
      |h2.stack| == 3 && CurrentOf(h2) == Some(New(b)) &&
      b1.1 && CurrentOf(b1.0) == Some(New(a)) &&
      b2.1 && CurrentOf(b2.0) == Some(root) && !Navigation.CanGoBack(b2.0)
  {
  }

  /** From a fresh router, `replace_with` keeps depth one and nothing to go back to. */
  lemma ReplaceFresh(root: Route, id: LiveId)
    ensures var h := AfterReplace(Start(root), New(id));
      |h.stack| == 1 && CurrentOf(h) == Some(New(id)) && !Navigation.CanGoBack(h)
  {
  }
}
