/**
 * What the router widget's navigation operations do once guards are out of
 * the way, as functions of the widget's state.
 *
 * `Env` is what navigation reads but never changes (templates, capabilities,
 * the not-found route, the registry and the nested-prefix candidates);
 * `Core` is what it changes (history, active route, URL override, queued
 * actions, the recorded block reason, the suspended navigation and the guard
 * bypass flag). Each `Commit*` function is one of the widget operations of
 * `src/widget/api.rs` with `guard_bypass` set; `ResolvePathIntent` and
 * `CommitIntent` are `resolve_path_intent` and `apply_resolved_path_intent`
 * of `crates/makepad-router-widgets/src/widget/path_nav.rs`.
 */
module CommitSpec {
  import opened Wrappers
  import opened Ids
  import opened Patterns
  import opened Routes
  import opened Navigation
  import opened Registry
  import opened Url
  import opened Routers
  import opened WidgetTypes
  import opened NestedSelect

  datatype Env = Env(
    templates: set<LiveId>,
    caps: Capabilities,
    notFoundRoute: LiveId,
    byId: map<LiveId, RouteEntry>,
    byPattern: seq<RouteEntry>,
    nestedCandidates: seq<LiveId>)

  datatype Core = Core(
    history: History,
    activeRoute: LiveId,
    urlPathOverride: Option<string>,
    actions: seq<RouterAction>,
    lastBlocked: Option<BlockReason>,
    pending: Option<PendingNavigation>,
    guardBypass: bool)

  predicate CoreOk(c: Core) {
    WellFormed(c.history)
  }

  /** `old_route.as_ref().map(|r| r.id)`. */
  function IdOf(r: Option<Route>): (id: Option<LiveId>)
    ensures id.Some? <==> r.Some?
    ensures id.Some? ==> id.value == r.value.id
  {
    match r
    case Some(route) => Some(route.id)
    case None => None
  }

  function CurrentId(c: Core): Option<LiveId> {
    IdOf(CurrentOf(c.history))
  }

  /** `queue_route_actions`: the primary action, if any, then the route change, after the actions already queued. */
  function Queued(actions: seq<RouterAction>, primary: Option<RouterAction>, oldId: Option<LiveId>, newRoute: Route): (r: seq<RouterAction>)
    ensures |r| == |actions| + (if primary.Some? then 2 else 1)
    ensures r[..|actions|] == actions
    ensures primary.Some? ==> r[|actions|] == primary.value
    ensures r[|r| - 1] == RouteChanged(oldId, newRoute.id)
  {
    (if primary.Some? then actions + [primary.value] else actions) + [RouteChanged(oldId, newRoute.id)]
  }

  /** The fields a commit never touches: the recorded block reason, the suspended navigation, the bypass flag. */
  predicate SameGuardState(c: Core, d: Core) {
    d.lastBlocked == c.lastBlocked && d.pending == c.pending && d.guardBypass == c.guardBypass
  }

  /**
   * What a successful commit leaves: `route` is current and is the active
   * route, and the queue holds the old actions, then `primary`, then the
   * change from the old current route to `route`.
   */
  predicate Settled(c: Core, d: Core, route: Route, primary: Option<RouterAction>) {
    CurrentOf(d.history) == Some(route) && d.activeRoute == route.id &&
    d.actions == Queued(c.actions, primary, CurrentId(c), route)
  }

  /** `a` is `b` with some routes left out, the rest in their order. */
  predicate IsSubsequence(a: seq<Route>, b: seq<Route>)
    decreases |b|
  {
    |a| == 0 || (|b| > 0 && if a[0] == b[0] then IsSubsequence(a[1..], b[1..]) else IsSubsequence(a, b[1..]))
  }

  /** A route in front of the longer sequence can be left out too. */
  lemma {:induction false} SubsequenceOfLonger(a: seq<Route>, x: Route, b: seq<Route>)
    requires IsSubsequence(a, b)
    ensures IsSubsequence(a, [x] + b)
    decreases |b|, 1
  {
    assert ([x] + b)[1..] == b;
    if |a| > 0 && a[0] == x {
      SubsequenceDropFirst(a, b);
    }
  }

  /** Leaving out the first route of a subsequence keeps a subsequence. */
  lemma {:induction false} SubsequenceDropFirst(a: seq<Route>, b: seq<Route>)
    requires |a| > 0 && IsSubsequence(a, b)
    ensures IsSubsequence(a[1..], b)
    decreases |b|, 0
  {
    assert [b[0]] + b[1..] == b;
    if a[0] == b[0] {
      SubsequenceOfLonger(a[1..], b[0], b[1..]);
    } else {
      SubsequenceDropFirst(a, b[1..]);
      SubsequenceOfLonger(a[1..], b[0], b[1..]);
    }
  }

  /** The routes of the stack that have a template, in order (the filter of `set_stack`). */
  function Templated(stack: seq<Route>, templates: set<LiveId>): (r: seq<Route>)
    ensures |r| <= |stack|
    ensures forall i :: 0 <= i < |r| ==> r[i].id in templates && r[i] in stack
    ensures forall i :: 0 <= i < |stack| && stack[i].id in templates ==> stack[i] in r
    decreases |stack|
  {
    if |stack| == 0 then []
    else (if stack[0].id in templates then [stack[0]] else []) + Templated(stack[1..], templates)
  }

  /** The kept routes are the stack with the others left out, in the stack's order. */
  lemma {:induction false} TemplatedInOrder(stack: seq<Route>, templates: set<LiveId>)
    ensures IsSubsequence(Templated(stack, templates), stack)
    decreases |stack|
  {
    if |stack| > 0 {
      var rest := Templated(stack[1..], templates);
      TemplatedInOrder(stack[1..], templates);
      if stack[0].id in templates {
        assert Templated(stack, templates) == [stack[0]] + rest;
        assert ([stack[0]] + rest)[1..] == rest;
      } else {
        assert Templated(stack, templates) == [] + rest == rest;
        SubsequenceOfLonger(rest, stack[0], stack[1..]);
        assert [stack[0]] + stack[1..] == stack;
      }
    }
  }

  /* ------------------------------------------------ commits by route id */

  /** `navigate` with guards bypassed: an id without a template changes nothing. */
  function CommitNavigate(env: Env, c: Core, id: LiveId): (r: (Core, bool))
    requires CoreOk(c)
    ensures CoreOk(r.0) && SameGuardState(c, r.0)
    ensures r.1 <==> id in env.templates
    ensures !r.1 ==> r.0 == c
    ensures r.1 ==> r.0.history == AfterPush(c.history, New(id)) && r.0.urlPathOverride.None? &&
                    Settled(c, r.0, New(id), Some(RouterAction.Navigate(New(id))))
  {
    if id !in env.templates then (c, false)
    else
      var h := AfterPush(c.history, New(id));
      var c1 := c.(urlPathOverride := None, history := h, activeRoute := id);
      match CurrentOf(h)
      case Some(route) => (c1.(actions := Queued(c.actions, Some(RouterAction.Navigate(route)), CurrentId(c), route)), true)
      case None => (c1, true)
  }

  /** `replace` with guards bypassed. */
  function CommitReplace(env: Env, c: Core, id: LiveId): (r: (Core, bool))
    requires CoreOk(c)
    ensures CoreOk(r.0) && SameGuardState(c, r.0)
    ensures r.1 <==> id in env.templates
    ensures !r.1 ==> r.0 == c
    ensures r.1 ==> r.0.history == AfterReplace(c.history, New(id)) && r.0.urlPathOverride.None? &&
                    Settled(c, r.0, New(id), Some(RouterAction.Replace(New(id))))
  {
    if id !in env.templates then (c, false)
    else
      var h := AfterReplace(c.history, New(id));
      var c1 := c.(urlPathOverride := None, history := h, activeRoute := id);
      match CurrentOf(h)
      case Some(route) => (c1.(actions := Queued(c.actions, Some(RouterAction.Replace(route)), CurrentId(c), route)), true)
      case None => (c1, true)
  }

  /** `reset` with guards bypassed. */
  function CommitReset(env: Env, c: Core, route: Route): (r: (Core, bool))
    requires CoreOk(c)
    ensures CoreOk(r.0) && SameGuardState(c, r.0)
    ensures r.1 <==> route.id in env.templates
    ensures !r.1 ==> r.0 == c
    ensures r.1 ==> r.0.history == AfterReset(route) && r.0.urlPathOverride.None? &&
                    Settled(c, r.0, route, Some(RouterAction.Reset(route)))
  {
    if route.id !in env.templates then (c, false)
    else
      var h := AfterReset(route);
      var c1 := c.(urlPathOverride := None, history := h, activeRoute := route.id);
      match CurrentOf(h)
      case Some(nr) => (c1.(actions := Queued(c.actions, Some(RouterAction.Reset(nr)), CurrentId(c), nr)), true)
      case None => (c1, true)
  }

  /** `set_stack` with guards bypassed: routes without a template are dropped first. */
  function CommitSetStack(env: Env, c: Core, stack: seq<Route>): (r: (Core, bool))
    requires CoreOk(c)
    ensures CoreOk(r.0) && SameGuardState(c, r.0)
    ensures r.1 <==> |Templated(stack, env.templates)| > 0
    ensures !r.1 ==> r.0 == c
    ensures r.1 ==> var kept := Templated(stack, env.templates);
                    r.0.history == AfterSetStack(kept) && r.0.urlPathOverride.None? &&
                    Settled(c, r.0, kept[|kept| - 1], Some(RouterAction.Reset(kept[|kept| - 1])))
  {
    var kept := Templated(stack, env.templates);
    if |kept| == 0 then (c, false) else StackInstalled(c, kept)
  }

  /** The kept routes become the whole history, the last one current. */
  function StackInstalled(c: Core, kept: seq<Route>): (r: (Core, bool))
    requires CoreOk(c) && |kept| > 0
    ensures CoreOk(r.0) && SameGuardState(c, r.0) && r.1
    ensures r.0.history == AfterSetStack(kept) && r.0.urlPathOverride.None?
    ensures Settled(c, r.0, kept[|kept| - 1], Some(RouterAction.Reset(kept[|kept| - 1])))
  {
    var c1 := c.(urlPathOverride := None, history := AfterSetStack(kept));
    match CurrentOf(c1.history)
    case Some(nr) => (c1.(activeRoute := nr.id, actions := Queued(c.actions, Some(RouterAction.Reset(nr)), CurrentId(c), nr)), true)
    case None => (c1, false)
  }

  /* ------------------------------------------------- commits on history */

  /** `back` with guards bypassed. */
  function CommitBack(c: Core): (r: (Core, bool))
    requires CoreOk(c)
    ensures CoreOk(r.0) && SameGuardState(c, r.0)
    ensures r.1 <==> CanGoBack(c.history)
    ensures !r.1 ==> r.0 == c
    ensures r.1 ==> r.0.history == AfterBack(c.history).0 && r.0.urlPathOverride.None? &&
                    Settled(c, r.0, CurrentOf(r.0.history).value, Some(RouterAction.Back))
  {
    var (h, moved) := AfterBack(c.history);
    if !moved then (c.(history := h), false)
    else match CurrentOf(h)
      case Some(route) => (c.(history := h, urlPathOverride := None, activeRoute := route.id,
                              actions := Queued(c.actions, Some(RouterAction.Back), CurrentId(c), route)), true)
      case None => (c.(history := h), false)
  }

  /** `forward` with guards bypassed. */
  function CommitForward(c: Core): (r: (Core, bool))
    requires CoreOk(c)
    ensures CoreOk(r.0) && SameGuardState(c, r.0)
    ensures r.1 <==> CanGoForward(c.history)
    ensures !r.1 ==> r.0 == c
    ensures r.1 ==> r.0.history == AfterForward(c.history).0 && r.0.urlPathOverride.None? &&
                    Settled(c, r.0, CurrentOf(r.0.history).value, Some(RouterAction.Forward))
  {
    var (h, moved) := AfterForward(c.history);
    if !moved then (c.(history := h), false)
    else match CurrentOf(h)
      case Some(route) => (c.(history := h, urlPathOverride := None, activeRoute := route.id,
                              actions := Queued(c.actions, Some(RouterAction.Forward), CurrentId(c), route)), true)
      case None => (c.(history := h), false)
  }

  /** The common tail of `pop`, `pop_to` and `pop_to_root`: only a route change is queued. */
  function SettlePop(c: Core, popped: (History, bool)): (r: (Core, bool))
    requires CoreOk(c) && WellFormed(popped.0)
    requires !popped.1 ==> popped.0 == c.history
    ensures CoreOk(r.0) && SameGuardState(c, r.0)
    ensures r.1 <==> popped.1 && CurrentOf(popped.0).Some?
    ensures !r.1 ==> r.0 == c.(history := popped.0)
    ensures r.1 ==> r.0.history == popped.0 && r.0.urlPathOverride.None? &&
                    Settled(c, r.0, CurrentOf(popped.0).value, None)
  {
    var (h, ok) := popped;
    if !ok then (c.(history := h), false)
    else match CurrentOf(h)
      case Some(route) => (c.(history := h, urlPathOverride := None, activeRoute := route.id,
                              actions := Queued(c.actions, None, CurrentId(c), route)), true)
      case None => (c.(history := h), false)
  }

  /** `pop` with guards bypassed. */
  function CommitPop(c: Core): (r: (Core, bool))
    requires CoreOk(c)
    ensures CoreOk(r.0) && SameGuardState(c, r.0)
    ensures r.1 <==> |c.history.stack| > 1
    ensures !r.1 ==> r.0 == c
    ensures r.1 ==> r.0.history == AfterPop(c.history).0 && r.0.urlPathOverride.None? &&
                    Settled(c, r.0, CurrentOf(r.0.history).value, None)
  {
    SettlePop(c, AfterPop(c.history))
  }

  /** `pop_to` with guards bypassed. */
  function CommitPopTo(c: Core, id: LiveId): (r: (Core, bool))
    requires CoreOk(c)
    ensures CoreOk(r.0) && SameGuardState(c, r.0)
    ensures r.1 <==> AfterPopTo(c.history, id).1
    ensures !r.1 ==> r.0 == c
    ensures r.1 ==> r.0.history == AfterPopTo(c.history, id).0 && r.0.urlPathOverride.None? &&
                    Settled(c, r.0, CurrentOf(r.0.history).value, None) && CurrentOf(r.0.history).value.id == id
  {
    SettlePop(c, AfterPopTo(c.history, id))
  }

  /** `pop_to_root` with guards bypassed. */
  function CommitPopToRoot(c: Core): (r: (Core, bool))
    requires CoreOk(c)
    ensures CoreOk(r.0) && SameGuardState(c, r.0)
    ensures r.1 <==> |c.history.stack| > 1
    ensures !r.1 ==> r.0 == c
    ensures r.1 ==> r.0.history == History(c.history.stack[..1], 0) && r.0.urlPathOverride.None? &&
                    Settled(c, r.0, c.history.stack[0], None)
  {
    SettlePop(c, AfterPopToRoot(c.history))
  }

  /* ----------------------------------------------------- commits by path */

  /** The nested tier: nothing when nested routing is off, otherwise the best prefix hit. */
  function NestedPrefixOf(env: Env, path: string): Option<NestedHit> {
    if env.caps.nested then BestNested(env.byId, env.nestedCandidates, path) else None
  }

  /**
   * `resolve_path_intent`: a full registry match, else a nested prefix
   * match, else the not-found route; the tier that answers decides, and a
   * route without a template gives nothing rather than trying a later tier.
   */
  function ResolvePathIntent(env: Env, h: History, path: string, replace: bool, clearExtras: bool): (r: Option<ResolvedPathIntent>)
    ensures r.Some? ==> r.value.replace == replace && r.value.clearExtras == clearExtras
    ensures r.Some? ==> r.value.route.id in env.templates && r.value.path == Url.Parse(path).path
  {
    ResolveParsed(env, h, Url.Parse(path), replace, clearExtras)
  }

  /** The three tiers, once the path is parsed. */
  function ResolveParsed(env: Env, h: History, parsed: RouterUrl, replace: bool, clearExtras: bool): (r: Option<ResolvedPathIntent>)
    ensures r.Some? ==> r.value.replace == replace && r.value.clearExtras == clearExtras
    ensures r.Some? ==> r.value.route.id in env.templates && r.value.path == parsed.path
  {
    var query := QueryFromString(parsed.query);
    var n := parsed.path;
    match Resolve(env.byId, env.byPattern, n)
    case Some(route) =>
      if route.id in env.templates
      then Some(ResolvedPathIntent(n, route.(query := query, hash := parsed.hash), FullMatch, clearExtras, replace))
      else None
    case None => FallbackTiers(env, h, n, query, parsed.hash, replace, clearExtras)
  }

  /** The nested-prefix tier and then the not-found fallback, for a path the registry does not resolve. */
  function FallbackTiers(env: Env, h: History, n: string, query: RouteQuery, hash: string, replace: bool, clearExtras: bool): (r: Option<ResolvedPathIntent>)
    ensures r.Some? ==> r.value.replace == replace && r.value.clearExtras == clearExtras
    ensures r.Some? ==> r.value.route.id in env.templates && r.value.path == n
  {
    match NestedPrefixOf(env, n)
    case Some(hit) =>
      if hit.routeId in env.templates
      then Some(ResolvedPathIntent(n, Route(hit.routeId, hit.params, query, hash, Some(hit.pattern)), NestedPrefix(hit.tail), clearExtras, replace))
      else None
    case None =>
      if env.notFoundRoute != NoId && env.notFoundRoute in env.templates then
        if !replace && IdOf(CurrentOf(h)) == Some(env.notFoundRoute) then None
        else Some(ResolvedPathIntent(n, New(env.notFoundRoute).(query := query, hash := hash), NotFoundFallback, clearExtras, replace))
      else None
  }

  /**
   * `apply_resolved_path_intent`: push or replace the intent's route, make
   * it active and queue its action. The override keeps the unknown path
   * only for the not-found fallback. Handing the tail to a child router
   * is not part of this function: its result is discarded, and it leaves
   * this state alone.
   */
  function CommitIntent(c: Core, intent: ResolvedPathIntent): (r: (Core, bool))
    requires CoreOk(c)
    ensures CoreOk(r.0) && SameGuardState(c, r.0) && r.1
    ensures r.0.history == if intent.replace then AfterReplace(c.history, intent.route) else AfterPush(c.history, intent.route)
    ensures r.0.urlPathOverride == if intent.kind.NotFoundFallback? then Some(intent.path) else None
    ensures Settled(c, r.0, intent.route,
                    Some(if intent.replace then RouterAction.Replace(intent.route) else RouterAction.Navigate(intent.route)))
  {
    var c1 := c.(urlPathOverride := if intent.kind.NotFoundFallback? then Some(intent.path) else None);
    var h := if intent.replace then AfterReplace(c.history, intent.route) else AfterPush(c.history, intent.route);
    var primary := if intent.replace then RouterAction.Replace(intent.route) else RouterAction.Navigate(intent.route);
    (c1.(history := h, activeRoute := intent.route.id, actions := Queued(c.actions, Some(primary), CurrentId(c), intent.route)), true)
  }

  /** `navigate_by_path_internal` (`replace` false) and `replace_by_path_internal` (`replace` true). */
  function CommitPath(env: Env, c: Core, path: string, replace: bool, clearExtras: bool): (r: (Core, bool))
    requires CoreOk(c)
    ensures CoreOk(r.0) && SameGuardState(c, r.0)
    ensures r.1 <==> ResolvePathIntent(env, c.history, path, replace, clearExtras).Some?
    ensures !r.1 ==> r.0 == c
  {
    match ResolvePathIntent(env, c.history, path, replace, clearExtras)
    case None => (c, false)
    case Some(intent) => CommitIntent(c, intent)
  }

  /* ------------------------------------------------------------ requests */

  /**
   * The operation a request names, run while guards are bypassed; a path
   * request with an intent already resolved applies that intent.
   */
  function CommitOperation(env: Env, c: Core, request: NavRequest, resolved: Option<ResolvedPathIntent>): (r: (Core, bool))
    requires CoreOk(c)
    ensures CoreOk(r.0) && SameGuardState(c, r.0)
    ensures !r.1 ==> r.0 == c
  {
    match request
    case Navigate(id) => CommitNavigate(env, c, id)
    case Replace(id) => CommitReplace(env, c, id)
    case NavigateByPath(path) =>
      if resolved.Some? then CommitIntent(c, resolved.value) else CommitPath(env, c, path, false, true)
    case ReplaceByPath(path, clearExtras) =>
      if resolved.Some? then CommitIntent(c, resolved.value) else CommitPath(env, c, path, true, clearExtras)
    case Back => CommitBack(c)
    case Forward => CommitForward(c)
    case Reset(route) => CommitReset(env, c, route)
    case SetStack(stack) => CommitSetStack(env, c, stack)
    case Pop => CommitPop(c)
    case PopTo(id) => CommitPopTo(c, id)
    case PopToRoot => CommitPopToRoot(c)
  }

  /**
   * `apply_request_bypassing_guards_resolved`: set the bypass flag, run the
   * operation the request names, and restore the flag.
   */
  function CommitRequest(env: Env, c: Core, request: NavRequest, resolved: Option<ResolvedPathIntent>): (r: (Core, bool))
    requires CoreOk(c)
    ensures CoreOk(r.0) && SameGuardState(c, r.0)
    ensures !r.1 ==> r.0 == c
  {
    var out := CommitOperation(env, c.(guardBypass := true), request, resolved);
    (out.0.(guardBypass := c.guardBypass), out.1)
  }
}
