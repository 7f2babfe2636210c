/**
 * The value types the router widget works with
 * (`crates/makepad-router-widgets/src/widget/commands.rs`, `widget.rs`,
 * `guards.rs` and `guard_flow.rs`): block reasons, capabilities, commands,
 * navigation requests and the guard vocabulary. Transition specs are dropped
 * from every variant that carries one, since transitions are not modelled.
 */
module WidgetTypes {
  import opened Wrappers
  import opened Ids
  import opened Patterns
  import opened Routes
  import opened Navigation

  /** `RouterBlockReason`. */
  datatype BlockReason = GuardBlocked | BeforeLeaveBlocked | RouteMissing | NoHistory | CapabilityDisabled | RedirectLimit

  /** `RouterCapabilities`; every feature is off by default. */
  datatype Capabilities = Capabilities(guardsSync: bool, guardsAsync: bool, transitions: bool, nested: bool, persistence: bool)

  const NoCapabilities := Capabilities(false, false, false, false, false)

  /** `RouterConfig`; `NoId` stands for `LiveId(0)`, "leave as is". */
  datatype RouterConfig = RouterConfig(
    capabilities: Capabilities,
    defaultRoute: LiveId,
    notFoundRoute: LiveId,
    defaultTransition: LiveId,
    persistState: bool)

  /** `RouterCommand`, the input of `dispatch`. */
  datatype RouterCommand =
    | GoToRoute(routeId: LiveId)
    | GoToPath(path: string)
    | ReplaceRoute(routeId: LiveId)
    | ReplacePath(path: string, clearExtras: bool)
    | Back
    | Forward
    | Reset(route: Route)
    | Push(routeId: LiveId)
    | Pop
    | PopTo(routeId: LiveId)
    | PopToRoot
    | SetStack(stack: seq<Route>)

  /** `RouterNavRequest`, a navigation waiting for its guards. */
  datatype NavRequest =
    | Navigate(routeId: LiveId)
    | Replace(routeId: LiveId)
    | NavigateByPath(path: string)
    | ReplaceByPath(path: string, clearExtras: bool)
    | Back
    | Forward
    | Reset(route: Route)
    | SetStack(stack: seq<Route>)
    | Pop
    | PopTo(routeId: LiveId)
    | PopToRoot

  /** The kinds of `RouterNavKind` that a request can carry. */
  datatype NavKind = Navigate | Replace | NavigateByPath | ReplaceByPath | Back | Forward | Reset | SetStack | Pop | PopTo | PopToRoot

  /** `RouterNavContext`: what guards and hooks are shown. */
  datatype NavContext = NavContext(kind: NavKind, from: Option<Route>, to: Option<Route>, toPath: Option<string>)

  /** `RouterRedirectTarget` (the route and path targets) and `RouterRedirect`. */
  datatype RedirectTarget = ToRoute(id: LiveId) | ToPath(path: string)

  datatype RouterRedirect = RouterRedirect(target: RedirectTarget, replace: bool)

  /** `RouterGuardDecision`. */
  datatype GuardDecision = Allow | Block | Redirect(redirect: RouterRedirect)

  /** `RouterBeforeLeaveDecision`. */
  datatype LeaveDecision = LeaveAllow | LeaveBlock

  /** `RouterAsyncDecision`: an answer now, or one to be polled for later. */
  datatype AsyncDecision<T> = Immediate(decision: T) | Pending

  /** Guards and hooks are pure functions of the navigation context. */
  type SyncGuard = NavContext -> GuardDecision
  type AsyncGuard = NavContext -> AsyncDecision<GuardDecision>
  type LeaveHook = NavContext -> LeaveDecision
  type AsyncLeaveHook = NavContext -> AsyncDecision<LeaveDecision>

  /** `RouterGuards`, the four registration lists, in registration order. */
  datatype GuardLists = GuardLists(
    routeGuards: seq<SyncGuard>,
    routeGuardsAsync: seq<AsyncGuard>,
    leaveHooks: seq<LeaveHook>,
    leaveHooksAsync: seq<AsyncLeaveHook>)

  /**
   * What one `try_recv_flush` on the pending receiver gives: nothing yet, a
   * closed channel, or the decision of the suspended hook or guard.
   */
  datatype Received = NothingYet | ChannelClosed | LeaveAnswer(leave: LeaveDecision) | GuardAnswer(guard: GuardDecision)

  /** `ResolvedPathKind` and `ResolvedPathIntent`. */
  datatype ResolvedPathKind = FullMatch | NestedPrefix(tail: string) | NotFoundFallback

  datatype ResolvedPathIntent = ResolvedPathIntent(path: string, route: Route, kind: ResolvedPathKind, clearExtras: bool, replace: bool)

  /** `PendingNavPhase` and `PendingNavigation` (the receiver itself is the poll oracle). */
  datatype PendingPhase = BeforeLeaveAsync | GuardAsync

  datatype PendingNavigation = PendingNavigation(
    request: NavRequest,
    context: NavContext,
    resolvedPath: Option<ResolvedPathIntent>,
    phase: PendingPhase,
    asyncIndex: nat,
    redirectDepth: nat)

  /** A nested-prefix hit: the parent route, its parameters, its pattern and the tail left for the child. */
  datatype NestedHit = NestedHit(routeId: LiveId, params: RouteParams, pattern: RoutePattern, tail: string)

  /** `RouterState`: a saved history and the URL override. */
  datatype RouterState = RouterState(history: History, urlPathOverride: Option<string>)

  const DefaultState := RouterState(EmptyHistory, None)
}
