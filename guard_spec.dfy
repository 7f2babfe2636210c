/**
 * The guard pipeline of the router widget
 * (`crates/makepad-router-widgets/src/widget/guard_flow.rs` and the gated
 * accessors of `widget/guards.rs`) as functions of the widget's state.
 *
 * A request is resolved into a context without touching the history; then,
 * unless there is nothing to evaluate, the synchronous before-leave hooks,
 * the asynchronous ones, the synchronous route guards and the asynchronous
 * ones are consulted in that order. A hook or guard can allow, block,
 * redirect (guards only) or answer later; an answer that comes later
 * suspends the navigation until `Poll` receives it. Every redirect costs one
 * unit of depth and depth 8 is the limit, which is what makes the mutual
 * recursion below terminate.
 */
module GuardSpec {
  import opened Wrappers
  import opened Ids
  import opened Routes
  import opened Navigation
  import opened Routers
  import opened WidgetTypes
  import opened CommitSpec

  /** `ROUTER_MAX_REDIRECTS`. */
  const MaxRedirects: nat := 8

  /** Redirects still allowed at a depth; it shrinks with every redirect taken. */
  function Fuel(depth: nat): nat {
    if depth <= MaxRedirects then MaxRedirects - depth else 0
  }

  /* ------------------------------------------------------------ accessors */

  /** `before_leave_hooks`: empty while synchronous guards are disabled. */
  function BeforeLeaveHooks(caps: Capabilities, g: GuardLists): (r: seq<LeaveHook>)
    ensures !caps.guardsSync ==> r == []
    ensures caps.guardsSync ==> r == g.leaveHooks
  {
    if caps.guardsSync then g.leaveHooks else []
  }

  /** `route_guards`: empty while synchronous guards are disabled. */
  function RouteGuards(caps: Capabilities, g: GuardLists): (r: seq<SyncGuard>)
    ensures !caps.guardsSync ==> r == []
    ensures caps.guardsSync ==> r == g.routeGuards
  {
    if caps.guardsSync then g.routeGuards else []
  }

  /** `has_async_before_leave_hooks`. */
  predicate HasAsyncLeaveHooks(caps: Capabilities, g: GuardLists) {
    caps.guardsAsync && |g.leaveHooksAsync| > 0
  }

  /** `has_async_route_guards`. */
  predicate HasAsyncRouteGuards(caps: Capabilities, g: GuardLists) {
    caps.guardsAsync && |g.routeGuardsAsync| > 0
  }

  /** Whether anything at all would be evaluated for a request. */
  predicate NothingToEvaluate(caps: Capabilities, g: GuardLists) {
    |BeforeLeaveHooks(caps, g)| == 0 && !HasAsyncLeaveHooks(caps, g) &&
    |RouteGuards(caps, g)| == 0 && !HasAsyncRouteGuards(caps, g)
  }

  /* ---------------------------------------------------- request helpers */

  /** `request_kind`. */
  function RequestKind(request: NavRequest): NavKind {
    match request
    case Navigate(_) => NavKind.Navigate
    case Replace(_) => NavKind.Replace
    case NavigateByPath(_) => NavKind.NavigateByPath
    case ReplaceByPath(_, _) => NavKind.ReplaceByPath
    case Back => NavKind.Back
    case Forward => NavKind.Forward
    case Reset(_) => NavKind.Reset
    case SetStack(_) => NavKind.SetStack
    case Pop => NavKind.Pop
    case PopTo(_) => NavKind.PopTo
    case PopToRoot => NavKind.PopToRoot
  }

  predicate IsHistoryRequest(request: NavRequest) {
    request.Back? || request.Forward? || request.Pop? || request.PopTo? || request.PopToRoot?
  }

  /** `infer_resolution_block_reason`. */
  function InferResolutionBlockReason(request: NavRequest): (r: BlockReason)
    ensures r == NoHistory <==> IsHistoryRequest(request)
    ensures r == RouteMissing <==> !IsHistoryRequest(request)
  {
    match request
    case Back => NoHistory
    case Forward => NoHistory
    case Pop => NoHistory
    case PopTo(_) => NoHistory
    case PopToRoot => NoHistory
    case _ => RouteMissing
  }

  /** `redirect_to_request`: a path redirect that replaces always clears the URL extras. */
  function RedirectToRequest(redirect: RouterRedirect): NavRequest {
    match redirect.target
    case ToRoute(id) => if redirect.replace then NavRequest.Replace(id) else NavRequest.Navigate(id)
    case ToPath(path) => if redirect.replace then NavRequest.ReplaceByPath(path, true) else NavRequest.NavigateByPath(path)
  }

  /**
   * A redirect keeps its target and its replace flag: a route redirect
   * becomes a route request, a path redirect a path request, and the request
   * replaces exactly when the redirect does.
   */
  lemma RedirectKeepsTarget(redirect: RouterRedirect)
    ensures var r := RedirectToRequest(redirect);
      (redirect.target.ToRoute? <==> r.Navigate? || r.Replace?) &&
      (redirect.target.ToPath? <==> r.NavigateByPath? || r.ReplaceByPath?) &&
      (redirect.replace <==> r.Replace? || r.ReplaceByPath?) &&
      (r.Navigate? ==> r.routeId == redirect.target.id) && (r.Replace? ==> r.routeId == redirect.target.id) &&
      (r.NavigateByPath? ==> r.path == redirect.target.path) &&
      (r.ReplaceByPath? ==> r.path == redirect.target.path && r.clearExtras)
  {
  }

  /** The route a history operation would make current, if it would move at all. */
  function Landing(after: (History, bool)): Option<Route> {
    if after.1 then CurrentOf(after.0) else None
  }

  /**
   * The route a request would make current and, for a path request, the
   * intent resolved on the way; nothing when the request cannot go anywhere.
   * The history operations are previewed by the operation itself, so the
   * preview of `back` is what `back` would make current.
   */
  function Preview(env: Env, h: History, request: NavRequest): Option<(Route, Option<ResolvedPathIntent>)>
    requires WellFormed(h)
  {
    match request
    case Navigate(id) => if id in env.templates then Some((New(id), None)) else None
    case Replace(id) => if id in env.templates then Some((New(id), None)) else None
    case NavigateByPath(path) => PathPreview(env, h, path, false, true)
    case ReplaceByPath(path, clearExtras) => PathPreview(env, h, path, true, clearExtras)
    case Back => var l := Landing(AfterBack(h)); if l.Some? then Some((l.value, None)) else None
    case Forward => var l := Landing(AfterForward(h)); if l.Some? then Some((l.value, None)) else None
    case Reset(route) => if route.id in env.templates then Some((route, None)) else None
    case SetStack(stack) =>
      var kept := Templated(stack, env.templates);
      if |kept| == 0 then None else Some((kept[|kept| - 1], None))
    case Pop => var l := Landing(AfterPop(h)); if l.Some? then Some((l.value, None)) else None
    case PopTo(id) => var l := Landing(AfterPopTo(h, id)); if l.Some? then Some((l.value, None)) else None
    case PopToRoot => var l := Landing(AfterPopToRoot(h)); if l.Some? then Some((l.value, None)) else None
  }

  /** The preview of a path request: the route of the intent the path resolves to, with that intent. */
  function PathPreview(env: Env, h: History, path: string, replace: bool, clearExtras: bool): Option<(Route, Option<ResolvedPathIntent>)>
    requires WellFormed(h)
  {
    var i := ResolvePathIntent(env, h, path, replace, clearExtras);
    if i.Some? then Some((i.value.route, i)) else None
  }

  /**
   * `resolve_nav_context`: the context shown to hooks and guards, whether
   * the request leaves the current route (both ends exist and their ids
   * differ), and the resolved path intent.
   */
  function ResolveNavContext(env: Env, h: History, request: NavRequest): (r: Option<(NavContext, bool, Option<ResolvedPathIntent>)>)
    requires WellFormed(h)
    ensures r.Some? <==> Preview(env, h, request).Some?
    ensures r.Some? ==> r.value.0.from == CurrentOf(h) && r.value.0.to == Some(Preview(env, h, request).value.0)
    ensures r.Some? ==> r.value.0.kind == RequestKind(request) && r.value.2 == Preview(env, h, request).value.1
    ensures r.Some? ==> (r.value.1 <==> CurrentOf(h).Some? && CurrentOf(h).value.id != r.value.0.to.value.id)
    ensures r.Some? ==> (r.value.0.toPath.Some? <==> request.NavigateByPath? || request.ReplaceByPath?)
  {
    match Preview(env, h, request)
    case None => None
    case Some((to, resolved)) =>
      var from := CurrentOf(h);
      var toPath := if resolved.Some? then Some(resolved.value.path) else None;
      Some((NavContext(RequestKind(request), from, Some(to), toPath), from.Some? && from.value.id != to.id, resolved))
  }

  /* ------------------------------------------------------ hook and guard lists */

  /** Whether some synchronous before-leave hook blocks the context. */
  predicate AnyLeaveBlocks(hooks: seq<LeaveHook>, ctx: NavContext) {
    exists i :: 0 <= i < |hooks| && hooks[i](ctx) == LeaveBlock
  }

  /** The first synchronous guard that does not allow the context. */
  function FirstObjection(guards: seq<SyncGuard>, ctx: NavContext): (r: Option<nat>)
    ensures r.Some? ==> r.value < |guards| && !guards[r.value](ctx).Allow?
    ensures r.Some? ==> forall j :: 0 <= j < r.value ==> guards[j](ctx).Allow?
    ensures r.None? <==> forall j :: 0 <= j < |guards| ==> guards[j](ctx).Allow?
    decreases |guards|
  {
    if |guards| == 0 then None
    else if !guards[0](ctx).Allow? then Some(0)
    else match FirstObjection(guards[1..], ctx)
      case None => None
      case Some(k) => Some(k + 1)
  }

  /* ------------------------------------------------------ shapes of outcomes */

  /** A refused request records a reason, or none, and changes nothing else. */
  predicate Refused(c: Core, d: Core) {
    d == c.(lastBlocked := d.lastBlocked)
  }

  /** A suspended request stores a pending navigation and changes nothing else. */
  predicate Suspended(c: Core, d: Core) {
    d.pending.Some? && d == c.(pending := d.pending)
  }

  /**
   * A committed request leaves a current route that is the active route, and
   * queues actions after the old ones, the last being the change from the old
   * current route to the new one.
   */
  predicate Committed(c: Core, d: Core) {
    CurrentOf(d.history).Some? && d.activeRoute == CurrentOf(d.history).value.id &&
    |d.actions| > |c.actions| && d.actions[..|c.actions|] == c.actions &&
    d.actions[|d.actions| - 1] == RouteChanged(CurrentId(c), d.activeRoute) &&
    SameGuardState(c, d)
  }

  /** What every stage of the pipeline promises about its outcome. */
  predicate Outcome(c: Core, r: (Core, bool)) {
    CoreOk(r.0) && r.0.guardBypass == c.guardBypass &&
    (!r.1 ==> Refused(c, r.0)) &&
    (r.1 ==> Committed(c, r.0) || Suspended(c, r.0))
  }

  /** A refusal: the reason is recorded and nothing else changes. */
  function Refusal(c: Core, reason: Option<BlockReason>): (r: (Core, bool))
    requires CoreOk(c)
    ensures Outcome(c, r) && !r.1 && r.0.lastBlocked == reason
  {
    (c.(lastBlocked := reason), false)
  }

  /** A suspension: the navigation waits in `pending` and nothing else changes. */
  function Suspension(c: Core, p: PendingNavigation): (r: (Core, bool))
    requires CoreOk(c)
    ensures Outcome(c, r) && r.1 && r.0.pending == Some(p)
  {
    (c.(pending := Some(p)), true)
  }

  /** Any successful commit of a request has the committed shape. */
  lemma CommitRequestCommits(env: Env, c: Core, request: NavRequest, resolved: Option<ResolvedPathIntent>)
    requires CoreOk(c)
    ensures Outcome(c, CommitRequest(env, c, request, resolved))
  {
    var c1 := c.(guardBypass := true);
    if request.NavigateByPath? || request.ReplaceByPath? {
      PathOperationCommits(env, c1, request, resolved);
    } else if request.Back? || request.Forward? || request.Pop? || request.PopTo? || request.PopToRoot? {
      HistoryOperationCommits(env, c1, request, resolved);
    } else {
      RouteOperationCommits(env, c1, request, resolved);
    }
  }

  /** A path request that commits has the committed shape. */
  lemma PathOperationCommits(env: Env, c: Core, request: NavRequest, resolved: Option<ResolvedPathIntent>)
    requires CoreOk(c) && (request.NavigateByPath? || request.ReplaceByPath?)
    ensures var out := CommitOperation(env, c, request, resolved); out.1 ==> Committed(c, out.0)
  {
    var replace := request.ReplaceByPath?;
    var clearExtras := if request.ReplaceByPath? then request.clearExtras else true;
    if resolved.Some? {
      IntentCommits(c, resolved.value);
    } else {
      var i := ResolvePathIntent(env, c.history, request.path, replace, clearExtras);
      assert CommitOperation(env, c, request, resolved) == CommitPath(env, c, request.path, replace, clearExtras);
      if i.Some? {
        IntentCommits(c, i.value);
      }
    }
  }

  /** Applying a resolved intent has the committed shape. */
  lemma IntentCommits(c: Core, intent: ResolvedPathIntent)
    requires CoreOk(c)
    ensures Committed(c, CommitIntent(c, intent).0)
  {
  }

  /** A history move (back, forward or a pop) that commits has the committed shape. */
  lemma HistoryOperationCommits(env: Env, c: Core, request: NavRequest, resolved: Option<ResolvedPathIntent>)
    requires CoreOk(c) && (request.Back? || request.Forward? || request.Pop? || request.PopTo? || request.PopToRoot?)
    ensures var out := CommitOperation(env, c, request, resolved); out.1 ==> Committed(c, out.0)
  {
  }

  /** Navigating, replacing, resetting or setting the stack, when it commits, has the committed shape. */
  lemma RouteOperationCommits(env: Env, c: Core, request: NavRequest, resolved: Option<ResolvedPathIntent>)
    requires CoreOk(c) && (request.Navigate? || request.Replace? || request.Reset? || request.SetStack?)
    ensures var out := CommitOperation(env, c, request, resolved); out.1 ==> Committed(c, out.0)
  {
  }

  /* --------------------------------------------------------------- pipeline */

  /**
   * `request_navigation_internal`. `skip` is `skip_before_leave`, set when
   * an asynchronous guard redirects; `depth` counts the redirects so far.
   */
  function RequestNav(env: Env, g: GuardLists, c: Core, request: NavRequest, skip: bool, depth: nat): (r: (Core, bool))
    requires CoreOk(c)
    ensures Outcome(c, r)
    ensures r.0.pending != c.pending ==> c.pending.None?
    decreases Fuel(depth), 4, 0
  {
    if c.guardBypass then
      CommitRequestCommits(env, c, request, None);
      CommitRequest(env, c, request, None)
    else if c.pending.Some? then Refusal(c, Some(NoHistory))
    else match ResolveNavContext(env, c.history, request)
      case None => Refusal(c, Some(InferResolutionBlockReason(request)))
      case Some((ctx, leaving, resolved)) => Evaluate(env, g, c, request, ctx, leaving, resolved, skip, depth)
  }

  /**
   * A resolved request: applied at once when there is nothing to evaluate;
   * otherwise, when it leaves the current route and the before-leave hooks
   * are not skipped, a blocking synchronous hook refuses it and the
   * asynchronous hooks go next; then the route guards decide.
   */
  function Evaluate(env: Env, g: GuardLists, c: Core, request: NavRequest, ctx: NavContext, leaving: bool,
                    resolved: Option<ResolvedPathIntent>, skip: bool, depth: nat): (r: (Core, bool))
    requires CoreOk(c)
    ensures Outcome(c, r)
    decreases Fuel(depth), 3, 3
  {
    if !skip && NothingToEvaluate(env.caps, g) then
      CommitRequestCommits(env, c, request, resolved);
      CommitRequest(env, c, request, resolved)
    else HooksAndGuards(env, g, c, request, ctx, leaving, resolved, skip, depth)
  }

  /** With something to evaluate: the before-leave hooks when leaving and not skipped, then the route guards. */
  function HooksAndGuards(env: Env, g: GuardLists, c: Core, request: NavRequest, ctx: NavContext, leaving: bool,
                          resolved: Option<ResolvedPathIntent>, skip: bool, depth: nat): (r: (Core, bool))
    requires CoreOk(c)
    ensures Outcome(c, r)
    decreases Fuel(depth), 3, 2
  {
    if !skip && leaving then LeaveHooks(env, g, c, request, ctx, resolved, depth)
    else GuardsPhase(env, g, c, request, ctx, resolved, depth)
  }

  /** Leaving the current route: a blocking synchronous before-leave hook refuses. */
  function LeaveHooks(env: Env, g: GuardLists, c: Core, request: NavRequest, ctx: NavContext,
                      resolved: Option<ResolvedPathIntent>, depth: nat): (r: (Core, bool))
    requires CoreOk(c)
    ensures Outcome(c, r)
    decreases Fuel(depth), 3, 1
  {
    if AnyLeaveBlocks(BeforeLeaveHooks(env.caps, g), ctx) then Refusal(c, Some(BeforeLeaveBlocked))
    else AfterSyncLeaveHooks(env, g, c, request, ctx, resolved, depth)
  }

  /** Once no synchronous before-leave hook blocks: the asynchronous hooks, if any, then the route guards. */
  function AfterSyncLeaveHooks(env: Env, g: GuardLists, c: Core, request: NavRequest, ctx: NavContext,
                               resolved: Option<ResolvedPathIntent>, depth: nat): (r: (Core, bool))
    requires CoreOk(c)
    ensures Outcome(c, r)
    decreases Fuel(depth), 3, 0
  {
    if HasAsyncLeaveHooks(env.caps, g) then LeaveAsync(env, g, c, request, ctx, resolved, 0, depth)
    else GuardsPhase(env, g, c, request, ctx, resolved, depth)
  }

  /** `run_before_leave_async` from hook `idx`: when every hook has allowed, the route guards decide. */
  function LeaveAsync(env: Env, g: GuardLists, c: Core, request: NavRequest, ctx: NavContext,
                      resolved: Option<ResolvedPathIntent>, idx: nat, depth: nat): (r: (Core, bool))
    requires CoreOk(c)
    ensures Outcome(c, r)
    decreases Fuel(depth), 2, if idx <= |g.leaveHooksAsync| then 2 * (|g.leaveHooksAsync| - idx) + 1 else 0
  {
    if idx >= |g.leaveHooksAsync| then GuardsPhase(env, g, c, request, ctx, resolved, depth)
    else LeaveHookAnswer(env, g, c, request, ctx, resolved, idx, depth, g.leaveHooksAsync[idx](ctx))
  }

  /**
   * The answer of asynchronous before-leave hook `idx`: an allow passes to
   * the next hook, a block refuses, and an answer that comes later suspends
   * the navigation at this hook.
   */
  function LeaveHookAnswer(env: Env, g: GuardLists, c: Core, request: NavRequest, ctx: NavContext,
                           resolved: Option<ResolvedPathIntent>, idx: nat, depth: nat, answer: AsyncDecision<LeaveDecision>): (r: (Core, bool))
    requires CoreOk(c) && idx < |g.leaveHooksAsync|
    ensures Outcome(c, r)
    decreases Fuel(depth), 2, 2 * (|g.leaveHooksAsync| - idx)
  {
    match answer
    case Immediate(LeaveAllow) => LeaveAsync(env, g, c, request, ctx, resolved, idx + 1, depth)
    case Immediate(LeaveBlock) => Refusal(c, Some(BeforeLeaveBlocked))
    case Pending => Suspension(c, PendingNavigation(request, ctx, resolved, BeforeLeaveAsync, idx, depth))
  }

  /**
   * `apply_guards_and_maybe_commit`: the first synchronous guard that does
   * not allow decides; a redirect re-resolves the context and starts the
   * guards over, without the before-leave hooks.
   */
  function GuardsPhase(env: Env, g: GuardLists, c: Core, request: NavRequest, ctx: NavContext,
                       resolved: Option<ResolvedPathIntent>, depth: nat): (r: (Core, bool))
    requires CoreOk(c)
    ensures Outcome(c, r)
    decreases Fuel(depth), 1, 3
  {
    var guards := RouteGuards(env.caps, g);
    match FirstObjection(guards, ctx)
    case Some(k) => Objected(env, g, c, guards[k](ctx), depth)
    case None => GuardsAllow(env, g, c, request, ctx, resolved, depth)
  }

  /**
   * The first synchronous guard that does not allow: a block refuses; a
   * redirect past the limit refuses with `RedirectLimit`; any other redirect
   * re-resolves the context, giving up without a reason when it does not
   * resolve, and runs the guards again one redirect deeper.
   */
  function Objected(env: Env, g: GuardLists, c: Core, decision: GuardDecision, depth: nat): (r: (Core, bool))
    requires CoreOk(c)
    ensures Outcome(c, r)
    decreases Fuel(depth), 1, 1
  {
    match decision
    case Redirect(redirect) =>
      if depth >= MaxRedirects then Refusal(c, Some(RedirectLimit))
      else Redirected(env, g, c, RedirectToRequest(redirect), depth)
    case _ => Refusal(c, Some(GuardBlocked))
  }

  /**
   * A redirect within the limit: the new request is resolved and, when it
   * resolves, the guards run again one redirect deeper; a request that does
   * not resolve ends the navigation without a reason.
   */
  function Redirected(env: Env, g: GuardLists, c: Core, next: NavRequest, depth: nat): (r: (Core, bool))
    requires CoreOk(c) && depth < MaxRedirects
    ensures Outcome(c, r)
    decreases Fuel(depth), 1, 0
  {
    match ResolveNavContext(env, c.history, next)
    case None => (c, false)
    case Some((ctx2, _, resolved2)) => GuardsPhase(env, g, c, next, ctx2, resolved2, depth + 1)
  }

  /** Once every synchronous guard allows: the asynchronous guards decide, or the request is applied. */
  function GuardsAllow(env: Env, g: GuardLists, c: Core, request: NavRequest, ctx: NavContext,
                       resolved: Option<ResolvedPathIntent>, depth: nat): (r: (Core, bool))
    requires CoreOk(c)
    ensures Outcome(c, r)
    decreases Fuel(depth), 1, 2
  {
    if HasAsyncRouteGuards(env.caps, g) then GuardAsync(env, g, c, request, ctx, resolved, 0, depth)
    else
      CommitRequestCommits(env, c, request, resolved);
      CommitRequest(env, c, request, resolved)
  }

  /** When no synchronous guard objects, the guard phase is the phase after them. */
  lemma UnobjectedPhase(env: Env, g: GuardLists, c: Core, request: NavRequest, ctx: NavContext,
                        resolved: Option<ResolvedPathIntent>, depth: nat)
    requires CoreOk(c) && FirstObjection(RouteGuards(env.caps, g), ctx).None?
    ensures GuardsPhase(env, g, c, request, ctx, resolved, depth) == GuardsAllow(env, g, c, request, ctx, resolved, depth)
  {
  }

  /** `run_guard_async` from guard `idx`: when every guard has allowed, the request is applied. */
  function GuardAsync(env: Env, g: GuardLists, c: Core, request: NavRequest, ctx: NavContext,
                      resolved: Option<ResolvedPathIntent>, idx: nat, depth: nat): (r: (Core, bool))
    requires CoreOk(c)
    ensures Outcome(c, r)
    decreases Fuel(depth), 0, if idx <= |g.routeGuardsAsync| then 2 * (|g.routeGuardsAsync| - idx) + 1 else 0
  {
    if idx >= |g.routeGuardsAsync| then
      CommitRequestCommits(env, c, request, resolved);
      CommitRequest(env, c, request, resolved)
    else AsyncGuardAnswer(env, g, c, request, ctx, resolved, idx, depth, g.routeGuardsAsync[idx](ctx))
  }

  /**
   * The answer of asynchronous guard `idx`: an allow passes to the next
   * guard, a block refuses, a redirect within the limit starts a new request
   * one redirect deeper that skips the before-leave hooks, and an answer
   * that comes later suspends the navigation at this guard.
   */
  function AsyncGuardAnswer(env: Env, g: GuardLists, c: Core, request: NavRequest, ctx: NavContext,
                            resolved: Option<ResolvedPathIntent>, idx: nat, depth: nat, answer: AsyncDecision<GuardDecision>): (r: (Core, bool))
    requires CoreOk(c) && idx < |g.routeGuardsAsync|
    ensures Outcome(c, r)
    decreases Fuel(depth), 0, 2 * (|g.routeGuardsAsync| - idx)
  {
    match answer
    case Immediate(Allow) => GuardAsync(env, g, c, request, ctx, resolved, idx + 1, depth)
    case Immediate(Block) => Refusal(c, Some(GuardBlocked))
    case Immediate(Redirect(redirect)) => AsyncRedirect(env, g, c, redirect, depth)
    case Pending => Suspension(c, PendingNavigation(request, ctx, resolved, PendingPhase.GuardAsync, idx, depth))
  }

  /**
   * A redirect from an asynchronous guard: refused with `RedirectLimit` at
   * the limit, otherwise a new request one redirect deeper that skips the
   * before-leave hooks.
   */
  function AsyncRedirect(env: Env, g: GuardLists, c: Core, redirect: RouterRedirect, depth: nat): (r: (Core, bool))
    requires CoreOk(c)
    ensures Outcome(c, r)
    decreases Fuel(depth), 0, 0
  {
    if depth >= MaxRedirects then Refusal(c, Some(RedirectLimit))
    else RequestNav(env, g, c, RedirectToRequest(redirect), true, depth + 1)
  }

  /**
   * `poll_pending_navigation` with what the receiver delivered: nothing yet
   * keeps the navigation waiting, a closed channel drops it, and an answer
   * takes it out and resumes, blocks or redirects. An answer of the other
   * phase's kind leaves it in place.
   */
  function Poll(env: Env, g: GuardLists, c: Core, received: Received): (r: Core)
    requires CoreOk(c)
    ensures CoreOk(r) && r.guardBypass == c.guardBypass
    ensures c.pending.None? ==> r == c
    ensures received.NothingYet? ==> r == c
    ensures c.pending.Some? && received.ChannelClosed? ==> r == c.(pending := None)
  {
    match c.pending
    case None => c
    case Some(p) =>
      match received
      case NothingYet => c
      case ChannelClosed => c.(pending := None)
      case LeaveAnswer(d) =>
        if p.phase.BeforeLeaveAsync? then ResumeLeave(env, g, c.(pending := None), p, d) else c
      case GuardAnswer(d) =>
        if p.phase.GuardAsync? then ResumeGuard(env, g, c.(pending := None), p, d) else c
  }

  /** A before-leave answer to a suspended navigation: anything but an allow refuses, an allow resumes at the next hook. */
  function ResumeLeave(env: Env, g: GuardLists, c: Core, p: PendingNavigation, d: LeaveDecision): (r: Core)
    requires CoreOk(c)
    ensures CoreOk(r) && r.guardBypass == c.guardBypass
  {
    if d != LeaveAllow then c.(lastBlocked := Some(BeforeLeaveBlocked))
    else LeaveAsync(env, g, c, p.request, p.context, p.resolvedPath, p.asyncIndex + 1, p.redirectDepth).0
  }

  /** A route guard's answer to a suspended navigation: an allow resumes at the next guard, a block refuses, a redirect redirects. */
  function ResumeGuard(env: Env, g: GuardLists, c: Core, p: PendingNavigation, d: GuardDecision): (r: Core)
    requires CoreOk(c)
    ensures CoreOk(r) && r.guardBypass == c.guardBypass
  {
    match d
    case Allow => GuardAsync(env, g, c, p.request, p.context, p.resolvedPath, p.asyncIndex + 1, p.redirectDepth).0
    case Block => c.(lastBlocked := Some(GuardBlocked))
    case Redirect(redirect) => AsyncRedirect(env, g, c, redirect, p.redirectDepth).0
  }

  /* ----------------------------------------------------------------- lemmas */

  /** Hooks that allow at once are passed: resuming before them is resuming after them. */
  lemma {:induction false} LeaveAsyncSkips(env: Env, g: GuardLists, c: Core, request: NavRequest, ctx: NavContext,
                                           resolved: Option<ResolvedPathIntent>, start: nat, idx: nat, depth: nat)
    requires CoreOk(c)
    requires start <= idx && (start == idx || idx <= |g.leaveHooksAsync|)
    requires forall j :: start <= j < idx ==> g.leaveHooksAsync[j](ctx) == Immediate(LeaveAllow)
    ensures LeaveAsync(env, g, c, request, ctx, resolved, start, depth) == LeaveAsync(env, g, c, request, ctx, resolved, idx, depth)
    decreases idx - start
  {
    if start < idx {
      LeaveAsyncAllowStep(env, g, c, request, ctx, resolved, start, depth);
      LeaveAsyncSkips(env, g, c, request, ctx, resolved, start + 1, idx, depth);
    }
  }

  /** One hook that allows at once hands the request to the next. */
  lemma LeaveAsyncAllowStep(env: Env, g: GuardLists, c: Core, request: NavRequest, ctx: NavContext,
                            resolved: Option<ResolvedPathIntent>, idx: nat, depth: nat)
    requires CoreOk(c) && idx < |g.leaveHooksAsync| && g.leaveHooksAsync[idx](ctx) == Immediate(LeaveAllow)
    ensures LeaveAsync(env, g, c, request, ctx, resolved, idx, depth) == LeaveAsync(env, g, c, request, ctx, resolved, idx + 1, depth)
  {
    assert LeaveAsync(env, g, c, request, ctx, resolved, idx, depth) ==
           LeaveHookAnswer(env, g, c, request, ctx, resolved, idx, depth, Immediate(LeaveAllow));
  }

  /** Guards that allow at once are passed: resuming before them is resuming after them. */
  lemma {:induction false} GuardAsyncSkips(env: Env, g: GuardLists, c: Core, request: NavRequest, ctx: NavContext,
                                           resolved: Option<ResolvedPathIntent>, start: nat, idx: nat, depth: nat)
    requires CoreOk(c)
    requires start <= idx && (start == idx || idx <= |g.routeGuardsAsync|)
    requires forall j :: start <= j < idx ==> g.routeGuardsAsync[j](ctx) == Immediate(Allow)
    ensures GuardAsync(env, g, c, request, ctx, resolved, start, depth) == GuardAsync(env, g, c, request, ctx, resolved, idx, depth)
    decreases idx - start
  {
    if start < idx {
      GuardAsyncAllowStep(env, g, c, request, ctx, resolved, start, depth);
      GuardAsyncSkips(env, g, c, request, ctx, resolved, start + 1, idx, depth);
    }
  }

  /** One guard that allows at once hands the request to the next. */
  lemma GuardAsyncAllowStep(env: Env, g: GuardLists, c: Core, request: NavRequest, ctx: NavContext,
                            resolved: Option<ResolvedPathIntent>, idx: nat, depth: nat)
    requires CoreOk(c) && idx < |g.routeGuardsAsync| && g.routeGuardsAsync[idx](ctx) == Immediate(Allow)
    ensures GuardAsync(env, g, c, request, ctx, resolved, idx, depth) == GuardAsync(env, g, c, request, ctx, resolved, idx + 1, depth)
  {
    assert GuardAsync(env, g, c, request, ctx, resolved, idx, depth) ==
           AsyncGuardAnswer(env, g, c, request, ctx, resolved, idx, depth, Immediate(Allow));
  }

  /** While a navigation is suspended, any other request is refused with `NoHistory` and nothing else changes. */
  lemma PendingRefusesRequests(env: Env, g: GuardLists, c: Core, request: NavRequest, skip: bool, depth: nat)
    requires CoreOk(c) && !c.guardBypass && c.pending.Some?
    ensures RequestNav(env, g, c, request, skip, depth) == (c.(lastBlocked := Some(NoHistory)), false)
  {
  }

  /** A request that resolves to nothing is refused: history requests with `NoHistory`, the others with `RouteMissing`. */
  lemma UnresolvedRefused(env: Env, g: GuardLists, c: Core, request: NavRequest, skip: bool, depth: nat)
    requires CoreOk(c) && !c.guardBypass && c.pending.None?
    requires Preview(env, c.history, request).None?
    ensures var r := RequestNav(env, g, c, request, skip, depth);
      !r.1 && r.0 == c.(lastBlocked := r.0.lastBlocked) &&
      (r.0.lastBlocked == Some(NoHistory) <==> IsHistoryRequest(request)) &&
      (r.0.lastBlocked == Some(RouteMissing) <==> !IsHistoryRequest(request))
  {
  }

  /** With guards disabled in both modes there is nothing to evaluate, whatever has been registered. */
  lemma GuardsOffEvaluateNothing(caps: Capabilities, g: GuardLists)
    requires !caps.guardsSync && !caps.guardsAsync
    ensures NothingToEvaluate(caps, g)
  {
  }

  /** With nothing to evaluate, a resolvable request commits at once with the intent resolved for its context. */
  lemma NothingToEvaluateCommits(env: Env, g: GuardLists, c: Core, request: NavRequest, depth: nat)
    requires CoreOk(c) && !c.guardBypass && c.pending.None?
    requires NothingToEvaluate(env.caps, g)
    requires ResolveNavContext(env, c.history, request).Some?
    ensures RequestNav(env, g, c, request, false, depth) ==
            CommitRequest(env, c, request, ResolveNavContext(env, c.history, request).value.2)
  {
  }

  /** The synchronous before-leave hooks are not consulted when the request stays on the same route id. */
  lemma StayingSkipsLeaveHooks(env: Env, g: GuardLists, c: Core, request: NavRequest, depth: nat)
    requires CoreOk(c) && !c.guardBypass && c.pending.None?
    requires !NothingToEvaluate(env.caps, g)
    requires ResolveNavContext(env, c.history, request).Some?
    requires CurrentOf(c.history).Some? && CurrentOf(c.history).value.id == Preview(env, c.history, request).value.0.id
    ensures var (ctx, _, resolved) := ResolveNavContext(env, c.history, request).value;
      RequestNav(env, g, c, request, false, depth) == GuardsPhase(env, g, c, request, ctx, resolved, depth)
  {
    var (ctx, leaving, resolved) := ResolveNavContext(env, c.history, request).value;
    assert RequestNav(env, g, c, request, false, depth) == HooksAndGuards(env, g, c, request, ctx, leaving, resolved, false, depth);
  }

  /** When the request leaves the current route, one blocking synchronous hook refuses it with `BeforeLeaveBlocked`. */
  lemma LeaveHookBlocks(env: Env, g: GuardLists, c: Core, request: NavRequest, depth: nat, i: nat)
    requires CoreOk(c) && !c.guardBypass && c.pending.None? && env.caps.guardsSync
    requires ResolveNavContext(env, c.history, request).Some?
    requires ResolveNavContext(env, c.history, request).value.1
    requires i < |g.leaveHooks| && g.leaveHooks[i](ResolveNavContext(env, c.history, request).value.0) == LeaveBlock
    ensures RequestNav(env, g, c, request, false, depth) == (c.(lastBlocked := Some(BeforeLeaveBlocked)), false)
  {
    var (ctx, leaving, resolved) := ResolveNavContext(env, c.history, request).value;
    assert BeforeLeaveHooks(env.caps, g)[i](ctx) == LeaveBlock;
    assert RequestNav(env, g, c, request, false, depth) == HooksAndGuards(env, g, c, request, ctx, leaving, resolved, false, depth);
    assert HooksAndGuards(env, g, c, request, ctx, leaving, resolved, false, depth) == LeaveHooks(env, g, c, request, ctx, resolved, depth);
  }

  /**
   * A navigation to a route with a template is always resolvable, and its
   * context leads to the route itself.
   */
  lemma RouteRedirectResolves(env: Env, h: History, redirect: RouterRedirect)
    requires WellFormed(h) && redirect.target.ToRoute? && redirect.target.id in env.templates
    ensures ResolveNavContext(env, h, RedirectToRequest(redirect)).Some?
    ensures ResolveNavContext(env, h, RedirectToRequest(redirect)).value.0.to == Some(New(redirect.target.id))
  {
  }

  /**
   * A first synchronous guard that always redirects to a route with a
   * template makes the guard phase give up with `RedirectLimit` once the
   * depth reaches 8, whatever depth it starts from, and nothing else changes.
   */
  lemma {:induction false} RedirectLoopHitsLimit(env: Env, g: GuardLists, c: Core, request: NavRequest, ctx: NavContext,
                                                 resolved: Option<ResolvedPathIntent>, depth: nat, redirect: RouterRedirect)
    requires CoreOk(c)
    requires redirect.target.ToRoute? && redirect.target.id in env.templates
    requires |RouteGuards(env.caps, g)| > 0
    requires forall x :: RouteGuards(env.caps, g)[0](x) == Redirect(redirect)
    ensures GuardsPhase(env, g, c, request, ctx, resolved, depth) == (c.(lastBlocked := Some(RedirectLimit)), false)
    decreases Fuel(depth)
  {
    var guards := RouteGuards(env.caps, g);
    assert FirstObjection(guards, ctx) == Some(0);
    if depth < MaxRedirects {
      var next := RedirectToRequest(redirect);
      RouteRedirectResolves(env, c.history, redirect);
      var (ctx2, _, resolved2) := ResolveNavContext(env, c.history, next).value;
      assert GuardsPhase(env, g, c, request, ctx, resolved, depth) == Redirected(env, g, c, next, depth);
      RedirectLoopHitsLimit(env, g, c, next, ctx2, resolved2, depth + 1, redirect);
    } else {
      assert GuardsPhase(env, g, c, request, ctx, resolved, depth) == Objected(env, g, c, Redirect(redirect), depth);
    }
  }

  /**
   * A fresh request (depth 0, before-leave hooks not skipped) whose first
   * synchronous guard always redirects to a route with a template is refused
   * with `RedirectLimit`, after eight redirects, when no before-leave hook
   * intervenes.
   */
  lemma RedirectLoopRefused(env: Env, g: GuardLists, c: Core, request: NavRequest, redirect: RouterRedirect)
    requires CoreOk(c) && !c.guardBypass && c.pending.None?
    requires ResolveNavContext(env, c.history, request).Some?
    requires |BeforeLeaveHooks(env.caps, g)| == 0 && !HasAsyncLeaveHooks(env.caps, g)
    requires redirect.target.ToRoute? && redirect.target.id in env.templates
    requires |RouteGuards(env.caps, g)| > 0
    requires forall x :: RouteGuards(env.caps, g)[0](x) == Redirect(redirect)
    ensures RequestNav(env, g, c, request, false, 0) == (c.(lastBlocked := Some(RedirectLimit)), false)
  {
    var (ctx, leaving, resolved) := ResolveNavContext(env, c.history, request).value;
    assert !AnyLeaveBlocks(BeforeLeaveHooks(env.caps, g), ctx);
    RedirectLoopHitsLimit(env, g, c, request, ctx, resolved, 0, redirect);
  }

  /**
   * The context previews the commit: a request resolves exactly when
   * committing it (with the intent resolved on the way) succeeds, and the
   * context's destination is the route the commit makes current.
   */
  lemma ContextPredictsCommit(env: Env, c: Core, request: NavRequest)
    requires CoreOk(c)
    ensures var ctx := ResolveNavContext(env, c.history, request);
      var out := CommitRequest(env, c, request, if ctx.Some? then ctx.value.2 else None);
      (ctx.Some? <==> out.1) && (ctx.Some? ==> CurrentOf(out.0.history) == ctx.value.0.to)
  {
    var c1 := c.(guardBypass := true);
    if request.NavigateByPath? || request.ReplaceByPath? {
      PreviewPredictsPathCommit(env, c1, request);
    } else if request.Back? || request.Forward? || request.Pop? || request.PopTo? || request.PopToRoot? {
      PreviewPredictsHistoryCommit(env, c1, request);
    } else {
      PreviewPredictsRouteCommit(env, c1, request);
    }
  }

  /** For a path request, the preview names the route the commit makes current. */
  lemma PreviewPredictsPathCommit(env: Env, c: Core, request: NavRequest)
    requires CoreOk(c) && (request.NavigateByPath? || request.ReplaceByPath?)
    ensures var pre := Preview(env, c.history, request);
      var out := CommitOperation(env, c, request, if pre.Some? then pre.value.1 else None);
      (pre.Some? <==> out.1) && (pre.Some? ==> CurrentOf(out.0.history) == Some(pre.value.0))
  {
  }

  /** For a history move, the preview names the route the commit makes current. */
  lemma PreviewPredictsHistoryCommit(env: Env, c: Core, request: NavRequest)
    requires CoreOk(c) && (request.Back? || request.Forward? || request.Pop? || request.PopTo? || request.PopToRoot?)
    ensures var pre := Preview(env, c.history, request);
      var out := CommitOperation(env, c, request, if pre.Some? then pre.value.1 else None);
      (pre.Some? <==> out.1) && (pre.Some? ==> CurrentOf(out.0.history) == Some(pre.value.0))
  {
  }

  /** For navigating, replacing, resetting or setting the stack, the preview names the route the commit makes current. */
  lemma PreviewPredictsRouteCommit(env: Env, c: Core, request: NavRequest)
    requires CoreOk(c) && (request.Navigate? || request.Replace? || request.Reset? || request.SetStack?)
    ensures var pre := Preview(env, c.history, request);
      var out := CommitOperation(env, c, request, if pre.Some? then pre.value.1 else None);
      (pre.Some? <==> out.1) && (pre.Some? ==> CurrentOf(out.0.history) == Some(pre.value.0))
  {
  }

  /** Polling a suspended navigation whose answer is "allow" resumes its phase at the next hook or guard. */
  lemma PollAllowResumes(env: Env, g: GuardLists, c: Core)
    requires CoreOk(c) && c.pending.Some?
    ensures var p := c.pending.value;
      var c0 := c.(pending := None);
      (p.phase.BeforeLeaveAsync? ==>
         Poll(env, g, c, LeaveAnswer(LeaveAllow)) == LeaveAsync(env, g, c0, p.request, p.context, p.resolvedPath, p.asyncIndex + 1, p.redirectDepth).0) &&
      (p.phase.GuardAsync? ==>
         Poll(env, g, c, GuardAnswer(Allow)) == GuardAsync(env, g, c0, p.request, p.context, p.resolvedPath, p.asyncIndex + 1, p.redirectDepth).0)
  {
  }

  /** A blocking answer drops the suspended navigation and records the phase's reason. */
  lemma PollBlockRefuses(env: Env, g: GuardLists, c: Core)
    requires CoreOk(c) && c.pending.Some?
    ensures c.pending.value.phase.BeforeLeaveAsync? ==>
      Poll(env, g, c, LeaveAnswer(LeaveBlock)) == c.(pending := None, lastBlocked := Some(BeforeLeaveBlocked))
    ensures c.pending.value.phase.GuardAsync? ==>
      Poll(env, g, c, GuardAnswer(Block)) == c.(pending := None, lastBlocked := Some(GuardBlocked))
  {
  }
}
