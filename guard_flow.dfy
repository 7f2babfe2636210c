/**
 * The guard pipeline of the router widget
 * (`crates/makepad-router-widgets/src/widget/guard_flow.rs`) as methods on
 * the widget. Each method is proved to leave the widget in the state, and
 * to return the answer, that the `GuardSpec` function of the same stage
 * describes; the properties of the pipeline are proved about those
 * functions.
 *
 * The four stages call one another: a redirect from an asynchronous guard
 * starts a new request one redirect deeper, so every call inside the
 * pipeline decreases the redirects still allowed, or keeps them and moves to
 * a later stage.
 */
module GuardFlow {
  import opened Wrappers
  import opened Ids
  import opened Routes
  import opened Navigation
  import opened Routers
  import opened WidgetTypes
  import opened CommitSpec
  import opened GuardSpec
  import opened Widgets
  import PathNav
  import Commits

  /** Record why a request is refused; nothing else changes. */
  method Refuse(w: RouterWidget, reason: BlockReason)
    requires w.Valid()
    modifies w
    ensures w.Valid() && Keeps(w)
    ensures w.Core() == old(w.Core()).(lastBlocked := Some(reason))
  {
    w.lastBlockedReason := Some(reason);
  }

  /** Store a suspended navigation; nothing else changes. */
  method Suspend(w: RouterWidget, pending: Option<PendingNavigation>)
    requires w.Valid()
    modifies w
    ensures w.Valid() && Keeps(w)
    ensures w.Core() == old(w.Core()).(pending := pending)
  {
    w.pendingNavigation := pending;
  }

  /** The loop over the synchronous before-leave hooks: whether one of them blocks. */
  method LeaveHooksBlock(hooks: seq<LeaveHook>, ctx: NavContext) returns (blocked: bool)
    ensures blocked <==> AnyLeaveBlocks(hooks, ctx)
  {
    for i := 0 to |hooks|
      invariant forall j :: 0 <= j < i ==> hooks[j](ctx) != LeaveBlock
    {
      if hooks[i](ctx) == LeaveBlock {
        return true;
      }
    }
    blocked := false;
  }

  /** The loop over the synchronous route guards: the first one that does not allow. */
  method FindObjection(guards: seq<SyncGuard>, ctx: NavContext) returns (k: Option<nat>)
    ensures k == FirstObjection(guards, ctx)
  {
    for i := 0 to |guards|
      invariant forall j :: 0 <= j < i ==> guards[j](ctx).Allow?
    {
      if !guards[i](ctx).Allow? {
        var first := FirstObjection(guards, ctx);
        assert first.Some? && first.value == i;
        return Some(i);
      }
    }
    k := None;
  }

  /** The operations that move within the history. */
  method ApplyHistoryOperation(w: RouterWidget, request: NavRequest) returns (ok: bool)
    requires w.Valid()
    requires request.Back? || request.Forward? || request.Pop? || request.PopTo? || request.PopToRoot?
    modifies w, w.router.history
    ensures w.Valid() && Keeps(w)
    ensures (w.Core(), ok) == CommitOperation(old(w.Env()), old(w.Core()), request, None)
  {
    match request {
      case Back => ok := Commits.Back(w);
      case Forward => ok := Commits.Forward(w);
      case Pop => ok := Commits.Pop(w);
      case PopTo(id) => ok := Commits.PopTo(w, id);
      case PopToRoot => ok := Commits.PopToRoot(w);
    }
  }

  /** The operations that name their destination. */
  method ApplyRouteOperation(w: RouterWidget, request: NavRequest, resolved: Option<ResolvedPathIntent>) returns (ok: bool)
    requires w.Valid()
    requires !(request.Back? || request.Forward? || request.Pop? || request.PopTo? || request.PopToRoot?)
    modifies w, w.router.history, w.caches
    ensures w.Valid() && Keeps(w)
    ensures (w.Core(), ok) == CommitOperation(old(w.Env()), old(w.Core()), request, resolved)
  {
    match request {
      case Navigate(id) => ok := Commits.Navigate(w, id);
      case Replace(id) => ok := Commits.Replace(w, id);
      case NavigateByPath(path) =>
        if resolved.Some? {
          ok := PathNav.ApplyResolvedPathIntent(w, resolved.value);
        } else {
          ok := PathNav.NavigateByPathInternal(w, path, true);
        }
      case ReplaceByPath(path, clearExtras) =>
        if resolved.Some? {
          ok := PathNav.ApplyResolvedPathIntent(w, resolved.value);
        } else {
          ok := PathNav.ReplaceByPathInternal(w, path, clearExtras);
        }
      case Reset(route) => ok := Commits.Reset(w, route);
      case SetStack(stack) => ok := Commits.SetStack(w, stack);
    }
  }

  /** The `while` loop of `run_before_leave_async`: pass the hooks that allow at once, from `start`. */
  method SkipAllowingLeaveHooks(hooks: seq<AsyncLeaveHook>, ctx: NavContext, start: nat) returns (idx: nat)
    ensures start <= idx && (start == idx || idx <= |hooks|)
    ensures forall j :: start <= j < idx ==> hooks[j](ctx) == Immediate(LeaveAllow)
    ensures idx < |hooks| ==> hooks[idx](ctx) != Immediate(LeaveAllow)
  {
    idx := start;
    while idx < |hooks| && hooks[idx](ctx) == Immediate(LeaveAllow)
      invariant start <= idx && (start == idx || idx <= |hooks|)
      invariant forall j :: start <= j < idx ==> hooks[j](ctx) == Immediate(LeaveAllow)
      decreases |hooks| - idx
    {
      idx := idx + 1;
    }
  }

  /** The `while` loop of `run_guard_async`: pass the guards that allow at once, from `start`. */
  method SkipAllowingGuards(guards: seq<AsyncGuard>, ctx: NavContext, start: nat) returns (idx: nat)
    ensures start <= idx && (start == idx || idx <= |guards|)
    ensures forall j :: start <= j < idx ==> guards[j](ctx) == Immediate(Allow)
    ensures idx < |guards| ==> guards[idx](ctx) != Immediate(Allow)
  {
    idx := start;
    while idx < |guards| && guards[idx](ctx) == Immediate(Allow)
      invariant start <= idx && (start == idx || idx <= |guards|)
      invariant forall j :: start <= j < idx ==> guards[j](ctx) == Immediate(Allow)
      decreases |guards| - idx
    {
      idx := idx + 1;
    }
  }

  /**
   * `apply_request_bypassing_guards_resolved`: run the operation with the
   * bypass flag set, applying the intent already resolved for a path
   * request, then put the flag back as it was.
   */
  method ApplyRequestBypassingGuardsResolved(w: RouterWidget, request: NavRequest, resolved: Option<ResolvedPathIntent>) returns (ok: bool)
    requires w.Valid()
    modifies w, w.router.history, w.caches
    ensures w.Valid() && Keeps(w)
    ensures (w.Core(), ok) == CommitRequest(old(w.Env()), old(w.Core()), request, resolved)
  {
    var prev := w.guardBypass;
    SetGuardBypass(w, true);
    ok := ApplyOperation(w, request, resolved);
    SetGuardBypass(w, prev);
  }

  /** Set or clear the flag that lets a navigation skip the guards. */
  method SetGuardBypass(w: RouterWidget, bypass: bool)
    requires w.Valid()
    modifies w
    ensures w.Valid() && Keeps(w)
    ensures w.Core() == old(w.Core()).(guardBypass := bypass)
  {
    w.guardBypass := bypass;
  }

  /** The operation a request names, with an intent already resolved for a path request. */
  method ApplyOperation(w: RouterWidget, request: NavRequest, resolved: Option<ResolvedPathIntent>) returns (ok: bool)
    requires w.Valid()
    modifies w, w.router.history, w.caches
    ensures w.Valid() && Keeps(w)
    ensures (w.Core(), ok) == CommitOperation(old(w.Env()), old(w.Core()), request, resolved)
  {
    if request.Back? || request.Forward? || request.Pop? || request.PopTo? || request.PopToRoot? {
      ok := ApplyHistoryOperation(w, request);
    } else {
      ok := ApplyRouteOperation(w, request, resolved);
    }
  }

  /** `apply_request_bypassing_guards`: the same with no intent resolved in advance. */
  method ApplyRequestBypassingGuards(w: RouterWidget, request: NavRequest) returns (ok: bool)
    requires w.Valid()
    modifies w, w.router.history, w.caches
    ensures w.Valid() && Keeps(w)
    ensures (w.Core(), ok) == CommitRequest(old(w.Env()), old(w.Core()), request, None)
  {
    ok := ApplyRequestBypassingGuardsResolved(w, request, None);
  }

  /**
   * The route a request would make current, and the intent resolved for a
   * path request, read off the widget without changing the history. A path
   * request is resolved through the caches, which is the only thing this
   * changes.
   */
  method PreviewRequest(w: RouterWidget, request: NavRequest) returns (p: Option<(Route, Option<ResolvedPathIntent>)>)
    requires w.Valid()
    modifies w.caches
    ensures w.Valid()
    ensures p == Preview(w.Env(), w.Core().history, request)
  {
    if !(request.NavigateByPath? || request.ReplaceByPath?) {
      p := PreviewRouteRequest(w, request);
      return;
    }
    match request {
      case NavigateByPath(path) =>
        p := PreviewPath(w, path, false, true);
      case ReplaceByPath(path, clearExtras) =>
        p := PreviewPath(w, path, true, clearExtras);
    }
  }

  /** The preview of a path request: the route of the intent the path resolves to. */
  method PreviewPath(w: RouterWidget, path: string, replace: bool, clearExtras: bool) returns (p: Option<(Route, Option<ResolvedPathIntent>)>)
    requires w.Valid()
    modifies w.caches
    ensures w.Valid()
    ensures p == PathPreview(w.Env(), w.Core().history, path, replace, clearExtras)
  {
    var i := PathNav.ResolvePathIntent(w, path, replace, clearExtras);
    p := if i.Some? then Some((i.value.route, i)) else None;
  }

  /** The preview of a request that names its target or moves in the history. */
  method PreviewRouteRequest(w: RouterWidget, request: NavRequest) returns (p: Option<(Route, Option<ResolvedPathIntent>)>)
    requires w.Valid() && !request.NavigateByPath? && !request.ReplaceByPath?
    ensures p == Preview(w.Env(), w.Core().history, request)
  {
    var h := w.router.history.Model();
    var landing: Option<Route>;
    match request {
      case Navigate(id) =>
        return if id in w.templates then Some((New(id), None)) else None;
      case Replace(id) =>
        return if id in w.templates then Some((New(id), None)) else None;
      case Reset(route) =>
        return if route.id in w.templates then Some((route, None)) else None;
      case SetStack(stack) =>
        var kept := Commits.FilterTemplated(stack, w.templates);
        return if |kept| == 0 then None else Some((kept[|kept| - 1], None));
      case Back => landing := Landing(AfterBack(h));
      case Forward => landing := Landing(AfterForward(h));
      case Pop => landing := Landing(AfterPop(h));
      case PopTo(id) => landing := Landing(AfterPopTo(h, id));
      case PopToRoot => landing := Landing(AfterPopToRoot(h));
    }
    p := if landing.Some? then Some((landing.value, None)) else None;
  }

  /**
   * `resolve_nav_context`: the context shown to hooks and guards, whether
   * the request leaves the current route, and the intent resolved for a
   * path request.
   */
  method ResolveNavContext(w: RouterWidget, request: NavRequest) returns (r: Option<(NavContext, bool, Option<ResolvedPathIntent>)>)
    requires w.Valid()
    modifies w.caches
    ensures w.Valid()
    ensures r == GuardSpec.ResolveNavContext(w.Env(), w.Core().history, request)
  {
    var from := w.router.CurrentRoute();
    var preview := PreviewRequest(w, request);
    if preview.None? {
      return None;
    }
    var (to, resolved) := preview.value;
    var toPath := if resolved.Some? then Some(resolved.value.path) else None;
    var leaving := from.Some? && from.value.id != to.id;
    r := Some((NavContext(RequestKind(request), from, Some(to), toPath), leaving, resolved));
  }

  /** `request_navigation`: a fresh request, before-leave hooks included, no redirect taken yet. */
  method RequestNavigation(w: RouterWidget, request: NavRequest) returns (ok: bool)
    requires w.Valid()
    modifies w, w.router.history, w.caches
    ensures w.Valid() && Keeps(w)
    ensures (w.Core(), ok) == RequestNav(old(w.Env()), w.guards, old(w.Core()), request, false, 0)
  {
    ok := RequestNavigationInternal(w, request, false, 0);
  }

  /**
   * `request_navigation_internal`: with the bypass flag set the request is
   * applied at once; a suspended navigation refuses every other request;
   * an unresolvable request is refused with the reason its kind implies;
   * otherwise the hooks and guards decide.
   */
  method RequestNavigationInternal(w: RouterWidget, request: NavRequest, skip: bool, depth: nat) returns (ok: bool)
    requires w.Valid()
    modifies w, w.router.history, w.caches
    ensures w.Valid() && Keeps(w)
    ensures (w.Core(), ok) == RequestNav(old(w.Env()), w.guards, old(w.Core()), request, skip, depth)
    decreases Fuel(depth), 4, 2
  {
    if w.guardBypass {
      ok := ApplyRequestBypassingGuards(w, request);
    } else {
      ok := GuardedRequest(w, request, skip, depth);
    }
  }

  /** A request while guards are not bypassed: refused while a navigation is suspended. */
  method GuardedRequest(w: RouterWidget, request: NavRequest, skip: bool, depth: nat) returns (ok: bool)
    requires w.Valid() && !w.guardBypass
    modifies w, w.router.history, w.caches
    ensures w.Valid() && Keeps(w)
    ensures (w.Core(), ok) == RequestNav(old(w.Env()), w.guards, old(w.Core()), request, skip, depth)
    decreases Fuel(depth), 4, 1
  {
    if w.pendingNavigation.Some? {
      Refuse(w, NoHistory);
      ok := false;
    } else {
      ok := ResolveThenEvaluate(w, request, skip, depth);
    }
  }

  /** A request with nothing suspended: resolved to a context, then evaluated. */
  method ResolveThenEvaluate(w: RouterWidget, request: NavRequest, skip: bool, depth: nat) returns (ok: bool)
    requires w.Valid() && !w.guardBypass && w.pendingNavigation.None?
    modifies w, w.router.history, w.caches
    ensures w.Valid() && Keeps(w)
    ensures (w.Core(), ok) == RequestNav(old(w.Env()), w.guards, old(w.Core()), request, skip, depth)
    decreases Fuel(depth), 4, 0
  {
    ghost var env, core := w.Env(), w.Core();
    var resolvedContext := ResolveNavContext(w, request);
    assert w.Env() == env && w.Core() == core;
    if resolvedContext.None? {
      Refuse(w, InferResolutionBlockReason(request));
      return false;
    }
    var (ctx, leaving, resolved) := resolvedContext.value;
    ok := EvaluateRequest(w, request, ctx, leaving, resolved, skip, depth);
  }

  /** The rest of `request_navigation_internal`, once the request has resolved to a context. */
  method EvaluateRequest(w: RouterWidget, request: NavRequest, ctx: NavContext, leaving: bool, resolved: Option<ResolvedPathIntent>,
                         skip: bool, depth: nat) returns (ok: bool)
    requires w.Valid()
    modifies w, w.router.history, w.caches
    ensures w.Valid() && Keeps(w)
    ensures (w.Core(), ok) == Evaluate(old(w.Env()), w.guards, old(w.Core()), request, ctx, leaving, resolved, skip, depth)
    decreases Fuel(depth), 3, 2
  {
    if !skip && NothingToEvaluate(w.capabilities, w.guards) {
      ok := ApplyRequestBypassingGuardsResolved(w, request, resolved);
    } else {
      ok := EvaluateHooksAndGuards(w, request, ctx, leaving, resolved, skip, depth);
    }
  }

  /** A request with something to evaluate: the before-leave hooks when it leaves and they are not skipped, then the route guards. */
  method EvaluateHooksAndGuards(w: RouterWidget, request: NavRequest, ctx: NavContext, leaving: bool, resolved: Option<ResolvedPathIntent>,
                                skip: bool, depth: nat) returns (ok: bool)
    requires w.Valid()
    modifies w, w.router.history, w.caches
    ensures w.Valid() && Keeps(w)
    ensures (w.Core(), ok) == HooksAndGuards(old(w.Env()), w.guards, old(w.Core()), request, ctx, leaving, resolved, skip, depth)
    decreases Fuel(depth), 3, 1
  {
    if !skip && leaving {
      ok := LeaveThenGuards(w, request, ctx, resolved, depth);
    } else {
      ok := ApplyGuardsAndMaybeCommit(w, request, ctx, resolved, depth);
    }
  }

  /** The synchronous before-leave hooks of a request that leaves the current route: one that blocks refuses it. */
  method LeaveThenGuards(w: RouterWidget, request: NavRequest, ctx: NavContext, resolved: Option<ResolvedPathIntent>, depth: nat) returns (ok: bool)
    requires w.Valid()
    modifies w, w.router.history, w.caches
    ensures w.Valid() && Keeps(w)
    ensures (w.Core(), ok) == LeaveHooks(old(w.Env()), w.guards, old(w.Core()), request, ctx, resolved, depth)
    decreases Fuel(depth), 3, 0
  {
    var blocked := LeaveHooksBlock(BeforeLeaveHooks(w.capabilities, w.guards), ctx);
    if blocked {
      Refuse(w, BeforeLeaveBlocked);
      ok := false;
    } else {
      ok := AfterLeaveHooks(w, request, ctx, resolved, depth);
    }
  }

  /** Once no synchronous before-leave hook blocks: the asynchronous hooks, when there are any, then the route guards. */
  method AfterLeaveHooks(w: RouterWidget, request: NavRequest, ctx: NavContext, resolved: Option<ResolvedPathIntent>, depth: nat) returns (ok: bool)
    requires w.Valid()
    modifies w, w.router.history, w.caches
    ensures w.Valid() && Keeps(w)
    ensures (w.Core(), ok) == AfterSyncLeaveHooks(old(w.Env()), w.guards, old(w.Core()), request, ctx, resolved, depth)
    decreases Fuel(depth), 2, 3
  {
    if HasAsyncLeaveHooks(w.capabilities, w.guards) {
      ok := RunBeforeLeaveAsync(w, request, ctx, resolved, 0, depth);
    } else {
      ok := ApplyGuardsAndMaybeCommit(w, request, ctx, resolved, depth);
    }
  }

  /**
   * `run_before_leave_async` from hook `start`: allowing hooks are passed,
   * a blocking one refuses, one that answers later suspends the navigation
   * at its index; when all allow, the route guards decide.
   */
  method RunBeforeLeaveAsync(w: RouterWidget, request: NavRequest, ctx: NavContext, resolved: Option<ResolvedPathIntent>,
                             start: nat, depth: nat) returns (ok: bool)
    requires w.Valid()
    modifies w, w.router.history, w.caches
    ensures w.Valid() && Keeps(w)
    ensures (w.Core(), ok) == LeaveAsync(old(w.Env()), w.guards, old(w.Core()), request, ctx, resolved, start, depth)
    decreases Fuel(depth), 2, 2
  {
    var idx := SkipAllowingLeaveHooks(w.guards.leaveHooksAsync, ctx, start);
    LeaveAsyncSkips(w.Env(), w.guards, w.Core(), request, ctx, resolved, start, idx, depth);
    ok := LeaveAsyncFrom(w, request, ctx, resolved, idx, depth);
  }

  /** The asynchronous before-leave hooks from the first one that does not allow at once. */
  method LeaveAsyncFrom(w: RouterWidget, request: NavRequest, ctx: NavContext, resolved: Option<ResolvedPathIntent>,
                        idx: nat, depth: nat) returns (ok: bool)
    requires w.Valid()
    requires idx < |w.guards.leaveHooksAsync| ==> w.guards.leaveHooksAsync[idx](ctx) != Immediate(LeaveAllow)
    modifies w, w.router.history, w.caches
    ensures w.Valid() && Keeps(w)
    ensures (w.Core(), ok) == LeaveAsync(old(w.Env()), w.guards, old(w.Core()), request, ctx, resolved, idx, depth)
    decreases Fuel(depth), 2, 1
  {
    if idx >= |w.guards.leaveHooksAsync| {
      ok := ApplyGuardsAndMaybeCommit(w, request, ctx, resolved, depth);
    } else {
      ok := LeaveHookDecision(w, request, ctx, resolved, idx, depth, w.guards.leaveHooksAsync[idx](ctx));
    }
  }

  /** What an answer of asynchronous before-leave hook `idx` other than an immediate allow decides. */
  method LeaveHookDecision(w: RouterWidget, request: NavRequest, ctx: NavContext, resolved: Option<ResolvedPathIntent>,
                           idx: nat, depth: nat, answer: AsyncDecision<LeaveDecision>) returns (ok: bool)
    requires w.Valid() && idx < |w.guards.leaveHooksAsync| && answer != Immediate(LeaveAllow)
    modifies w
    ensures w.Valid() && Keeps(w)
    ensures (w.Core(), ok) == LeaveHookAnswer(old(w.Env()), w.guards, old(w.Core()), request, ctx, resolved, idx, depth, answer)
  {
    if answer.Pending? {
      Suspend(w, Some(PendingNavigation(request, ctx, resolved, BeforeLeaveAsync, idx, depth)));
      ok := true;
    } else {
      Refuse(w, BeforeLeaveBlocked);
      ok := false;
    }
  }

  /**
   * `apply_guards_and_maybe_commit`: the first synchronous guard that does
   * not allow decides. A redirect within the limit re-resolves the context
   * and runs the guards again one redirect deeper; a redirect that does not
   * resolve gives up without a reason. When every guard allows, the
   * asynchronous guards decide, or the request is applied.
   */
  method ApplyGuardsAndMaybeCommit(w: RouterWidget, request: NavRequest, ctx: NavContext, resolved: Option<ResolvedPathIntent>,
                                   depth: nat) returns (ok: bool)
    requires w.Valid()
    modifies w, w.router.history, w.caches
    ensures w.Valid() && Keeps(w)
    ensures (w.Core(), ok) == GuardsPhase(old(w.Env()), w.guards, old(w.Core()), request, ctx, resolved, depth)
    decreases Fuel(depth), 1, 2
  {
    var stop, reason, req, context, res, d := FollowRedirects(w, request, ctx, resolved, depth);
    if stop {
      Record(w, reason);
      return false;
    }
    ok := CommitAllowed(w, req, context, res, d);
  }

  /** Record the reason a request ends with, if it has one; nothing else changes. */
  method Record(w: RouterWidget, reason: Option<BlockReason>)
    requires w.Valid()
    modifies w
    ensures w.Valid() && Keeps(w)
    ensures w.Core() == old(w.Core()).(lastBlocked := if reason.Some? then reason else old(w.lastBlockedReason))
  {
    if reason.Some? {
      w.lastBlockedReason := reason;
    }
  }

  /**
   * The loop of `apply_guards_and_maybe_commit`, one round per call: while
   * some synchronous guard objects, follow its redirect. It stops when an
   * objection ends the request, with the reason to record, if any, or else
   * hands back the request and context on which every synchronous guard
   * allows. Only the caches change.
   */
  method FollowRedirects(w: RouterWidget, request: NavRequest, ctx: NavContext, resolved: Option<ResolvedPathIntent>, depth: nat)
    returns (stop: bool, reason: Option<BlockReason>, req: NavRequest, context: NavContext, res: Option<ResolvedPathIntent>, d: nat)
    requires w.Valid()
    modifies w.caches
    ensures w.Valid()
    ensures stop ==>
      GuardsPhase(w.Env(), w.guards, w.Core(), request, ctx, resolved, depth) ==
      Refusal(w.Core(), if reason.Some? then reason else w.lastBlockedReason)
    ensures !stop ==> Fuel(d) <= Fuel(depth)
    ensures !stop ==>
      GuardsPhase(w.Env(), w.guards, w.Core(), request, ctx, resolved, depth) == GuardsAllow(w.Env(), w.guards, w.Core(), req, context, res, d)
    decreases Fuel(depth)
  {
    var objection := FindObjection(RouteGuards(w.capabilities, w.guards), ctx);
    if objection.None? {
      UnobjectedPhase(w.Env(), w.guards, w.Core(), request, ctx, resolved, depth);
      return false, None, request, ctx, resolved, depth;
    }
    var next;
    reason, next := HandleObjection(w, request, ctx, resolved, depth, objection.value);
    if next.None? {
      return true, reason, request, ctx, resolved, depth;
    }
    stop, reason, req, context, res, d := FollowRedirects(w, next.value.0, next.value.1, next.value.2, depth + 1);
  }

  /**
   * One objection in `apply_guards_and_maybe_commit`, the first guard
   * (number `k`) that does not allow: either it ends the request, or it
   * gives the request and context to run the guards on next.
   */
  method HandleObjection(w: RouterWidget, request: NavRequest, ctx: NavContext, resolved: Option<ResolvedPathIntent>, depth: nat, k: nat)
    returns (reason: Option<BlockReason>, next: Option<(NavRequest, NavContext, Option<ResolvedPathIntent>)>)
    requires w.Valid() && FirstObjection(RouteGuards(w.capabilities, w.guards), ctx) == Some(k)
    modifies w.caches
    ensures w.Valid()
    ensures next.None? ==>
      GuardsPhase(w.Env(), w.guards, w.Core(), request, ctx, resolved, depth) ==
      Refusal(w.Core(), if reason.Some? then reason else w.lastBlockedReason)
    ensures next.Some? ==> depth < MaxRedirects
    ensures next.Some? ==>
      GuardsPhase(w.Env(), w.guards, w.Core(), request, ctx, resolved, depth) ==
      GuardsPhase(w.Env(), w.guards, w.Core(), next.value.0, next.value.1, next.value.2, depth + 1)
  {
    var decision := RouteGuards(w.capabilities, w.guards)[k](ctx);
    assert GuardsPhase(w.Env(), w.guards, w.Core(), request, ctx, resolved, depth) == Objected(w.Env(), w.guards, w.Core(), decision, depth);
    reason, next := Object(w, decision, depth);
  }

  /**
   * A guard's objection: a block or a redirect past the limit ends the
   * request with its reason, a redirect that does not resolve ends it with
   * none; any other redirect gives the request and context to run the
   * guards on next.
   */
  method Object(w: RouterWidget, decision: GuardDecision, depth: nat)
    returns (reason: Option<BlockReason>, next: Option<(NavRequest, NavContext, Option<ResolvedPathIntent>)>)
    requires w.Valid()
    modifies w.caches
    ensures w.Valid()
    ensures next.None? ==> Objected(w.Env(), w.guards, w.Core(), decision, depth) == Refusal(w.Core(), if reason.Some? then reason else w.lastBlockedReason)
    ensures next.Some? ==> depth < MaxRedirects
    ensures next.Some? ==>
      Objected(w.Env(), w.guards, w.Core(), decision, depth) ==
      GuardsPhase(w.Env(), w.guards, w.Core(), next.value.0, next.value.1, next.value.2, depth + 1)
  {
    if !decision.Redirect? {
      return Some(GuardBlocked), None;
    }
    if depth >= MaxRedirects {
      return Some(RedirectLimit), None;
    }
    var request := RedirectToRequest(decision.redirect);
    var resolvedContext := ResolveNavContext(w, request);
    if resolvedContext.None? {
      return None, None;
    }
    reason, next := None, Some((request, resolvedContext.value.0, resolvedContext.value.2));
  }

  /** The end of `apply_guards_and_maybe_commit` once every synchronous guard allows. */
  method CommitAllowed(w: RouterWidget, request: NavRequest, ctx: NavContext, resolved: Option<ResolvedPathIntent>,
                       depth: nat) returns (ok: bool)
    requires w.Valid()
    modifies w, w.router.history, w.caches
    ensures w.Valid() && Keeps(w)
    ensures (w.Core(), ok) == GuardsAllow(old(w.Env()), w.guards, old(w.Core()), request, ctx, resolved, depth)
    decreases Fuel(depth), 1, 0
  {
    if HasAsyncRouteGuards(w.capabilities, w.guards) {
      ok := RunGuardAsync(w, request, ctx, resolved, 0, depth);
    } else {
      ok := ApplyRequestBypassingGuardsResolved(w, request, resolved);
    }
  }

  /**
   * `run_guard_async` from guard `start`: allowing guards are passed, a
   * blocking one refuses, a redirect within the limit starts a new request
   * one redirect deeper that skips the before-leave hooks, and one that
   * answers later suspends the navigation at its index; when all allow,
   * the request is applied.
   */
  method RunGuardAsync(w: RouterWidget, request: NavRequest, ctx: NavContext, resolved: Option<ResolvedPathIntent>,
                       start: nat, depth: nat) returns (ok: bool)
    requires w.Valid()
    modifies w, w.router.history, w.caches
    ensures w.Valid() && Keeps(w)
    ensures (w.Core(), ok) == GuardSpec.GuardAsync(old(w.Env()), w.guards, old(w.Core()), request, ctx, resolved, start, depth)
    decreases Fuel(depth), 0, 3
  {
    var idx := SkipAllowingGuards(w.guards.routeGuardsAsync, ctx, start);
    GuardAsyncSkips(w.Env(), w.guards, w.Core(), request, ctx, resolved, start, idx, depth);
    ok := GuardAsyncFrom(w, request, ctx, resolved, idx, depth);
  }

  /** The asynchronous route guards from the first one that does not allow at once. */
  method GuardAsyncFrom(w: RouterWidget, request: NavRequest, ctx: NavContext, resolved: Option<ResolvedPathIntent>,
                        idx: nat, depth: nat) returns (ok: bool)
    requires w.Valid()
    requires idx < |w.guards.routeGuardsAsync| ==> w.guards.routeGuardsAsync[idx](ctx) != Immediate(Allow)
    modifies w, w.router.history, w.caches
    ensures w.Valid() && Keeps(w)
    ensures (w.Core(), ok) == GuardSpec.GuardAsync(old(w.Env()), w.guards, old(w.Core()), request, ctx, resolved, idx, depth)
    decreases Fuel(depth), 0, 2
  {
    if idx >= |w.guards.routeGuardsAsync| {
      ok := ApplyRequestBypassingGuardsResolved(w, request, resolved);
    } else {
      ok := GuardAsyncDecision(w, request, ctx, resolved, idx, depth, w.guards.routeGuardsAsync[idx](ctx));
    }
  }

  /** What an answer of asynchronous guard `idx` other than an immediate allow decides. */
  method GuardAsyncDecision(w: RouterWidget, request: NavRequest, ctx: NavContext, resolved: Option<ResolvedPathIntent>,
                            idx: nat, depth: nat, answer: AsyncDecision<GuardDecision>) returns (ok: bool)
    requires w.Valid() && idx < |w.guards.routeGuardsAsync| && answer != Immediate(Allow)
    modifies w, w.router.history, w.caches
    ensures w.Valid() && Keeps(w)
    ensures (w.Core(), ok) == AsyncGuardAnswer(old(w.Env()), w.guards, old(w.Core()), request, ctx, resolved, idx, depth, answer)
    decreases Fuel(depth), 0, 1
  {
    match answer {
      case Immediate(Block) =>
        Refuse(w, GuardBlocked);
        ok := false;
      case Immediate(Redirect(redirect)) =>
        ok := RunAsyncRedirect(w, redirect, depth);
      case Pending =>
        Suspend(w, Some(PendingNavigation(request, ctx, resolved, PendingPhase.GuardAsync, idx, depth)));
        ok := true;
    }
  }

  /** A redirect from an asynchronous guard: refused at the limit, otherwise a new request that skips the before-leave hooks. */
  method RunAsyncRedirect(w: RouterWidget, redirect: RouterRedirect, depth: nat) returns (ok: bool)
    requires w.Valid()
    modifies w, w.router.history, w.caches
    ensures w.Valid() && Keeps(w)
    ensures (w.Core(), ok) == AsyncRedirect(old(w.Env()), w.guards, old(w.Core()), redirect, depth)
    decreases Fuel(depth), 0, 0
  {
    if depth >= MaxRedirects {
      Refuse(w, RedirectLimit);
      return false;
    }
    ok := RequestNavigationInternal(w, RedirectToRequest(redirect), true, depth + 1);
  }

  /**
   * `poll_pending_navigation`, with what the pending receiver delivered as
   * a parameter: the suspended navigation is taken out, put back while no
   * answer has arrived or the answer is of the other phase's kind, dropped
   * when the channel is closed, and otherwise resumed, blocked or
   * redirected as its phase prescribes.
   */
  method PollPendingNavigation(w: RouterWidget, received: Received)
    requires w.Valid()
    modifies w, w.router.history, w.caches
    ensures w.Valid() && Keeps(w)
    ensures w.Core() == Poll(old(w.Env()), w.guards, old(w.Core()), received)
  {
    if w.pendingNavigation.None? {
      return;
    }
    var p := w.pendingNavigation.value;
    Suspend(w, None);
    match received
    case NothingYet =>
      Suspend(w, Some(p));
    case ChannelClosed =>
    case LeaveAnswer(decision) =>
      if p.phase.BeforeLeaveAsync? {
        ResumeLeaveHooks(w, p, decision);
      } else {
        Suspend(w, Some(p));
      }
    case GuardAnswer(decision) =>
      if p.phase.GuardAsync? {
        ResumeGuards(w, p, decision);
      } else {
        Suspend(w, Some(p));
      }
  }

  /** The before-leave answer to a navigation just taken out of suspension. */
  method ResumeLeaveHooks(w: RouterWidget, p: PendingNavigation, decision: LeaveDecision)
    requires w.Valid()
    modifies w, w.router.history, w.caches
    ensures w.Valid() && Keeps(w)
    ensures w.Core() == ResumeLeave(old(w.Env()), w.guards, old(w.Core()), p, decision)
  {
    if decision != LeaveAllow {
      Refuse(w, BeforeLeaveBlocked);
      return;
    }
    var resumed := RunBeforeLeaveAsync(w, p.request, p.context, p.resolvedPath, p.asyncIndex + 1, p.redirectDepth);
  }

  /** The route guard's answer to a navigation just taken out of suspension. */
  method ResumeGuards(w: RouterWidget, p: PendingNavigation, decision: GuardDecision)
    requires w.Valid()
    modifies w, w.router.history, w.caches
    ensures w.Valid() && Keeps(w)
    ensures w.Core() == ResumeGuard(old(w.Env()), w.guards, old(w.Core()), p, decision)
  {
    match decision
    case Allow =>
      var resumed := RunGuardAsync(w, p.request, p.context, p.resolvedPath, p.asyncIndex + 1, p.redirectDepth);
    case Block =>
      Refuse(w, GuardBlocked);
    case Redirect(redirect) =>
      var redirected := RunAsyncRedirect(w, redirect, p.redirectDepth);
  }
}
