/**
 * Registering guards and hooks on the widget
 * (`crates/makepad-router-widgets/src/widget/guards.rs`): each registration
 * is refused with `CapabilityDisabled` while its capability is off, and
 * otherwise appends to its list, so that guards and hooks are consulted in
 * the order they were registered. The gated accessors themselves are the
 * functions `BeforeLeaveHooks`, `RouteGuards`, `HasAsyncLeaveHooks` and
 * `HasAsyncRouteGuards` of `GuardSpec`.
 */
module Guards {
  import opened Wrappers
  import opened WidgetTypes
  import opened CommitSpec
  import opened GuardSpec
  import opened Widgets

  /** A guard registered last is consulted after every guard registered before it. */
  lemma {:induction false} AppendedGuardRunsLast(guards: seq<SyncGuard>, guard: SyncGuard, ctx: NavContext)
    ensures FirstObjection(guards + [guard], ctx) ==
      match FirstObjection(guards, ctx)
      case Some(k) => Some(k)
      case None => if guard(ctx).Allow? then None else Some(|guards|)
    decreases |guards|
  {
    if |guards| == 0 {
      assert guards + [guard] == [guard];
      assert [guard][1..] == [];
    } else {
      assert (guards + [guard])[1..] == guards[1..] + [guard];
      AppendedGuardRunsLast(guards[1..], guard, ctx);
    }
  }

  /** A hook registered last blocks the leave exactly when it or an earlier hook does. */
  lemma AppendedHookBlocks(hooks: seq<LeaveHook>, hook: LeaveHook, ctx: NavContext)
    ensures AnyLeaveBlocks(hooks + [hook], ctx) <==> AnyLeaveBlocks(hooks, ctx) || hook(ctx) == LeaveBlock
  {
    var all := hooks + [hook];
    if AnyLeaveBlocks(hooks, ctx) {
      var i :| 0 <= i < |hooks| && hooks[i](ctx) == LeaveBlock;
      assert all[i] == hooks[i];
    }
    if hook(ctx) == LeaveBlock {
      assert all[|hooks|] == hook;
    }
    if AnyLeaveBlocks(all, ctx) {
      var i :| 0 <= i < |all| && all[i](ctx) == LeaveBlock;
      if i < |hooks| {
        assert hooks[i] == all[i];
      }
    }
  }

  /**
   * `add_route_guard`: refused while synchronous guards are disabled,
   * recording the reason; otherwise the guard goes at the end of the list.
   */
  method AddRouteGuard(w: RouterWidget, guard: SyncGuard) returns (r: Result<(), BlockReason>)
    requires w.Valid()
    modifies w
    ensures w.Valid() && w.Env() == old(w.Env()) && w.Settings() == old(w.Settings())
    ensures r == if w.capabilities.guardsSync then Ok(()) else Err(CapabilityDisabled)
    ensures r.Ok? ==> w.guards == old(w.guards).(routeGuards := old(w.guards.routeGuards) + [guard]) && w.Core() == old(w.Core())
    ensures r.Err? ==> w.guards == old(w.guards) && w.Core() == old(w.Core()).(lastBlocked := Some(CapabilityDisabled))
  {
    if !w.capabilities.guardsSync {
      w.lastBlockedReason := Some(CapabilityDisabled);
      return Err(CapabilityDisabled);
    }
    w.guards := w.guards.(routeGuards := w.guards.routeGuards + [guard]);
    r := Ok(());
  }

  /** `add_route_guard_async`: the same, gated on asynchronous guards. */
  method AddRouteGuardAsync(w: RouterWidget, guard: AsyncGuard) returns (r: Result<(), BlockReason>)
    requires w.Valid()
    modifies w
    ensures w.Valid() && w.Env() == old(w.Env()) && w.Settings() == old(w.Settings())
    ensures r == if w.capabilities.guardsAsync then Ok(()) else Err(CapabilityDisabled)
    ensures r.Ok? ==> w.guards == old(w.guards).(routeGuardsAsync := old(w.guards.routeGuardsAsync) + [guard]) && w.Core() == old(w.Core())
    ensures r.Err? ==> w.guards == old(w.guards) && w.Core() == old(w.Core()).(lastBlocked := Some(CapabilityDisabled))
  {
    if !w.capabilities.guardsAsync {
      w.lastBlockedReason := Some(CapabilityDisabled);
      return Err(CapabilityDisabled);
    }
    w.guards := w.guards.(routeGuardsAsync := w.guards.routeGuardsAsync + [guard]);
    r := Ok(());
  }

  /** `add_before_leave_hook`: gated on synchronous guards. */
  method AddBeforeLeaveHook(w: RouterWidget, hook: LeaveHook) returns (r: Result<(), BlockReason>)
    requires w.Valid()
    modifies w
    ensures w.Valid() && w.Env() == old(w.Env()) && w.Settings() == old(w.Settings())
    ensures r == if w.capabilities.guardsSync then Ok(()) else Err(CapabilityDisabled)
    ensures r.Ok? ==> w.guards == old(w.guards).(leaveHooks := old(w.guards.leaveHooks) + [hook]) && w.Core() == old(w.Core())
    ensures r.Err? ==> w.guards == old(w.guards) && w.Core() == old(w.Core()).(lastBlocked := Some(CapabilityDisabled))
  {
    if !w.capabilities.guardsSync {
      w.lastBlockedReason := Some(CapabilityDisabled);
      return Err(CapabilityDisabled);
    }
    w.guards := w.guards.(leaveHooks := w.guards.leaveHooks + [hook]);
    r := Ok(());
  }

  /** `add_before_leave_hook_async`: gated on asynchronous guards. */
  method AddBeforeLeaveHookAsync(w: RouterWidget, hook: AsyncLeaveHook) returns (r: Result<(), BlockReason>)
    requires w.Valid()
    modifies w
    ensures w.Valid() && w.Env() == old(w.Env()) && w.Settings() == old(w.Settings())
    ensures r == if w.capabilities.guardsAsync then Ok(()) else Err(CapabilityDisabled)
    ensures r.Ok? ==> w.guards == old(w.guards).(leaveHooksAsync := old(w.guards.leaveHooksAsync) + [hook]) && w.Core() == old(w.Core())
    ensures r.Err? ==> w.guards == old(w.guards) && w.Core() == old(w.Core()).(lastBlocked := Some(CapabilityDisabled))
  {
    if !w.capabilities.guardsAsync {
      w.lastBlockedReason := Some(CapabilityDisabled);
      return Err(CapabilityDisabled);
    }
    w.guards := w.guards.(leaveHooksAsync := w.guards.leaveHooksAsync + [hook]);
    r := Ok(());
  }

  /**
   * A route guard registered while synchronous guards are enabled is the
   * last one consulted; while they are disabled no route guard is consulted
   * at all, whatever was registered.
   */
  lemma RegisteredGuardConsultedLast(caps: Capabilities, g: GuardLists, guard: SyncGuard, ctx: NavContext)
    ensures caps.guardsSync ==>
      FirstObjection(RouteGuards(caps, g.(routeGuards := g.routeGuards + [guard])), ctx) ==
        match FirstObjection(RouteGuards(caps, g), ctx)
        case Some(k) => Some(k)
        case None => if guard(ctx).Allow? then None else Some(|g.routeGuards|)
    ensures !caps.guardsSync ==> FirstObjection(RouteGuards(caps, g), ctx).None?
  {
    if caps.guardsSync {
      AppendedGuardRunsLast(g.routeGuards, guard, ctx);
    }
  }

  /**
   * Registering an asynchronous guard or hook makes the matching `has_async_*`
   * true exactly when asynchronous guards are enabled; neither is ever true
   * while they are disabled.
   */
  lemma AsyncRegistrationVisible(caps: Capabilities, g: GuardLists, guard: AsyncGuard, hook: AsyncLeaveHook)
    ensures HasAsyncRouteGuards(caps, g.(routeGuardsAsync := g.routeGuardsAsync + [guard])) <==> caps.guardsAsync
    ensures HasAsyncLeaveHooks(caps, g.(leaveHooksAsync := g.leaveHooksAsync + [hook])) <==> caps.guardsAsync
    ensures !caps.guardsAsync ==> !HasAsyncRouteGuards(caps, g) && !HasAsyncLeaveHooks(caps, g)
  {
  }
}
