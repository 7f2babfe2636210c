/**
 * The command engine of the widget
 * (`crates/makepad-router-widgets/src/widget/engine.rs`): applying a
 * configuration, and `dispatch`, which runs one `RouterCommand` and reports
 * whether the current route changed, the routes before and after, the
 * primary action and, when nothing changed, why.
 *
 * Every command but `ReplacePath` goes through `request_navigation` (the
 * widget operation it names asks the guards first unless guards are already
 * bypassed, which the request pipeline does as well); `ReplacePath` calls
 * `replace_by_path_internal` directly and so is never seen by guards.
 */
module Engine {
  import opened Wrappers
  import opened Ids
  import opened Routes
  import opened Navigation
  import opened Routers
  import opened WidgetTypes
  import opened CommitSpec
  import opened GuardSpec
  import opened Widgets
  import PathNav
  import GuardFlow

  /** `RouterDispatchResult`. */
  datatype DispatchResult = DispatchResult(
    changed: bool,
    from: Option<Route>,
    to: Option<Route>,
    action: Option<RouterAction>,
    blockedReason: Option<BlockReason>)

  /* ------------------------------------------------------- configuration */

  /** An id of the configuration replaces the widget's only when it is not `LiveId(0)`. */
  function Overwritten(current: LiveId, configured: LiveId): (r: LiveId)
    ensures configured != NoId ==> r == configured
    ensures configured == NoId ==> r == current
  {
    if configured != NoId then configured else current
  }

  /** The settings `apply_config` leaves: the default route and the transitions as `Overwritten`, the persistence flag copied. */
  function ConfiguredSettings(s: WidgetSettings, config: RouterConfig): (r: WidgetSettings)
    ensures r.persistState == config.persistState
    ensures config.defaultTransition != NoId ==>
      r.pushTransition == config.defaultTransition && r.popTransition == config.defaultTransition &&
      r.replaceTransition == config.defaultTransition
    ensures config.defaultTransition == NoId ==>
      r.pushTransition == s.pushTransition && r.popTransition == s.popTransition && r.replaceTransition == s.replaceTransition
    ensures r.defaultRoute == Overwritten(s.defaultRoute, config.defaultRoute)
  {
    WidgetSettings(Overwritten(s.defaultRoute, config.defaultRoute),
                   Overwritten(s.pushTransition, config.defaultTransition),
                   Overwritten(s.popTransition, config.defaultTransition),
                   Overwritten(s.replaceTransition, config.defaultTransition),
                   config.persistState)
  }

  /** Applying the same configuration twice is applying it once. */
  lemma ConfigIdempotent(s: WidgetSettings, config: RouterConfig)
    ensures ConfiguredSettings(ConfiguredSettings(s, config), config) == ConfiguredSettings(s, config)
  {
  }

  /** A configuration that names no id leaves every id as it was. */
  lemma ZeroIdsKeepSettings(s: WidgetSettings, config: RouterConfig)
    requires config.defaultRoute == NoId && config.defaultTransition == NoId
    ensures ConfiguredSettings(s, config) == s.(persistState := config.persistState)
  {
  }

  /**
   * `apply_config`: every capability flag is copied; the default route, the
   * not-found route and the three transitions are replaced only by non-zero
   * ids; the persistence flag is copied. Navigation state and guards stay.
   */
  method ApplyConfig(w: RouterWidget, config: RouterConfig)
    requires w.Valid()
    modifies w
    ensures w.Valid()
    ensures w.capabilities == config.capabilities
    ensures w.Settings() == ConfiguredSettings(old(w.Settings()), config)
    ensures w.Env() == old(w.Env()).(caps := config.capabilities, notFoundRoute := Overwritten(old(w.notFoundRoute), config.notFoundRoute))
    ensures w.Core() == old(w.Core()) && w.guards == old(w.guards)
  {
    ConfigureEnv(w, config);
    ConfigureSettings(w, config);
  }

  /** The part of `apply_config` that navigation reads: the capability flags and the not-found route. */
  method ConfigureEnv(w: RouterWidget, config: RouterConfig)
    requires w.Valid()
    modifies w
    ensures w.Valid()
    ensures w.Env() == old(w.Env()).(caps := config.capabilities, notFoundRoute := Overwritten(old(w.notFoundRoute), config.notFoundRoute))
    ensures w.Settings() == old(w.Settings()) && w.Core() == old(w.Core()) && w.guards == old(w.guards)
  {
    w.capabilities := config.capabilities;
    w.notFoundRoute := Overwritten(w.notFoundRoute, config.notFoundRoute);
  }

  /** The rest of `apply_config`: the default route, the transitions and the persistence flag. */
  method ConfigureSettings(w: RouterWidget, config: RouterConfig)
    requires w.Valid()
    modifies w
    ensures w.Valid()
    ensures w.Settings() == ConfiguredSettings(old(w.Settings()), config)
    ensures w.Env() == old(w.Env()) && w.Core() == old(w.Core()) && w.guards == old(w.guards)
  {
    w.defaultRoute, w.persistState := Overwritten(w.defaultRoute, config.defaultRoute), config.persistState;
    ConfigureTransitions(w, config.defaultTransition);
  }

  /** The three default transitions, replaced together by a non-zero id. */
  method ConfigureTransitions(w: RouterWidget, transition: LiveId)
    requires w.Valid()
    modifies w
    ensures w.Valid()
    ensures w.Settings() == old(w.Settings()).(pushTransition := Overwritten(old(w.pushTransition), transition),
                                               popTransition := Overwritten(old(w.popTransition), transition),
                                               replaceTransition := Overwritten(old(w.replaceTransition), transition))
    ensures w.Env() == old(w.Env()) && w.Core() == old(w.Core()) && w.guards == old(w.guards)
  {
    w.pushTransition, w.popTransition, w.replaceTransition :=
      Overwritten(w.pushTransition, transition), Overwritten(w.popTransition, transition), Overwritten(w.replaceTransition, transition);
  }

  /* -------------------------------------------------- commands, as data */

  /** The commands that move within the history rather than to a named route or path. */
  predicate IsHistoryCommand(command: RouterCommand) {
    command.Back? || command.Forward? || command.Pop? || command.PopTo? || command.PopToRoot?
  }

  /** The request each command makes (`Push` is `navigate`). */
  function RequestOf(command: RouterCommand): (r: NavRequest)
    ensures IsHistoryCommand(command) <==> IsHistoryRequest(r)
  {
    match command
    case GoToRoute(id) => NavRequest.Navigate(id)
    case GoToPath(path) => NavRequest.NavigateByPath(path)
    case ReplaceRoute(id) => NavRequest.Replace(id)
    case ReplacePath(path, clearExtras) => NavRequest.ReplaceByPath(path, clearExtras)
    case Back => NavRequest.Back
    case Forward => NavRequest.Forward
    case Reset(route) => NavRequest.Reset(route)
    case Push(id) => NavRequest.Navigate(id)
    case Pop => NavRequest.Pop
    case PopTo(id) => NavRequest.PopTo(id)
    case PopToRoot => NavRequest.PopToRoot
    case SetStack(stack) => NavRequest.SetStack(stack)
  }

  /**
   * `primary_action_for_command`: nothing for the pops; `Back` and
   * `Forward` for themselves; otherwise the new current route, announced as
   * a navigation, a replacement or a reset.
   */
  function PrimaryActionForCommand(command: RouterCommand, to: Option<Route>): (r: Option<RouterAction>)
    ensures command.Pop? || command.PopTo? || command.PopToRoot? ==> r.None?
    ensures command.Back? ==> r == Some(RouterAction.Back)
    ensures command.Forward? ==> r == Some(RouterAction.Forward)
    ensures !IsHistoryCommand(command) ==> (r.Some? <==> to.Some?)
    ensures r.Some? && !IsHistoryCommand(command) ==> (r.value.Navigate? || r.value.Replace? || r.value.Reset?) && r.value.route == to.value
    ensures r.Some? && (command.GoToRoute? || command.GoToPath? || command.Push?) ==> r.value.Navigate?
    ensures r.Some? && (command.ReplaceRoute? || command.ReplacePath?) ==> r.value.Replace?
    ensures r.Some? && (command.Reset? || command.SetStack?) ==> r.value.Reset?
  {
    match command
    case GoToRoute(_) => if to.Some? then Some(RouterAction.Navigate(to.value)) else None
    case GoToPath(_) => if to.Some? then Some(RouterAction.Navigate(to.value)) else None
    case Push(_) => if to.Some? then Some(RouterAction.Navigate(to.value)) else None
    case ReplaceRoute(_) => if to.Some? then Some(RouterAction.Replace(to.value)) else None
    case ReplacePath(_, _) => if to.Some? then Some(RouterAction.Replace(to.value)) else None
    case Back => Some(RouterAction.Back)
    case Forward => Some(RouterAction.Forward)
    case Reset(_) => if to.Some? then Some(RouterAction.Reset(to.value)) else None
    case SetStack(_) => if to.Some? then Some(RouterAction.Reset(to.value)) else None
    case Pop => None
    case PopTo(_) => None
    case PopToRoot => None
  }

  /**
   * `infer_block_reason`: a command after which the current route equals
   * the one before, under `PartialEq for Route`, gets `NoHistory` when it
   * moves within the history and `RouteMissing` otherwise; a command that
   * moved gets nothing.
   */
  function InferBlockReason(command: RouterCommand, from: Option<Route>, to: Option<Route>): (r: Option<BlockReason>)
    ensures r.Some? <==> SameCurrent(from, to)
    ensures r.Some? ==> (r.value == NoHistory <==> IsHistoryCommand(command))
    ensures r.Some? ==> (r.value == RouteMissing <==> !IsHistoryCommand(command))
  {
    if !SameCurrent(from, to) then None
    else if IsHistoryCommand(command) then Some(NoHistory)
    else Some(RouteMissing)
  }

  /**
   * The reason inferred for a command that did not move agrees with the
   * reason the request pipeline records when the command's request cannot
   * be resolved at all.
   */
  lemma InferredAgreesWithResolution(command: RouterCommand, from: Option<Route>, to: Option<Route>)
    requires SameCurrent(from, to)
    ensures InferBlockReason(command, from, to) == Some(InferResolutionBlockReason(RequestOf(command)))
  {
  }

  /* ------------------------------------------------- dispatch, as functions */

  /** What a command commits once guards are out of the way. */
  function CommandCommit(env: Env, c: Core, command: RouterCommand): (r: (Core, bool))
    requires CoreOk(c)
    ensures CoreOk(r.0) && SameGuardState(c, r.0)
    ensures !r.1 ==> r.0 == c
  {
    if command.ReplacePath? then CommitPath(env, c, command.path, true, command.clearExtras)
    else CommitOperation(env, c, RequestOf(command), None)
  }

  /**
   * The action `dispatch` reports for a command that commits is exactly the
   * primary action the commit queued for the new current route.
   */
  lemma CommitQueuesPrimaryAction(env: Env, c: Core, command: RouterCommand)
    requires CoreOk(c)
    ensures var r := CommandCommit(env, c, command);
      r.1 ==> CurrentOf(r.0.history).Some? &&
              Settled(c, r.0, CurrentOf(r.0.history).value, PrimaryActionForCommand(command, CurrentOf(r.0.history)))
  {
    if command.GoToPath? || command.ReplacePath? {
      PathCommitQueuesPrimaryAction(env, c, command);
    } else if IsHistoryCommand(command) {
      HistoryCommitQueuesPrimaryAction(env, c, command);
    } else {
      RouteCommitQueuesPrimaryAction(env, c, command);
    }
  }

  lemma PathCommitQueuesPrimaryAction(env: Env, c: Core, command: RouterCommand)
    requires CoreOk(c) && (command.GoToPath? || command.ReplacePath?)
    ensures var r := CommandCommit(env, c, command);
      r.1 ==> CurrentOf(r.0.history).Some? &&
              Settled(c, r.0, CurrentOf(r.0.history).value, PrimaryActionForCommand(command, CurrentOf(r.0.history)))
  {
    if command.GoToPath? {
      GoToPathQueuesNavigate(env, c, command.path);
    } else {
      ReplacePathQueuesReplace(env, c, command.path, command.clearExtras);
    }
  }

  lemma GoToPathQueuesNavigate(env: Env, c: Core, path: string)
    requires CoreOk(c)
    ensures var r := CommandCommit(env, c, GoToPath(path));
      r.1 ==> CurrentOf(r.0.history).Some? &&
              Settled(c, r.0, CurrentOf(r.0.history).value, Some(RouterAction.Navigate(CurrentOf(r.0.history).value)))
  {
    PathCommandCommits(env, c, GoToPath(path));
    CommitPathSettles(env, c, path, false, true);
  }

  /** `GoToPath` commits its path by pushing and clearing the URL extras. */
  lemma PathCommandCommits(env: Env, c: Core, command: RouterCommand)
    requires CoreOk(c) && command.GoToPath?
    ensures CommandCommit(env, c, command) == CommitPath(env, c, command.path, false, true)
  {
    assert RequestOf(command) == NavRequest.NavigateByPath(command.path);
  }

  lemma ReplacePathQueuesReplace(env: Env, c: Core, path: string, clearExtras: bool)
    requires CoreOk(c)
    ensures var r := CommandCommit(env, c, ReplacePath(path, clearExtras));
      r.1 ==> CurrentOf(r.0.history).Some? &&
              Settled(c, r.0, CurrentOf(r.0.history).value, Some(RouterAction.Replace(CurrentOf(r.0.history).value)))
  {
    CommitPathSettles(env, c, path, true, clearExtras);
  }

  /** A path commit makes the resolved route current, announced as a replacement exactly when it replaces. */
  lemma CommitPathSettles(env: Env, c: Core, path: string, replace: bool, clearExtras: bool)
    requires CoreOk(c)
    ensures var r := CommitPath(env, c, path, replace, clearExtras);
      r.1 ==> CurrentOf(r.0.history).Some? &&
              var route := CurrentOf(r.0.history).value;
              Settled(c, r.0, route, Some(if replace then RouterAction.Replace(route) else RouterAction.Navigate(route)))
  {
    var intent := ResolvePathIntent(env, c.history, path, replace, clearExtras);
    if intent.Some? {
      assert intent.value.replace == replace;
      assert CommitPath(env, c, path, replace, clearExtras) == CommitIntent(c, intent.value);
    }
  }

  lemma HistoryCommitQueuesPrimaryAction(env: Env, c: Core, command: RouterCommand)
    requires CoreOk(c) && IsHistoryCommand(command)
    ensures var r := CommandCommit(env, c, command);
      r.1 ==> CurrentOf(r.0.history).Some? &&
              Settled(c, r.0, CurrentOf(r.0.history).value, PrimaryActionForCommand(command, CurrentOf(r.0.history)))
  {
  }

  lemma RouteCommitQueuesPrimaryAction(env: Env, c: Core, command: RouterCommand)
    requires CoreOk(c) && !IsHistoryCommand(command) && !command.GoToPath? && !command.ReplacePath?
    ensures var r := CommandCommit(env, c, command);
      r.1 ==> CurrentOf(r.0.history).Some? &&
              Settled(c, r.0, CurrentOf(r.0.history).value, PrimaryActionForCommand(command, CurrentOf(r.0.history)))
  {
  }

  /** The widget operation a command runs. */
  function Executed(env: Env, g: GuardLists, c: Core, command: RouterCommand): (r: (Core, bool))
    requires CoreOk(c)
    ensures CoreOk(r.0) && r.0.guardBypass == c.guardBypass
    ensures !r.1 ==> Refused(c, r.0)
  {
    if command.ReplacePath? then CommitPath(env, c, command.path, true, command.clearExtras)
    else RequestNav(env, g, c, RequestOf(command), false, 0)
  }

  /** While guards are bypassed, a command runs exactly its commit. */
  lemma BypassedExecutesCommit(env: Env, g: GuardLists, c: Core, command: RouterCommand)
    requires CoreOk(c) && c.guardBypass
    ensures Executed(env, g, c, command) == CommandCommit(env, c, command)
  {
    if !command.ReplacePath? {
      var out := CommitOperation(env, c, RequestOf(command), None);
      assert c.(guardBypass := true) == c;
      assert out.0.(guardBypass := c.guardBypass) == out.0;
      assert RequestNav(env, g, c, RequestOf(command), false, 0) == CommitRequest(env, c, RequestOf(command), None);
    }
  }

  /**
   * `dispatch`: the recorded reason is cleared, the command runs, and the
   * result reports the current routes before and after; a command that
   * changed something has the primary action and no reason, one that did
   * not has no action, left the current route where it was, and reports
   * the reason recorded while it ran or else the inferred one.
   */
  function Dispatched(env: Env, g: GuardLists, c: Core, command: RouterCommand): (r: (Core, DispatchResult))
    requires CoreOk(c)
    ensures CoreOk(r.0) && r.0.guardBypass == c.guardBypass
    ensures r.1.from == CurrentOf(c.history) && r.1.to == CurrentOf(r.0.history)
    ensures r.1.changed ==> r.1.blockedReason.None? && r.1.action == PrimaryActionForCommand(command, r.1.to)
    ensures !r.1.changed ==> r.1.action.None? && r.1.to == r.1.from
    ensures !r.1.changed ==> r.0 == c.(lastBlocked := r.0.lastBlocked)
    ensures !r.1.changed && r.0.lastBlocked.Some? ==> r.1.blockedReason == r.0.lastBlocked
    ensures !r.1.changed && r.0.lastBlocked.None? ==> r.1.blockedReason == InferBlockReason(command, r.1.from, r.1.to)
  {
    var out := Executed(env, g, c.(lastBlocked := None), command);
    var from, to := CurrentOf(c.history), CurrentOf(out.0.history);
    var action := if out.1 then PrimaryActionForCommand(command, to) else None;
    var reason := if out.1 then None else if out.0.lastBlocked.Some? then out.0.lastBlocked else InferBlockReason(command, from, to);
    (out.0, DispatchResult(out.1, from, to, action, reason))
  }

  /** The result of `dispatch` does not depend on the reason recorded before it. */
  lemma DispatchIgnoresStaleReason(env: Env, g: GuardLists, c: Core, command: RouterCommand, stale: Option<BlockReason>)
    requires CoreOk(c)
    ensures Dispatched(env, g, c.(lastBlocked := stale), command) == Dispatched(env, g, c, command)
  {
    assert c.(lastBlocked := stale).(lastBlocked := None) == c.(lastBlocked := None);
  }

  /**
   * While guards are bypassed, a command that changed something has made
   * the reported new route current and active, and queued the reported
   * action followed by the route change.
   */
  lemma BypassedDispatchReportsQueued(env: Env, g: GuardLists, c: Core, command: RouterCommand)
    requires CoreOk(c) && c.guardBypass
    ensures var r := Dispatched(env, g, c, command);
      r.1.changed ==> r.1.to.Some? && Settled(c, r.0, r.1.to.value, r.1.action)
  {
    var c0 := c.(lastBlocked := None);
    BypassedExecutesCommit(env, g, c0, command);
    CommitQueuesPrimaryAction(env, c0, command);
  }

  /**
   * A command that did not move always reports a reason, provided the
   * current route's parameter store is well formed: the route then equals
   * itself, so a reason is inferred when none was recorded. (A `Small`
   * store holding one key twice with different values is not equal to
   * itself, and then nothing is inferred.)
   */
  lemma UnmovedDispatchHasReason(env: Env, g: GuardLists, c: Core, command: RouterCommand)
    requires CoreOk(c)
    requires CurrentOf(c.history).Some? ==> CurrentOf(c.history).value.params.Valid()
    ensures var r := Dispatched(env, g, c, command);
      !r.1.changed ==> r.1.blockedReason.Some? && (r.0.lastBlocked.None? ==>
        r.1.blockedReason == Some(InferResolutionBlockReason(RequestOf(command))))
  {
    var r := Dispatched(env, g, c, command);
    var at := CurrentOf(c.history);
    if at.Some? {
      SameRouteIsMapEquality(at.value, at.value);
    }
    if !r.1.changed && r.0.lastBlocked.None? {
      InferredAgreesWithResolution(command, r.1.from, r.1.to);
    }
  }

  /* ------------------------------------------------------- on the widget */

  /** The operation `dispatch` calls for a command. */
  method Execute(w: RouterWidget, command: RouterCommand) returns (changed: bool)
    requires w.Valid()
    modifies w, w.router.history, w.caches
    ensures w.Valid() && Keeps(w)
    ensures (w.Core(), changed) == Executed(old(w.Env()), w.guards, old(w.Core()), command)
  {
    if command.ReplacePath? {
      changed := PathNav.ReplaceByPathInternal(w, command.path, command.clearExtras);
    } else {
      changed := GuardFlow.RequestNavigation(w, RequestOf(command));
    }
  }

  /** `dispatch` on the widget. */
  method Dispatch(w: RouterWidget, command: RouterCommand) returns (result: DispatchResult)
    requires w.Valid()
    modifies w, w.router.history, w.caches
    ensures w.Valid() && Keeps(w)
    ensures (w.Core(), result) == Dispatched(old(w.Env()), w.guards, old(w.Core()), command)
  {
    var from := w.router.CurrentRoute();
    w.lastBlockedReason := None;
    var changed := Execute(w, command);
    var to := w.router.CurrentRoute();
    var reason := if changed then None else if w.lastBlockedReason.Some? then w.lastBlockedReason else InferBlockReason(command, from, to);
    result := DispatchResult(changed, from, to, if changed then PrimaryActionForCommand(command, to) else None, reason);
  }
}
