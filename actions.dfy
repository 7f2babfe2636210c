/**
 * The widget's queue of router actions
 * (`crates/makepad-router-widgets/src/widget/actions.rs`): every committed
 * navigation appends its primary action, if it has one, then the route
 * change; flushing hands the queue over in order and empties it.
 */
module Actions {
  import opened Wrappers
  import opened Ids
  import opened Routes
  import opened Routers
  import opened CommitSpec
  import opened Widgets

  /** `queue_route_actions`. */
  method QueueRouteActions(w: RouterWidget, primary: Option<RouterAction>, oldId: Option<LiveId>, newRoute: Route)
    requires w.Valid()
    modifies w
    ensures w.Valid() && Keeps(w)
    ensures w.pendingActions == Queued(old(w.pendingActions), primary, oldId, newRoute)
    ensures w.Core() == old(w.Core()).(actions := w.pendingActions)
  {
    if primary.Some? {
      w.pendingActions := w.pendingActions + [primary.value];
    }
    w.pendingActions := w.pendingActions + [RouteChanged(oldId, newRoute.id)];
  }

  /**
   * `flush_router_actions`: the queued actions are emitted first to last,
   * and the queue is left empty.
   */
  method FlushRouterActions(w: RouterWidget) returns (emitted: seq<RouterAction>)
    requires w.Valid()
    modifies w
    ensures w.Valid() && Keeps(w)
    ensures emitted == old(w.pendingActions) && w.pendingActions == []
    ensures w.Core() == old(w.Core()).(actions := [])
  {
    emitted := [];
    if |w.pendingActions| == 0 {
      return;
    }
    var queue := w.pendingActions;
    w.pendingActions := [];
    var i := 0;
    while i < |queue|
      invariant i <= |queue| && emitted == queue[..i]
    {
      emitted := emitted + [queue[i]];
      i := i + 1;
    }
    assert queue[..i] == queue;
  }

  /**
   * Queuing only appends: what is queued is the earlier queue followed by
   * what the same call queues on an empty one, the primary action, if any,
   * then the route change. With `FlushRouterActions` leaving the queue
   * empty, queuing after a flush leaves exactly the new actions.
   */
  lemma QueuedAppends(actions: seq<RouterAction>, primary: Option<RouterAction>, oldId: Option<LiveId>, newRoute: Route)
    ensures Queued(actions, primary, oldId, newRoute) == actions + Queued([], primary, oldId, newRoute)
    ensures Queued([], primary, oldId, newRoute) ==
      (if primary.Some? then [primary.value] else []) + [RouteChanged(oldId, newRoute.id)]
  {
  }
}
