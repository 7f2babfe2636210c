/**
 * The navigation operations of the widget as they run once guards are out
 * of the way (`src/widget/api.rs`, each operation's branch taken while
 * `guard_bypass` is set): check the target, forget the kept unknown path,
 * change the history, make the new current route active and queue its
 * actions. Each method is proved to perform the `CommitSpec` function of
 * the same operation.
 */
module Commits {
  import opened Wrappers
  import opened Ids
  import opened Routes
  import opened Navigation
  import opened Routers
  import opened WidgetTypes
  import opened CommitSpec
  import opened Widgets
  import opened Actions
  import opened UrlState

  /** Keeping one more route extends the filtered stack by that route; dropping it leaves the filtered stack alone. */
  lemma {:induction false} TemplatedSnoc(stack: seq<Route>, x: Route, templates: set<LiveId>)
    ensures Templated(stack + [x], templates) == Templated(stack, templates) + (if x.id in templates then [x] else [])
    decreases |stack|
  {
    if |stack| == 0 {
      assert stack + [x] == [x];
      assert [x][1..] == [];
    } else {
      assert (stack + [x])[1..] == stack[1..] + [x];
      TemplatedSnoc(stack[1..], x, templates);
    }
  }

  /** The `filter` of `set_stack`: the routes that have a template, in order. */
  method FilterTemplated(stack: seq<Route>, templates: set<LiveId>) returns (kept: seq<Route>)
    ensures kept == Templated(stack, templates)
  {
    kept := [];
    for i := 0 to |stack|
      invariant kept == Templated(stack[..i], templates)
    {
      TemplatedSnoc(stack[..i], stack[i], templates);
      assert stack[..i + 1] == stack[..i] + [stack[i]];
      if stack[i].id in templates {
        kept := kept + [stack[i]];
      }
    }
    assert stack[..|stack|] == stack;
  }

  /** `navigate` (and `push`) while guards are bypassed. */
  method Navigate(w: RouterWidget, id: LiveId) returns (ok: bool)
    requires w.Valid()
    modifies w, w.router.history
    ensures w.Valid() && Keeps(w)
    ensures (w.Core(), ok) == CommitNavigate(old(w.Env()), old(w.Core()), id)
  {
    if id !in w.templates {
      return false;
    }
    ClearUrlExtras(w);
    var oldId := w.router.CurrentRouteId();
    w.router.NavigateTo(id);
    w.activeRoute := id;
    var current := w.router.CurrentRoute();
    if current.Some? {
      QueueRouteActions(w, Some(RouterAction.Navigate(current.value)), oldId, current.value);
    }
    ok := true;
  }

  /** `replace` while guards are bypassed. */
  method Replace(w: RouterWidget, id: LiveId) returns (ok: bool)
    requires w.Valid()
    modifies w, w.router.history
    ensures w.Valid() && Keeps(w)
    ensures (w.Core(), ok) == CommitReplace(old(w.Env()), old(w.Core()), id)
  {
    if id !in w.templates {
      return false;
    }
    ClearUrlExtras(w);
    var oldId := w.router.CurrentRouteId();
    w.router.ReplaceWith(id);
    w.activeRoute := id;
    var current := w.router.CurrentRoute();
    if current.Some? {
      QueueRouteActions(w, Some(RouterAction.Replace(current.value)), oldId, current.value);
    }
    ok := true;
  }

  /** `reset` while guards are bypassed. */
  method Reset(w: RouterWidget, route: Route) returns (ok: bool)
    requires w.Valid()
    modifies w, w.router.history
    ensures w.Valid() && Keeps(w)
    ensures (w.Core(), ok) == CommitReset(old(w.Env()), old(w.Core()), route)
  {
    if route.id !in w.templates {
      return false;
    }
    ClearUrlExtras(w);
    var oldId := w.router.CurrentRouteId();
    w.router.Reset(route);
    w.activeRoute := route.id;
    var current := w.router.CurrentRoute();
    if current.Some? {
      QueueRouteActions(w, Some(RouterAction.Reset(current.value)), oldId, current.value);
    }
    ok := true;
  }

  /** `set_stack` while guards are bypassed. */
  method SetStack(w: RouterWidget, stack: seq<Route>) returns (ok: bool)
    requires w.Valid()
    modifies w, w.router.history
    ensures w.Valid() && Keeps(w)
    ensures (w.Core(), ok) == CommitSetStack(old(w.Env()), old(w.Core()), stack)
  {
    var kept := FilterTemplated(stack, w.templates);
    if |kept| == 0 {
      return false;
    }
    ok := InstallStack(w, kept);
  }

  /** The kept routes replace the history; the last one becomes the active route. */
  method InstallStack(w: RouterWidget, kept: seq<Route>) returns (ok: bool)
    requires w.Valid() && |kept| > 0
    modifies w, w.router.history
    ensures w.Valid() && Keeps(w)
    ensures (w.Core(), ok) == StackInstalled(old(w.Core()), kept)
  {
    ClearUrlExtras(w);
    var oldId := w.router.CurrentRouteId();
    w.router.SetStack(kept);
    var current := w.router.CurrentRoute();
    if current.None? {
      return false;
    }
    w.activeRoute := current.value.id;
    QueueRouteActions(w, Some(RouterAction.Reset(current.value)), oldId, current.value);
    ok := true;
  }

  /** `back` while guards are bypassed. */
  method Back(w: RouterWidget) returns (ok: bool)
    requires w.Valid()
    modifies w, w.router.history
    ensures w.Valid() && Keeps(w)
    ensures (w.Core(), ok) == CommitBack(old(w.Core()))
  {
    var oldId := w.router.CurrentRouteId();
    var moved := w.router.Back();
    if !moved {
      return false;
    }
    var current := w.router.CurrentRoute();
    if current.None? {
      return false;
    }
    ClearUrlExtras(w);
    w.activeRoute := current.value.id;
    QueueRouteActions(w, Some(RouterAction.Back), oldId, current.value);
    ok := true;
  }

  /** `forward` while guards are bypassed. */
  method Forward(w: RouterWidget) returns (ok: bool)
    requires w.Valid()
    modifies w, w.router.history
    ensures w.Valid() && Keeps(w)
    ensures (w.Core(), ok) == CommitForward(old(w.Core()))
  {
    var oldId := w.router.CurrentRouteId();
    var moved := w.router.Forward();
    if !moved {
      return false;
    }
    var current := w.router.CurrentRoute();
    if current.None? {
      return false;
    }
    ClearUrlExtras(w);
    w.activeRoute := current.value.id;
    QueueRouteActions(w, Some(RouterAction.Forward), oldId, current.value);
    ok := true;
  }

  /** `pop` while guards are bypassed. */
  method Pop(w: RouterWidget) returns (ok: bool)
    requires w.Valid()
    modifies w, w.router.history
    ensures w.Valid() && Keeps(w)
    ensures (w.Core(), ok) == CommitPop(old(w.Core()))
  {
    var oldId := w.router.CurrentRouteId();
    var popped := w.router.Pop();
    if !popped {
      return false;
    }
    var current := w.router.CurrentRoute();
    if current.None? {
      return false;
    }
    ClearUrlExtras(w);
    w.activeRoute := current.value.id;
    QueueRouteActions(w, None, oldId, current.value);
    ok := true;
  }

  /** `pop_to` while guards are bypassed. */
  method PopTo(w: RouterWidget, id: LiveId) returns (ok: bool)
    requires w.Valid()
    modifies w, w.router.history
    ensures w.Valid() && Keeps(w)
    ensures (w.Core(), ok) == CommitPopTo(old(w.Core()), id)
  {
    var oldId := w.router.CurrentRouteId();
    var popped := w.router.PopTo(id);
    if !popped {
      return false;
    }
    var current := w.router.CurrentRoute();
    if current.None? {
      return false;
    }
    ClearUrlExtras(w);
    w.activeRoute := current.value.id;
    QueueRouteActions(w, None, oldId, current.value);
    ok := true;
  }

  /** `pop_to_root` while guards are bypassed. */
  method PopToRoot(w: RouterWidget) returns (ok: bool)
    requires w.Valid()
    modifies w, w.router.history
    ensures w.Valid() && Keeps(w)
    ensures (w.Core(), ok) == CommitPopToRoot(old(w.Core()))
  {
    var oldId := w.router.CurrentRouteId();
    var popped := w.router.PopToRoot();
    if !popped {
      return false;
    }
    var current := w.router.CurrentRoute();
    if current.None? {
      return false;
    }
    ClearUrlExtras(w);
    w.activeRoute := current.value.id;
    QueueRouteActions(w, None, oldId, current.value);
    ok := true;
  }
}
