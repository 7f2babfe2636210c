/**
 * Saving and restoring the router state
 * (`crates/makepad-router-widgets/src/widget/persistence.rs`): the saved
 * state is the history and the kept unknown path; restoring it keeps only
 * the routes that still have a template, in their order, and moves the
 * current index to the last kept route at or before the saved one.
 */
module Persistence {
  import opened Wrappers
  import opened Ids
  import opened Routes
  import opened Navigation
  import opened Routers
  import opened WidgetTypes
  import opened CommitSpec
  import opened Widgets
  import opened Actions
  import opened UrlState
  import Commits

  /* --------------------------------------------------- the filter, as data */

  /** Filtering a concatenation filters each part. */
  lemma {:induction false} TemplatedAppend(a: seq<Route>, b: seq<Route>, templates: set<LiveId>)
    ensures Templated(a + b, templates) == Templated(a, templates) + Templated(b, templates)
    decreases |a|
  {
    if |a| == 0 {
      assert a + b == b;
    } else {
      assert (a + b)[1..] == a[1..] + b;
      TemplatedAppend(a[1..], b, templates);
    }
  }

  /** A stack whose every route has a template is kept whole. */
  lemma {:induction false} TemplatedAll(stack: seq<Route>, templates: set<LiveId>)
    requires forall i :: 0 <= i < |stack| ==> stack[i].id in templates
    ensures Templated(stack, templates) == stack
    decreases |stack|
  {
    if |stack| > 0 {
      TemplatedAll(stack[1..], templates);
    }
  }

  /** A stack with no route that has a template is dropped whole. */
  lemma {:induction false} TemplatedNone(stack: seq<Route>, templates: set<LiveId>)
    requires forall i :: 0 <= i < |stack| ==> stack[i].id !in templates
    ensures Templated(stack, templates) == []
    decreases |stack|
  {
    if |stack| > 0 {
      TemplatedNone(stack[1..], templates);
    }
  }

  /** The saved routes up to and including the saved current index. */
  function UpToCurrent(stack: seq<Route>, current: nat): (r: seq<Route>)
    ensures |r| <= |stack| && r == stack[..|r|]
    ensures current < |stack| ==> |r| == current + 1
    ensures current >= |stack| ==> r == stack
  {
    stack[..if current < |stack| then current + 1 else |stack|]
  }

  /**
   * The restored current index: the position, among the kept routes, of the
   * last kept route at or before the saved current index; 0 when there is
   * none.
   */
  function RemappedIndex(stack: seq<Route>, current: nat, templates: set<LiveId>): nat {
    var k := |Templated(UpToCurrent(stack, current), templates)|;
    if k > 0 then k - 1 else 0
  }

  /** Whenever something is kept, the restored index points into what is kept. */
  lemma RemappedIndexInRange(stack: seq<Route>, current: nat, templates: set<LiveId>)
    requires |Templated(stack, templates)| > 0
    ensures RemappedIndex(stack, current, templates) < |Templated(stack, templates)|
  {
    var u := UpToCurrent(stack, current);
    assert stack == u + stack[|u|..];
    TemplatedAppend(u, stack[|u|..], templates);
  }

  /**
   * The restored current route is the last route at or before the saved
   * current index that has a template.
   */
  lemma RestoredCurrentIsLastKept(stack: seq<Route>, current: nat, templates: set<LiveId>, j: nat)
    requires j < |stack| && j <= current && stack[j].id in templates
    requires forall i :: j < i < |stack| && i <= current ==> stack[i].id !in templates
    ensures var kept := Templated(stack, templates);
      RemappedIndex(stack, current, templates) < |kept| && kept[RemappedIndex(stack, current, templates)] == stack[j]
  {
    RemappedAtLastKept(stack, current, templates, j);
    KeptPosition(stack, templates, j);
  }

  /** With `j` the last kept route at or before the saved index, the remapped index counts the kept routes before `j`. */
  lemma RemappedAtLastKept(stack: seq<Route>, current: nat, templates: set<LiveId>, j: nat)
    requires j < |stack| && j <= current && stack[j].id in templates
    requires forall i :: j < i < |stack| && i <= current ==> stack[i].id !in templates
    ensures RemappedIndex(stack, current, templates) == |Templated(stack[..j], templates)|
  {
    var u := UpToCurrent(stack, current);
    var pre := stack[..j];
    var between := stack[j + 1..|u|];
    assert u == (pre + [stack[j]]) + between;
    NothingKeptBetween(stack, current, templates, j, |u|);
    TemplatedAppend(pre + [stack[j]], between, templates);
    Commits.TemplatedSnoc(pre, stack[j], templates);
    assert |Templated(u, templates)| == |Templated(pre, templates)| + 1;
  }

  lemma NothingKeptBetween(stack: seq<Route>, current: nat, templates: set<LiveId>, j: nat, end: nat)
    requires j < end <= |stack| && end <= current + 1
    requires forall i :: j < i < |stack| && i <= current ==> stack[i].id !in templates
    ensures Templated(stack[j + 1..end], templates) == []
  {
    var between := stack[j + 1..end];
    forall i | 0 <= i < |between| ensures between[i].id !in templates {
      assert between[i] == stack[j + 1 + i];
    }
    TemplatedNone(between, templates);
  }

  /** A kept route sits, among the kept routes, after the kept routes before it. */
  lemma KeptPosition(stack: seq<Route>, templates: set<LiveId>, j: nat)
    requires j < |stack| && stack[j].id in templates
    ensures var n := |Templated(stack[..j], templates)|;
      n < |Templated(stack, templates)| && Templated(stack, templates)[n] == stack[j]
  {
    var pre := stack[..j];
    var post := stack[j + 1..];
    assert stack == (pre + [stack[j]]) + post;
    TemplatedAppend(pre + [stack[j]], post, templates);
    Commits.TemplatedSnoc(pre, stack[j], templates);
    assert Templated(stack, templates) == Templated(pre, templates) + [stack[j]] + Templated(post, templates);
  }

  /** When no route at or before the saved current index has a template, the first kept route becomes current. */
  lemma NoKeptBeforeRestoresFirst(stack: seq<Route>, current: nat, templates: set<LiveId>)
    requires forall i :: 0 <= i < |stack| && i <= current ==> stack[i].id !in templates
    ensures RemappedIndex(stack, current, templates) == 0
  {
    TemplatedNone(UpToCurrent(stack, current), templates);
  }

  /* ------------------------------------------------------- as functions */

  /** `build_state`: the default state while persistence is disabled. */
  function BuildState(caps: Capabilities, c: Core): (s: RouterState)
    ensures !caps.persistence ==> s == DefaultState
    ensures caps.persistence ==> Parts(s.history) == Parts(c.history) && s.urlPathOverride == c.urlPathOverride
  {
    if caps.persistence then RouterState(c.history, c.urlPathOverride) else DefaultState
  }

  /**
   * `apply_state`: refused with `CapabilityDisabled` while persistence is
   * disabled; refused without change when no saved route has a template;
   * otherwise the kept routes become the history, the saved unknown path is
   * restored, and the new current route is made active and announced as a
   * reset.
   */
  function StateApplied(env: Env, c: Core, state: RouterState): (r: (Core, bool))
    requires CoreOk(c)
    ensures !env.caps.persistence ==> r == (c.(lastBlocked := Some(CapabilityDisabled)), false)
    ensures env.caps.persistence ==> CoreOk(r.0) && SameGuardState(c, r.0)
    ensures env.caps.persistence ==> (r.1 <==> |Templated(state.history.stack, env.templates)| > 0)
    ensures env.caps.persistence && !r.1 ==> r.0 == c
    ensures r.1 ==> r.0.history.stack == Templated(state.history.stack, env.templates) &&
                    r.0.urlPathOverride == state.urlPathOverride
    ensures r.1 ==> CurrentOf(r.0.history).Some? &&
                    Settled(c, r.0, CurrentOf(r.0.history).value, Some(RouterAction.Reset(CurrentOf(r.0.history).value)))
  {
    if !env.caps.persistence then (c.(lastBlocked := Some(CapabilityDisabled)), false)
    else
      var (stack, index) := Parts(state.history);
      var filtered := Templated(stack, env.templates);
      if |filtered| == 0 then (c, false)
      else Restoration(c, state.urlPathOverride, filtered, RemappedIndex(stack, index, env.templates))
  }

  /** The end of `apply_state`: the kept routes become the history and the new current route is announced. */
  function Restoration(c: Core, urlPathOverride: Option<string>, filtered: seq<Route>, index: nat): (r: (Core, bool))
    requires CoreOk(c) && |filtered| > 0
    ensures CoreOk(r.0) && SameGuardState(c, r.0) && r.1
    ensures r.0.history == FromParts(filtered, index) && r.0.urlPathOverride == urlPathOverride
    ensures CurrentOf(r.0.history).Some? &&
            Settled(c, r.0, CurrentOf(r.0.history).value, Some(RouterAction.Reset(CurrentOf(r.0.history).value)))
  {
    var h := FromParts(filtered, index);
    var c1 := c.(urlPathOverride := urlPathOverride, history := h);
    match CurrentOf(h)
    case None => (c1, false)
    case Some(route) =>
      (c1.(activeRoute := route.id, actions := Queued(c.actions, Some(RouterAction.Reset(route)), CurrentId(c), route)), true)
  }

  /**
   * A state saved with persistence enabled, from a history whose every route
   * still has a template, restores that history and unknown path exactly.
   */
  lemma StateRoundTrip(env: Env, saved: Core, c: Core)
    requires CoreOk(saved) && CoreOk(c) && env.caps.persistence && |saved.history.stack| > 0
    requires forall i :: 0 <= i < |saved.history.stack| ==> saved.history.stack[i].id in env.templates
    ensures var r := StateApplied(env, c, BuildState(env.caps, saved));
      r.1 && r.0.history == saved.history && r.0.urlPathOverride == saved.urlPathOverride
  {
    var h := saved.history;
    TemplatedAll(h.stack, env.templates);
    var u := UpToCurrent(h.stack, h.current);
    assert forall i :: 0 <= i < |u| ==> u[i].id in env.templates by {
      forall i | 0 <= i < |u| ensures u[i].id in env.templates {
        assert u[i] == h.stack[i];
      }
    }
    TemplatedAll(u, env.templates);
    assert RemappedIndex(h.stack, h.current, env.templates) == h.current;
  }

  /** A state saved with persistence disabled restores nothing. */
  lemma DisabledStateRestoresNothing(env: Env, saved: Core, c: Core)
    requires CoreOk(c) && env.caps.persistence
    ensures StateApplied(env, c, BuildState(NoCapabilities, saved)) == (c, false)
  {
    assert Templated([], env.templates) == [];
  }

  /* ------------------------------------------------------- on the widget */

  /** The loop of `apply_state`: keep the routes with a template and follow the current index. */
  method FilterRestored(stack: seq<Route>, current: nat, templates: set<LiveId>) returns (filtered: seq<Route>, newCurrent: nat)
    ensures filtered == Templated(stack, templates)
    ensures newCurrent == RemappedIndex(stack, current, templates)
  {
    filtered, newCurrent := [], 0;
    for idx := 0 to |stack|
      invariant filtered == Templated(stack[..idx], templates)
      invariant newCurrent == RemappedIndex(stack[..idx], current, templates)
    {
      Commits.TemplatedSnoc(stack[..idx], stack[idx], templates);
      assert stack[..idx + 1] == stack[..idx] + [stack[idx]];
      if idx <= current {
        assert UpToCurrent(stack[..idx], current) == stack[..idx];
        assert UpToCurrent(stack[..idx + 1], current) == stack[..idx + 1];
      } else {
        assert UpToCurrent(stack[..idx], current) == stack[..current + 1];
        assert UpToCurrent(stack[..idx + 1], current) == stack[..current + 1];
      }
      if stack[idx].id !in templates {
        continue;
      }
      if idx <= current {
        newCurrent := |filtered|;
      }
      filtered := filtered + [stack[idx]];
    }
    assert stack[..|stack|] == stack;
  }

  /** `build_state` on the widget. */
  method GetState(w: RouterWidget) returns (s: RouterState)
    requires w.Valid()
    ensures s == BuildState(w.capabilities, w.Core())
  {
    if !w.capabilities.persistence {
      return DefaultState;
    }
    s := RouterState(w.router.history.Model(), w.urlPathOverride);
  }

  /** `apply_state` on the widget. */
  method ApplyState(w: RouterWidget, state: RouterState) returns (ok: bool)
    requires w.Valid()
    modifies w, w.router.history
    ensures w.Valid() && Keeps(w)
    ensures (w.Core(), ok) == StateApplied(old(w.Env()), old(w.Core()), state)
  {
    if !w.capabilities.persistence {
      w.lastBlockedReason := Some(CapabilityDisabled);
      return false;
    }
    var (stack, currentIndex) := Parts(state.history);
    var filtered, newCurrent := FilterRestored(stack, currentIndex, w.templates);
    if |filtered| == 0 {
      return false;
    }
    ok := RestoreKept(w, state.urlPathOverride, filtered, newCurrent);
  }

  /** The end of `apply_state` on the widget. */
  method RestoreKept(w: RouterWidget, urlPathOverride: Option<string>, filtered: seq<Route>, index: nat) returns (ok: bool)
    requires w.Valid() && |filtered| > 0
    modifies w, w.router.history
    ensures w.Valid() && Keeps(w)
    ensures (w.Core(), ok) == Restoration(old(w.Core()), urlPathOverride, filtered, index)
  {
    var oldId := w.router.CurrentRouteId();
    ClearUrlExtras(w);
    w.urlPathOverride := urlPathOverride;
    w.router.history.Restore(filtered, index);
    var newRoute := w.router.CurrentRoute();
    if newRoute.None? {
      return false;
    }
    w.activeRoute := newRoute.value.id;
    QueueRouteActions(w, Some(RouterAction.Reset(newRoute.value)), oldId, newRoute.value);
    ok := true;
  }
}
