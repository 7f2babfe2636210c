/**
 * Nested routing (`crates/makepad-router-widgets/src/widget/nested.rs`):
 * the prefix resolution with its one-entry cache, handing the rest of a
 * path to a child router, and navigating along a chain of child routers.
 *
 * Child routers are other widgets; what a child answers when asked to
 * navigate is a parameter (`childAccepts`).
 */
module Nested {
  import opened Wrappers
  import opened Ids
  import opened Routes
  import opened Navigation
  import opened Registry
  import opened Routers
  import opened WidgetTypes
  import opened UrlCache
  import opened NestedSelect
  import opened CommitSpec
  import opened Widgets

  /** One more candidate extends the fold over the hits by one step. */
  lemma HitsStep(byId: map<LiveId, RouteEntry>, cands: seq<LiveId>, path: string, i: nat)
    requires i < |cands|
    ensures var h := CandidateHit(byId, cands[i], path);
      BestOf(HitsOf(byId, cands[..i + 1], path), None) ==
        (var best := BestOf(HitsOf(byId, cands[..i], path), None); if Beats(h, best) then h else best)
  {
    var hs := HitsOf(byId, cands[..i], path);
    var h := CandidateHit(byId, cands[i], path);
    HitsSnoc(byId, cands, path, i);
    BestOfAppend(hs, [h], None);
    BestOfOne(h, BestOf(hs, None));
  }

  lemma HitsSnoc(byId: map<LiveId, RouteEntry>, cands: seq<LiveId>, path: string, i: nat)
    requires i < |cands|
    ensures HitsOf(byId, cands[..i + 1], path) == HitsOf(byId, cands[..i], path) + [CandidateHit(byId, cands[i], path)]
  {
    assert cands[..i + 1] == cands[..i] + [cands[i]];
  }

  lemma BestOfOne(h: Option<NestedHit>, best: Option<NestedHit>)
    ensures BestOf([h], best) == if Beats(h, best) then h else best
  {
    assert [h][1..] == [];
  }

  /**
   * `resolve_nested_prefix`: nothing while nested routing is off; otherwise
   * the cached answer when the cache is current for this path, or else the
   * best prefix hit over the pattern ids followed by the child router ids,
   * which is then cached for this path and epoch. Either way the answer is
   * the nested tier's selection.
   */
  method ResolveNestedPrefix(w: RouterWidget, path: string) returns (r: Option<NestedHit>)
    requires w.Valid()
    modifies w.caches
    ensures w.Valid()
    ensures r == NestedPrefixOf(w.Env(), path)
    ensures w.capabilities.nested ==>
      w.caches.nestedPrefixCacheEpoch == w.caches.routeRegistryEpoch &&
      w.caches.nestedPrefixCachePath == path && w.caches.nestedPrefixCacheResult == r
    ensures !w.capabilities.nested ==> unchanged(w.caches)
    ensures w.caches.routeRegistryEpoch == old(w.caches.routeRegistryEpoch)
    ensures w.caches.urlParseCache == old(w.caches.urlParseCache)
  {
    if !w.capabilities.nested {
      return None;
    }
    var caches := w.caches;
    if caches.nestedPrefixCacheEpoch == caches.routeRegistryEpoch && caches.nestedPrefixCachePath == path {
      return caches.nestedPrefixCacheResult;
    }
    var byId := w.router.registry.byId;
    var cands := w.patternOrder + w.childRouters;
    var best: Option<NestedHit> := None;
    for i := 0 to |cands|
      invariant best == BestOf(HitsOf(byId, cands[..i], path), None)
      invariant unchanged(caches)
    {
      var hit := CandidateHit(byId, cands[i], path);
      HitsStep(byId, cands, path, i);
      if Beats(hit, best) {
        best := hit;
      }
    }
    assert cands[..|cands|] == cands;
    caches.nestedPrefixCacheEpoch := caches.routeRegistryEpoch;
    caches.nestedPrefixCachePath := path;
    caches.nestedPrefixCacheResult := best;
    r := best;
  }

  /**
   * `delegate_tail_to_child`: refused while nested routing is off; an empty
   * tail needs no child; otherwise the child router hosted by the parent
   * route, if there is one, decides.
   */
  function DelegateTailToChild(caps: Capabilities, childRouters: seq<LiveId>, parentId: LiveId, tail: string, childAccepts: bool): (ok: bool)
    ensures !caps.nested ==> !ok
    ensures caps.nested && tail == "" ==> ok
    ensures caps.nested && tail != "" ==> (ok <==> parentId in childRouters && childAccepts)
  {
    if !caps.nested then false
    else if tail == "" then true
    else parentId in childRouters && childAccepts
  }

  /** A tail is only delegated where a child router is registered under the parent route. */
  lemma DelegatedTailHasChild(caps: Capabilities, childRouters: seq<LiveId>, parentId: LiveId, tail: string, childAccepts: bool)
    requires DelegateTailToChild(caps, childRouters, parentId, tail, childAccepts) && tail != ""
    ensures caps.nested && parentId in childRouters
  {
  }

  /**
   * `navigate_nested`: refused with `CapabilityDisabled` while nested
   * routing is off. An empty chain pushes the route in this router when it
   * has a template for it, without queueing actions or touching the kept
   * unknown path; a non-empty chain is handed to the child router under
   * its first id, whose answer is returned.
   */
  method NavigateNested(w: RouterWidget, chain: seq<LiveId>, route: Route, childAccepts: bool) returns (ok: bool)
    requires w.Valid()
    modifies w, w.router.history
    ensures w.Valid() && Keeps(w)
    ensures !w.capabilities.nested ==> !ok && w.Core() == old(w.Core()).(lastBlocked := Some(CapabilityDisabled))
    ensures w.capabilities.nested && chain == [] ==> (ok <==> route.id in w.templates)
    ensures w.capabilities.nested && chain == [] && ok ==>
      w.Core() == old(w.Core()).(history := AfterPush(old(w.Core().history), route), activeRoute := route.id)
    ensures w.capabilities.nested && chain != [] ==> (ok <==> chain[0] in w.childRouters && childAccepts)
    ensures w.capabilities.nested && !(chain == [] && ok) ==> w.Core() == old(w.Core())
  {
    if !w.capabilities.nested {
      w.lastBlockedReason := Some(CapabilityDisabled);
      return false;
    }
    if chain == [] {
      if route.id in w.templates {
        PushHere(w, route);
        return true;
      }
      return false;
    }
    ok := chain[0] in w.childRouters && childAccepts;
  }

  /** The end of a nested chain: push the route in this router and make it active. */
  method PushHere(w: RouterWidget, route: Route)
    requires w.Valid()
    modifies w, w.router.history
    ensures w.Valid() && Keeps(w)
    ensures w.Core() == old(w.Core()).(history := AfterPush(old(w.Core().history), route), activeRoute := route.id)
  {
    w.router.Navigate(route);
    w.activeRoute := route.id;
  }
}
