/**
 * The selection rule of `resolve_nested_prefix`
 * (`crates/makepad-router-widgets/src/widget/nested.rs`): every candidate id
 * whose registry pattern prefix-matches the path is a hit, and the hit with
 * the smallest priority wins, the earliest one among equals, because only a
 * strictly smaller priority replaces the best so far.
 *
 * The fold is stated over the sequence of hits, so that the lemmas about it
 * do not depend on how a pattern matches.
 */
module NestedSelect {
  import opened Wrappers
  import opened Ids
  import opened Patterns
  import opened Registry
  import opened WidgetTypes

  /** The candidate's hit: its registry pattern, the parameters and the tail of a prefix match. */
  function CandidateHit(byId: map<LiveId, RouteEntry>, id: LiveId, path: string): (r: Option<NestedHit>)
    ensures r.Some? ==> r.value.routeId == id && PatternOfId(byId, id) == Some(r.value.pattern)
    ensures r.Some? <==> PatternOfId(byId, id).Some? && PrefixPath(PatternOfId(byId, id).value, path).Some?
  {
    match PatternOfId(byId, id)
    case None => None
    case Some(p) =>
      match PrefixPath(p, path)
      case None => None
      case Some(m) => Some(NestedHit(id, m.0, p, m.1))
  }

  function HitPriority(h: NestedHit): nat {
    Priority(h.pattern)
  }

  /** The hits of the candidates, in candidate order. */
  function HitsOf(byId: map<LiveId, RouteEntry>, cands: seq<LiveId>, path: string): (hs: seq<Option<NestedHit>>)
    ensures |hs| == |cands|
    ensures forall i :: 0 <= i < |cands| ==> hs[i] == CandidateHit(byId, cands[i], path)
  {
    seq(|cands|, i requires 0 <= i < |cands| => CandidateHit(byId, cands[i], path))
  }

  /** Whether a hit replaces the best so far: there is none yet, or the hit has a strictly smaller priority. */
  predicate Beats(h: Option<NestedHit>, best: Option<NestedHit>) {
    h.Some? && (best.None? || HitPriority(h.value) < HitPriority(best.value))
  }

  /** The loop of `resolve_nested_prefix`, continued from `best` over the remaining hits. */
  function BestOf(hs: seq<Option<NestedHit>>, best: Option<NestedHit>): Option<NestedHit>
    decreases |hs|
  {
    if |hs| == 0 then best
    else BestOf(hs[1..], if Beats(hs[0], best) then hs[0] else best)
  }

  /** What `resolve_nested_prefix` computes when nested routing is on and the cache misses. */
  function BestNested(byId: map<LiveId, RouteEntry>, cands: seq<LiveId>, path: string): Option<NestedHit> {
    BestOf(HitsOf(byId, cands, path), None)
  }

  /**
   * `best` is the selection over `hs`: none when nothing hits; otherwise the
   * hit at some position `k`, no heavier than any hit, and strictly lighter
   * than every hit before `k`.
   */
  ghost predicate IsBestOf(hs: seq<Option<NestedHit>>, best: Option<NestedHit>) {
    (best.None? ==> forall j :: 0 <= j < |hs| ==> hs[j].None?) &&
    (best.Some? ==> exists k :: 0 <= k < |hs| && hs[k] == best && EarliestLeast(hs, k))
  }

  ghost predicate EarliestLeast(hs: seq<Option<NestedHit>>, k: nat)
    requires k < |hs| && hs[k].Some?
  {
    (forall j :: 0 <= j < |hs| && hs[j].Some? ==> HitPriority(hs[k].value) <= HitPriority(hs[j].value)) &&
    (forall j :: 0 <= j < k && hs[j].Some? ==> HitPriority(hs[k].value) < HitPriority(hs[j].value))
  }

  /** One step of the fold keeps `IsBestOf` over the hits seen so far. */
  lemma BestStep(seen: seq<Option<NestedHit>>, h: Option<NestedHit>, best: Option<NestedHit>)
    requires IsBestOf(seen, best)
    ensures IsBestOf(seen + [h], if Beats(h, best) then h else best)
  {
    var s := seen + [h];
    if Beats(h, best) {
      var n := |seen|;
      assert s[n] == h;
      if best.Some? {
        var k :| 0 <= k < |seen| && seen[k] == best && EarliestLeast(seen, k);
        forall j | 0 <= j < |s| && s[j].Some?
          ensures HitPriority(s[n].value) <= HitPriority(s[j].value)
        {
          if j < n {
            assert HitPriority(seen[k].value) <= HitPriority(seen[j].value);
          }
        }
        assert EarliestLeast(s, n);
      } else {
        assert EarliestLeast(s, n);
      }
    } else if best.Some? {
      var k :| 0 <= k < |seen| && seen[k] == best && EarliestLeast(seen, k);
      assert s[k] == best;
      assert EarliestLeast(s, k);
    }
  }

  /** The fold ends with the selection over everything seen. */
  lemma {:induction false} BestOfSpec(seen: seq<Option<NestedHit>>, rest: seq<Option<NestedHit>>, best: Option<NestedHit>)
    requires IsBestOf(seen, best)
    ensures IsBestOf(seen + rest, BestOf(rest, best))
    decreases |rest|
  {
    if |rest| > 0 {
      var next := if Beats(rest[0], best) then rest[0] else best;
      BestStep(seen, rest[0], best);
      assert (seen + [rest[0]]) + rest[1..] == seen + rest;
      BestOfSpec(seen + [rest[0]], rest[1..], next);
    } else {
      assert seen + rest == seen;
    }
  }

  /**
   * The nested selection is empty exactly when no candidate hits; otherwise it
   * is the hit of some candidate `k` whose priority is the least of all hits,
   * and every earlier hit has a strictly larger priority (ties go to the first).
   */
  lemma BestNestedIsLeast(byId: map<LiveId, RouteEntry>, cands: seq<LiveId>, path: string)
    ensures var hs, r := HitsOf(byId, cands, path), BestNested(byId, cands, path);
      (r.None? <==> forall j :: 0 <= j < |hs| ==> hs[j].None?) &&
      (r.Some? ==>
        exists k :: 0 <= k < |hs| && hs[k] == r &&
          (forall j :: 0 <= j < |hs| && hs[j].Some? ==> HitPriority(r.value) <= HitPriority(hs[j].value)) &&
          (forall j :: 0 <= j < k && hs[j].Some? ==> HitPriority(r.value) < HitPriority(hs[j].value)))
  {
    var hs := HitsOf(byId, cands, path);
    BestOfIsLeast(hs);
    var r := BestOf(hs, None);
    if r.Some? {
      var k :| 0 <= k < |hs| && hs[k] == r && EarliestLeast(hs, k);
    }
  }

  /** The fold from nothing is the selection over all the hits. */
  lemma BestOfIsLeast(hs: seq<Option<NestedHit>>)
    ensures IsBestOf(hs, BestOf(hs, None))
  {
    BestOfSpec([], hs, None);
    assert [] + hs == hs;
  }

  /** Folding over a concatenation is folding over the second part from the result of the first. */
  lemma {:induction false} BestOfAppend(a: seq<Option<NestedHit>>, b: seq<Option<NestedHit>>, best: Option<NestedHit>)
    ensures BestOf(a + b, best) == BestOf(b, BestOf(a, best))
    decreases |a|
  {
    if |a| > 0 {
      assert (a + b)[1..] == a[1..] + b;
      BestOfAppend(a[1..], b, if Beats(a[0], best) then a[0] else best);
    } else {
      assert a + b == b;
    }
  }

  /** Hits that repeat a hit already seen never replace the selection. */
  lemma {:induction false} RepeatedHitsKeep(seen: seq<Option<NestedHit>>, more: seq<Option<NestedHit>>, best: Option<NestedHit>)
    requires IsBestOf(seen, best)
    requires forall i :: 0 <= i < |more| ==> more[i].None? || more[i] in seen
    ensures BestOf(more, best) == best
    decreases |more|
  {
    if |more| > 0 {
      if more[0].Some? {
        var j :| 0 <= j < |seen| && seen[j] == more[0];
        if best.Some? {
          var k :| 0 <= k < |seen| && seen[k] == best && EarliestLeast(seen, k);
          assert HitPriority(best.value) <= HitPriority(seen[j].value);
        }
      }
      RepeatedHitsKeep(seen, more[1..], best);
    }
  }

  /**
   * Appending candidate ids that are already candidates, or that have no
   * pattern, leaves the selection unchanged. Child routers are chained after
   * the pattern ids, and registering one does not invalidate the cache: this
   * is why that is harmless while every patterned id is a pattern id.
   */
  lemma ExtraCandidatesKeep(byId: map<LiveId, RouteEntry>, cands: seq<LiveId>, extra: seq<LiveId>, path: string)
    requires forall i :: 0 <= i < |extra| ==> extra[i] in cands || PatternOfId(byId, extra[i]).None?
    ensures BestNested(byId, cands + extra, path) == BestNested(byId, cands, path)
  {
    var hs := HitsOf(byId, cands, path);
    var xs := HitsOf(byId, extra, path);
    HitsAppend(byId, cands, extra, path);
    BestOfAppend(hs, xs, None);
    BestOfSpec([], hs, None);
    assert [] + hs == hs;
    ExtraHitsSeen(byId, cands, extra, path);
    RepeatedHitsKeep(hs, xs, BestOf(hs, None));
  }

  lemma HitsAppend(byId: map<LiveId, RouteEntry>, cands: seq<LiveId>, extra: seq<LiveId>, path: string)
    ensures HitsOf(byId, cands + extra, path) == HitsOf(byId, cands, path) + HitsOf(byId, extra, path)
  {
  }

  /** The hits of extra ids that are already candidates, or have no pattern, are hits already seen or none. */
  lemma ExtraHitsSeen(byId: map<LiveId, RouteEntry>, cands: seq<LiveId>, extra: seq<LiveId>, path: string)
    requires forall i :: 0 <= i < |extra| ==> extra[i] in cands || PatternOfId(byId, extra[i]).None?
    ensures forall i :: 0 <= i < |extra| ==> HitsOf(byId, extra, path)[i].None? || HitsOf(byId, extra, path)[i] in HitsOf(byId, cands, path)
  {
    var hs := HitsOf(byId, cands, path);
    var xs := HitsOf(byId, extra, path);
    forall i | 0 <= i < |xs|
      ensures xs[i].None? || xs[i] in hs
    {
      if xs[i].Some? {
        var j :| 0 <= j < |cands| && cands[j] == extra[i];
        assert hs[j] == xs[i];
      }
    }
  }
}
