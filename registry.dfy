/**
 * Route registry (`crates/makepad-router-core/src/registry.rs`): patterns
 * registered by id, kept in a priority-sorted list, with lookup indices
 * rebuilt after every registration, and path resolution through those
 * indices in a fixed order of tiers.
 *
 * The indices are specified as functions of the sorted list (`ExactOf`,
 * `BucketMap`, `Where`); the resolution is specified by `Resolve`, and the
 * lemmas at the end state what it means in terms of the entries alone.
 */
module Registry {
  import opened Wrappers
  import opened Text
  import opened Ids
  import opened Patterns
  import opened Routes
  import opened Normalize

  /** `RouteEntry`. */
  datatype RouteEntry = RouteEntry(routeId: LiveId, pattern: Option<RoutePattern>, priority: nat)

  /** `first_segment`: the text up to the next `/` after one leading `/`. */
  function FirstSegment(path: string): (r: string)
    ensures '/' !in r
    ensures |r| <= |StripPrefixChar(path, '/')| && r == StripPrefixChar(path, '/')[..|r|]
    ensures |r| < |StripPrefixChar(path, '/')| ==> StripPrefixChar(path, '/')[|r|] == '/'
  {
    var trimmed := StripPrefixChar(path, '/');
    if trimmed == "" then ""
    else match Find(trimmed, '/')
      case Some(pos) => trimmed[..pos]
      case None => trimmed
  }

  /* --------------------------------------------------------- the indices */

  predicate IsWildcard(seg: RouteSegment) {
    seg == WildcardSingle || seg == WildcardMulti
  }

  predicate HasWildcard(segs: seq<RouteSegment>) {
    exists i :: 0 <= i < |segs| && IsWildcard(segs[i])
  }

  predicate AllStatic(segs: seq<RouteSegment>) {
    forall i :: 0 <= i < |segs| ==> segs[i].Static?
  }

  /** The index an entry goes to: exactly one of them. */
  datatype IndexKind = ByFirstSegment(first: string) | FallbackDynamic | FallbackWildcard | NotIndexed

  function KindOf(e: RouteEntry): IndexKind {
    match e.pattern
    case None => NotIndexed
    case Some(p) =>
      if |p.segments| > 0 && p.segments[0].Static? then ByFirstSegment(p.segments[0].text)
      else if HasWildcard(p.segments) then FallbackWildcard
      else FallbackDynamic
  }

  /** The positions of the entries of one kind, in order. */
  function Where(es: seq<RouteEntry>, k: IndexKind): seq<nat>
    decreases |es|
  {
    if |es| == 0 then []
    else Where(es[..|es| - 1], k) + (if KindOf(es[|es| - 1]) == k then [|es| - 1] else [])
  }

  /** `by_first_segment` as `rebuild_indices` fills it. */
  function BucketMap(es: seq<RouteEntry>): map<string, seq<nat>>
    decreases |es|
  {
    if |es| == 0 then map[]
    else
      var m := BucketMap(es[..|es| - 1]);
      match KindOf(es[|es| - 1])
      case ByFirstSegment(f) => m[f := (if f in m then m[f] else []) + [|es| - 1]]
      case _ => m
  }

  /** The path `/s1/s2/...` of an all-static pattern; `/` for no segments. */
  function StaticPath(segs: seq<RouteSegment>): (r: string)
    requires AllStatic(segs)
    ensures |r| > 0 && r[0] == '/'
  {
    "/" + Join(seq(|segs|, i requires 0 <= i < |segs| => segs[i].text), '/')
  }

  /** The entry is all-static with exactly this path. */
  predicate IsExact(e: RouteEntry, path: string) {
    e.pattern.Some? && AllStatic(e.pattern.value.segments) && StaticPath(e.pattern.value.segments) == path
  }

  /** `exact_static` as `rebuild_indices` fills it: the earliest entry wins a path. */
  function ExactOf(es: seq<RouteEntry>): map<string, LiveId>
    decreases |es|
  {
    if |es| == 0 then map[]
    else
      var m := ExactOf(es[..|es| - 1]);
      var e := es[|es| - 1];
      if e.pattern.Some? && AllStatic(e.pattern.value.segments) && StaticPath(e.pattern.value.segments) !in m then
        m[StaticPath(e.pattern.value.segments) := e.routeId]
      else m
  }

  /** The first entry that is all-static with the given path. */
  function FirstExact(es: seq<RouteEntry>, path: string): (r: Option<nat>)
    ensures r.Some? ==> r.value < |es| && IsExact(es[r.value], path) && forall j :: 0 <= j < r.value ==> !IsExact(es[j], path)
    ensures r.None? ==> forall j :: 0 <= j < |es| ==> !IsExact(es[j], path)
    decreases |es|
  {
    if |es| == 0 then None
    else
      var init := es[..|es| - 1];
      match FirstExact(init, path)
      case Some(i) => Some(i)
      case None => if IsExact(es[|es| - 1], path) then Some(|es| - 1) else None
  }

  /** Ascending priorities: the order of `by_pattern`. */
  predicate Sorted(es: seq<RouteEntry>) {
    forall i, j :: 0 <= i < j < |es| ==> es[i].priority <= es[j].priority
  }

  /** `position(|e| e.priority > priority)`, or the length when there is none. */
  function InsertPos(es: seq<RouteEntry>, priority: nat): (pos: nat)
    ensures pos <= |es|
    ensures forall j :: 0 <= j < pos ==> es[j].priority <= priority
    ensures pos < |es| ==> es[pos].priority > priority
    decreases |es|
  {
    if |es| == 0 || es[0].priority > priority then 0 else 1 + InsertPos(es[1..], priority)
  }

  /** `by_pattern.insert(pos, entry)`. */
  function Inserted(es: seq<RouteEntry>, e: RouteEntry): seq<RouteEntry> {
    var pos := InsertPos(es, e.priority);
    es[..pos] + [e] + es[pos..]
  }

  /* ------------------------------------------------------------ resolving */

  /** The entry has a pattern, and that pattern matches the path. */
  predicate EntryHits(e: RouteEntry, path: string) {
    e.pattern.Some? && MatchPath(e.pattern.value, path).Some?
  }

  /** Which entries hit the path, position by position. */
  function Hits(es: seq<RouteEntry>, path: string): (v: seq<bool>)
    ensures |v| == |es|
    ensures forall i :: 0 <= i < |es| ==> v[i] == EntryHits(es[i], path)
  {
    seq(|es|, i requires 0 <= i < |es| => EntryHits(es[i], path))
  }

  /** The first candidate that is a position with a hit, scanning the list in order. */
  function FirstHit(v: seq<bool>, cands: seq<nat>): (r: Option<nat>)
    ensures r.Some? ==> r.value in cands && r.value < |v| && v[r.value]
    ensures r.None? ==> forall i :: 0 <= i < |cands| ==> cands[i] >= |v| || !v[cands[i]]
    decreases |cands|
  {
    if |cands| == 0 then None
    else if cands[0] < |v| && v[cands[0]] then Some(cands[0])
    else FirstHit(v, cands[1..])
  }

  /** The route built from a hit: the pattern's parameters, no query, no hash. */
  function HitRoute(es: seq<RouteEntry>, idx: nat, path: string): Route
    requires idx < |es| && EntryHits(es[idx], path)
  {
    Route(es[idx].routeId, MatchPath(es[idx].pattern.value, path).value, EmptyQuery, "", es[idx].pattern)
  }

  function PatternOfId(byId: map<LiveId, RouteEntry>, id: LiveId): Option<RoutePattern> {
    if id in byId then byId[id].pattern else None
  }

  function TierRoute(es: seq<RouteEntry>, cands: seq<nat>, path: string): Option<Route> {
    match FirstHit(Hits(es, path), cands)
    case Some(i) => Some(HitRoute(es, i, path))
    case None => None
  }

  /** The candidate list of the path's first segment, empty when there is no bucket. */
  function Bucket(buckets: map<string, seq<nat>>, first: string): seq<nat> {
    if first in buckets then buckets[first] else []
  }

  /** What `resolve_path` returns for an already normalized path. */
  function ResolveNormalized(byId: map<LiveId, RouteEntry>, es: seq<RouteEntry>, n: string): Option<Route> {
    var exact := ExactOf(es);
    if n in exact then Some(Route(exact[n], EmptyParams, EmptyQuery, "", PatternOfId(byId, exact[n])))
    else
      var r1 := TierRoute(es, Bucket(BucketMap(es), FirstSegment(n)), n);
      if r1.Some? then r1
      else
        var r2 := TierRoute(es, Where(es, FallbackDynamic), n);
        if r2.Some? then r2
        else TierRoute(es, Where(es, FallbackWildcard), n)
  }

  /** What `resolve_path` returns. */
  function Resolve(byId: map<LiveId, RouteEntry>, es: seq<RouteEntry>, path: string): Option<Route> {
    ResolveNormalized(byId, es, NormalizedPath(path))
  }

  /* ---------------------------------------------------------------- class */

  /** `RouteRegistry`; the per-entry metadata list, read only by a debug assertion, is not modelled. */
  class RouteRegistry {
    var byId: map<LiveId, RouteEntry>
    var byPattern: seq<RouteEntry>
    var exactStatic: map<string, LiveId>
    var byFirstSegment: map<string, seq<nat>>
    var fallbackDynamic: seq<nat>
    var fallbackWildcard: seq<nat>

    /** The indices agree with the sorted list, whose ids are all registered. */
    predicate Valid()
      reads this
    {
      Sorted(byPattern) &&
      (forall i :: 0 <= i < |byPattern| ==> byPattern[i].routeId in byId) &&
      IndicesOk()
    }

    predicate IndicesOk()
      reads this
    {
      exactStatic == ExactOf(byPattern) &&
      byFirstSegment == BucketMap(byPattern) &&
      fallbackDynamic == Where(byPattern, FallbackDynamic) &&
      fallbackWildcard == Where(byPattern, FallbackWildcard)
    }

    /** `RouteRegistry::new`. */
    constructor ()
      ensures Valid() && byId == map[] && byPattern == []
    {
      byId, byPattern := map[], [];
      exactStatic, byFirstSegment := map[], map[];
      fallbackDynamic, fallbackWildcard := [], [];
    }

    /** `has_route`. */
    predicate HasRoute(id: LiveId)
      reads this
    {
      id in byId
    }

    /** `get_pattern`. */
    function GetPattern(id: LiveId): Option<RoutePattern>
      reads this
    {
      PatternOfId(byId, id)
    }

    /** `register_by_id`: an entry without a pattern, outside the sorted list; the indices are not rebuilt. */
    method RegisterById(id: LiveId)
      requires Valid()
      modifies this
      ensures Valid()
      ensures byId == old(byId)[id := RouteEntry(id, None, 0)]
      ensures byPattern == old(byPattern)
    {
      byId := byId[id := RouteEntry(id, None, 0)];
    }

    /**
     * `register_pattern`: a malformed pattern changes nothing; otherwise the
     * id's entry is overwritten, the entry is inserted after every entry of
     * no greater priority (an older entry of the same id stays in the list),
     * and the indices are rebuilt.
     */
    method RegisterPattern(text: string, id: LiveId) returns (r: Result<(), PatternError>)
      requires Valid()
      modifies this
      ensures Valid()
      ensures r.Ok? <==> ParsePattern(text).Ok?
      ensures r.Err? ==> r.error == ParsePattern(text).error && unchanged(this)
      ensures r.Ok? ==> var e := RouteEntry(id, Some(ParsePattern(text).value), Priority(ParsePattern(text).value));
        byId == old(byId)[id := e] && byPattern == Inserted(old(byPattern), e)
      ensures r.Ok? ==> HasRoute(id) && GetPattern(id) == Some(ParsePattern(text).value)
    {
      var parsed := Parse(text);
      if parsed.Err? {
        return Err(parsed.error);
      }
      var pattern := parsed.value;
      var priority := Priority(pattern);
      var entry := RouteEntry(id, Some(pattern), priority);
      var pos := FindInsertPos(byPattern, priority);
      InsertedSorted(byPattern, entry);
      InsertedRegistered(byId, byPattern, entry);
      byId := byId[id := entry];
      byPattern := byPattern[..pos] + [entry] + byPattern[pos..];
      RebuildIndices();
      r := Ok(());
    }

    /** `rebuild_indices`: clear the four indices and refill them entry by entry. */
    method RebuildIndices()
      modifies this
      ensures IndicesOk()
      ensures byId == old(byId) && byPattern == old(byPattern)
    {
      exactStatic, byFirstSegment := map[], map[];
      fallbackDynamic, fallbackWildcard := [], [];
      var i := 0;
      while i < |byPattern|
        invariant byId == old(byId) && byPattern == old(byPattern)
        invariant i <= |byPattern|
        invariant exactStatic == ExactOf(byPattern[..i])
        invariant byFirstSegment == BucketMap(byPattern[..i])
        invariant fallbackDynamic == Where(byPattern[..i], FallbackDynamic)
        invariant fallbackWildcard == Where(byPattern[..i], FallbackWildcard)
      {
        var entry := byPattern[i];
        IndicesStep(byPattern, i);
        if entry.pattern.None? {
          i := i + 1;
          continue;
        }
        var segs := entry.pattern.value.segments;
        var hasWildcard := HasWildcard(segs);
        if AllStatic(segs) {
          var path := BuildStaticPath(segs);
          if path !in exactStatic {
            exactStatic := exactStatic[path := entry.routeId];
          }
        }
        if |segs| > 0 && segs[0].Static? {
          var first := segs[0].text;
          byFirstSegment := byFirstSegment[first := (if first in byFirstSegment then byFirstSegment[first] else []) + [i]];
        } else if hasWildcard {
          fallbackWildcard := fallbackWildcard + [i];
        } else {
          fallbackDynamic := fallbackDynamic + [i];
        }
        i := i + 1;
      }
      assert byPattern[..i] == byPattern;
    }

    /** `resolve_path`: exact static map, then the first-segment bucket, then the two fallbacks; the first hit wins. */
    method ResolvePath(path: string) returns (r: Option<Route>)
      requires Valid()
      ensures r == Resolve(byId, byPattern, path)
    {
      var n := NormalizePath(path);
      if n in exactStatic {
        var id := exactStatic[n];
        var pattern := if id in byId then byId[id].pattern else None;
        return Some(Route(id, EmptyParams, EmptyQuery, "", pattern));
      }
      var first := FirstSegment(n);
      if first in byFirstSegment {
        r := ScanCandidates(byFirstSegment[first], n);
        if r.Some? {
          return;
        }
      }
      r := ScanCandidates(fallbackDynamic, n);
      if r.Some? {
        return;
      }
      r := ScanCandidates(fallbackWildcard, n);
    }

    /** One tier of `resolve_path`: skip stale indices and pattern-less entries, return the first match. */
    method ScanCandidates(cands: seq<nat>, n: string) returns (r: Option<Route>)
      ensures r == TierRoute(byPattern, cands, n)
    {
      ghost var v := Hits(byPattern, n);
      var j := 0;
      while j < |cands|
        invariant j <= |cands|
        invariant FirstHit(v, cands) == FirstHit(v, cands[j..])
      {
        assert cands[j..][1..] == cands[j + 1..];
        var idx := cands[j];
        if idx >= |byPattern| || byPattern[idx].pattern.None? {
          j := j + 1;
          continue;
        }
        var pattern := byPattern[idx].pattern.value;
        var params := Matches(pattern, n);
        if params.Some? {
          return Some(Route(byPattern[idx].routeId, params.value, EmptyQuery, "", Some(pattern)));
        }
        j := j + 1;
      }
      r := None;
    }
  }

  /** `position(|e| e.priority > priority).unwrap_or(len)` over the sorted list. */
  method FindInsertPos(es: seq<RouteEntry>, priority: nat) returns (pos: nat)
    ensures pos == InsertPos(es, priority)
  {
    pos := 0;
    while pos < |es| && !(es[pos].priority > priority)
      invariant pos <= |es|
      invariant InsertPos(es, priority) == pos + InsertPos(es[pos..], priority)
    {
      assert es[pos..][1..] == es[pos + 1..];
      pos := pos + 1;
    }
  }

  /** After registering `e`, every entry of the list with `e` inserted has a registered id. */
  lemma InsertedRegistered(byId: map<LiveId, RouteEntry>, es: seq<RouteEntry>, e: RouteEntry)
    requires forall i :: 0 <= i < |es| ==> es[i].routeId in byId
    ensures forall i :: 0 <= i < |Inserted(es, e)| ==> Inserted(es, e)[i].routeId in byId[e.routeId := e]
  {
    InsertedLayout(es, e);
  }

  /** Indexing one more entry: each index grows by what the entry contributes to it. */
  lemma IndicesStep(es: seq<RouteEntry>, i: nat)
    requires i < |es|
    ensures var e, m := es[i], ExactOf(es[..i]);
      ExactOf(es[..i + 1]) ==
        if e.pattern.Some? && AllStatic(e.pattern.value.segments) && StaticPath(e.pattern.value.segments) !in m
        then m[StaticPath(e.pattern.value.segments) := e.routeId] else m
    ensures var b := BucketMap(es[..i]);
      BucketMap(es[..i + 1]) ==
        if KindOf(es[i]).ByFirstSegment? then b[KindOf(es[i]).first := Bucket(b, KindOf(es[i]).first) + [i]] else b
    ensures forall k :: Where(es[..i + 1], k) == Where(es[..i], k) + (if KindOf(es[i]) == k then [i] else [])
  {
    assert es[..i + 1][..i] == es[..i];
  }

  /** The loop that writes an all-static pattern's path, one `/` before each segment. */
  method BuildStaticPath(segs: seq<RouteSegment>) returns (path: string)
    requires AllStatic(segs)
    ensures path == StaticPath(segs)
  {
    ghost var texts := seq(|segs|, i requires 0 <= i < |segs| => segs[i].text);
    path := "/";
    var i := 0;
    while i < |segs|
      invariant i <= |segs|
      invariant path == "/" + Join(texts[..i], '/')
    {
      JoinAppend(texts[..i], texts[i], '/');
      assert texts[..i + 1] == texts[..i] + [texts[i]];
      if i > 0 {
        path := path + "/";
      }
      path := path + segs[i].text;
      i := i + 1;
    }
    assert texts[..i] == texts;
  }

  /* -------------------------------------------------------------- lemmas */

  /** Inserting at `InsertPos` keeps the list sorted. */
  lemma InsertedSorted(es: seq<RouteEntry>, e: RouteEntry)
    requires Sorted(es)
    ensures Sorted(Inserted(es, e))
  {
    var pos := InsertPos(es, e.priority);
    var r := Inserted(es, e);
    InsertedLayout(es, e);
    forall a, b | 0 <= a < b < |r| ensures r[a].priority <= r[b].priority {
      if b < pos {
      } else if b == pos {
      } else if a < pos {
      } else if a == pos {
        assert es[pos].priority <= es[b - 1].priority;
      } else {
      }
    }
  }

  /**
   * The inserted entry lands after every entry of no greater priority and
   * before every entry of greater priority; the others keep their order.
   */
  lemma InsertedLayout(es: seq<RouteEntry>, e: RouteEntry)
    ensures var pos := InsertPos(es, e.priority);
      |Inserted(es, e)| == |es| + 1 && Inserted(es, e)[pos] == e &&
      (forall j :: 0 <= j < pos ==> Inserted(es, e)[j] == es[j] && es[j].priority <= e.priority) &&
      (forall j :: pos < j <= |es| ==> Inserted(es, e)[j] == es[j - 1])
  {
  }

  /** `Where` lists exactly the positions of entries of that kind, in ascending order. */
  lemma {:induction false} WhereSpec(es: seq<RouteEntry>, k: IndexKind)
    ensures forall i :: i in Where(es, k) <==> 0 <= i < |es| && KindOf(es[i]) == k
    ensures forall a, b :: 0 <= a < b < |Where(es, k)| ==> Where(es, k)[a] < Where(es, k)[b]
    decreases |es|
  {
    if |es| > 0 {
      var init := es[..|es| - 1];
      WhereSpec(init, k);
      assert forall i :: 0 <= i < |init| ==> init[i] == es[i];
      var w := Where(init, k);
      forall a | 0 <= a < |w| ensures w[a] < |init| {
        assert w[a] in w;
      }
    }
  }

  /**
   * Every entry with a pattern sits in exactly one index: the bucket of its
   * first segment when that is static, otherwise the wildcard fallback when
   * it has a wildcard, otherwise the dynamic fallback.
   */
  lemma IndexedOnce(es: seq<RouteEntry>, i: nat)
    requires i < |es| && es[i].pattern.Some?
    ensures var segs := es[i].pattern.value.segments;
      (i in Where(es, FallbackDynamic) <==> (|segs| == 0 || !segs[0].Static?) && !HasWildcard(segs)) &&
      (i in Where(es, FallbackWildcard) <==> (|segs| == 0 || !segs[0].Static?) && HasWildcard(segs)) &&
      (forall f :: i in Bucket(BucketMap(es), f) <==> |segs| > 0 && segs[0] == Static(f))
  {
    WhereSpec(es, FallbackDynamic);
    WhereSpec(es, FallbackWildcard);
    forall f ensures i in Bucket(BucketMap(es), f) <==> |es[i].pattern.value.segments| > 0 && es[i].pattern.value.segments[0] == Static(f) {
      BucketMapSpec(es, f);
      WhereSpec(es, ByFirstSegment(f));
    }
  }

  /** A first-segment bucket exists exactly when some entry has that first segment, and holds those entries' positions. */
  lemma {:induction false} BucketMapSpec(es: seq<RouteEntry>, f: string)
    ensures Bucket(BucketMap(es), f) == Where(es, ByFirstSegment(f))
    ensures f in BucketMap(es) ==> |BucketMap(es)[f]| > 0
    decreases |es|
  {
    if |es| > 0 {
      BucketMapSpec(es[..|es| - 1], f);
    }
  }

  /** For duplicate all-static paths the exact map keeps the earliest entry's id. */
  lemma {:induction false} ExactOfSpec(es: seq<RouteEntry>, path: string)
    ensures path in ExactOf(es) <==> FirstExact(es, path).Some?
    ensures path in ExactOf(es) ==> ExactOf(es)[path] == es[FirstExact(es, path).value].routeId
    decreases |es|
  {
    if |es| > 0 {
      var init := es[..|es| - 1];
      ExactOfSpec(init, path);
      if FirstExact(init, path).Some? {
        assert init[FirstExact(init, path).value] == es[FirstExact(init, path).value];
      }
    }
  }

  /** The least position among the first `|es|` whose entry is of kind `k` and which has a hit. */
  function LeastHit(v: seq<bool>, es: seq<RouteEntry>, k: IndexKind): (r: Option<nat>)
    requires |es| <= |v|
    ensures r.Some? ==> r.value < |es| && KindOf(es[r.value]) == k && v[r.value]
    ensures r.Some? ==> forall j :: 0 <= j < r.value && KindOf(es[j]) == k ==> !v[j]
    ensures r.None? ==> forall j :: 0 <= j < |es| && KindOf(es[j]) == k ==> !v[j]
    decreases |es|
  {
    if |es| == 0 then None
    else
      var init := es[..|es| - 1];
      assert forall j :: 0 <= j < |init| ==> init[j] == es[j];
      match LeastHit(v, init, k)
      case Some(i) => Some(i)
      case None => if KindOf(es[|es| - 1]) == k && v[|es| - 1] then Some(|es| - 1) else None
  }

  lemma {:induction false} FirstHitAppend(v: seq<bool>, a: seq<nat>, b: seq<nat>)
    ensures FirstHit(v, a + b) == if FirstHit(v, a).Some? then FirstHit(v, a) else FirstHit(v, b)
    decreases |a|
  {
    if |a| > 0 {
      assert (a + b)[0] == a[0];
      assert (a + b)[1..] == a[1..] + b;
      FirstHitAppend(v, a[1..], b);
    } else {
      assert a + b == b;
    }
  }

  /** Scanning a tier's list finds the least-positioned hit of that kind. */
  lemma {:induction false} FirstHitIsLeast(v: seq<bool>, es: seq<RouteEntry>, k: IndexKind)
    requires |es| <= |v|
    ensures FirstHit(v, Where(es, k)) == LeastHit(v, es, k)
    decreases |es|
  {
    if |es| > 0 {
      var init := es[..|es| - 1];
      var tail := if KindOf(es[|es| - 1]) == k then [|es| - 1] else [];
      FirstHitIsLeast(v, init, k);
      FirstHitAppend(v, Where(init, k), tail);
      if tail != [] {
        assert tail[1..] == [];
      }
    }
  }

  /** Within a tier, the entry found has the least priority among those that match. */
  lemma LeastHitIsBest(v: seq<bool>, es: seq<RouteEntry>, k: IndexKind, j: nat)
    requires |es| <= |v| && Sorted(es)
    requires LeastHit(v, es, k).Some?
    requires j < |es| && KindOf(es[j]) == k && v[j]
    ensures es[LeastHit(v, es, k).value].priority <= es[j].priority
  {
  }

  /**
   * `resolve_path` on a normalized path, stated on the entries alone: the
   * earliest all-static entry with exactly this path; otherwise the earliest
   * matching entry whose first segment is the path's first segment; otherwise
   * the earliest matching entry of the dynamic fallback; otherwise of the
   * wildcard fallback; otherwise nothing.
   */
  lemma ResolveTiers(byId: map<LiveId, RouteEntry>, es: seq<RouteEntry>, n: string)
    ensures var r := ResolveNormalized(byId, es, n);
      var v := Hits(es, n);
      var first := ByFirstSegment(FirstSegment(n));
      match FirstExact(es, n)
      case Some(i) => r == Some(Route(es[i].routeId, EmptyParams, EmptyQuery, "", PatternOfId(byId, es[i].routeId)))
      case None =>
        if LeastHit(v, es, first).Some? then r == Some(HitRoute(es, LeastHit(v, es, first).value, n))
        else if LeastHit(v, es, FallbackDynamic).Some? then r == Some(HitRoute(es, LeastHit(v, es, FallbackDynamic).value, n))
        else if LeastHit(v, es, FallbackWildcard).Some? then r == Some(HitRoute(es, LeastHit(v, es, FallbackWildcard).value, n))
        else r.None?
  {
    var v := Hits(es, n);
    ExactOfSpec(es, n);
    BucketMapSpec(es, FirstSegment(n));
    FirstHitIsLeast(v, es, ByFirstSegment(FirstSegment(n)));
    FirstHitIsLeast(v, es, FallbackDynamic);
    FirstHitIsLeast(v, es, FallbackWildcard);
  }

  /** A resolved route names a registered id; unless it came from the exact map, its parameters are its pattern's match of the path. */
  lemma ResolvedIsRegistered(byId: map<LiveId, RouteEntry>, es: seq<RouteEntry>, n: string)
    requires forall i :: 0 <= i < |es| ==> es[i].routeId in byId
    requires ResolveNormalized(byId, es, n).Some?
    ensures ResolveNormalized(byId, es, n).value.id in byId
    ensures n !in ExactOf(es) ==> var r := ResolveNormalized(byId, es, n).value;
      r.pattern.Some? && MatchPath(r.pattern.value, n) == Some(r.params)
  {
    ExactOfSpec(es, n);
    if n !in ExactOf(es) {
      TierRouteMatches(byId, es, Bucket(BucketMap(es), FirstSegment(n)), n);
      TierRouteMatches(byId, es, Where(es, FallbackDynamic), n);
      TierRouteMatches(byId, es, Where(es, FallbackWildcard), n);
    }
  }

  /** A route one tier finds names a registered id, and carries its pattern's match of the path. */
  lemma TierRouteMatches(byId: map<LiveId, RouteEntry>, es: seq<RouteEntry>, cands: seq<nat>, n: string)
    requires forall i :: 0 <= i < |es| ==> es[i].routeId in byId
    ensures TierRoute(es, cands, n).Some? ==> var r := TierRoute(es, cands, n).value;
      r.id in byId && r.pattern.Some? && MatchPath(r.pattern.value, n) == Some(r.params)
  {
  }
}
