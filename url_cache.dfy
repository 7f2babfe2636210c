/**
 * The widget's cache of parsed URLs (`src/widget/url_cache.rs`): at most
 * eight `(input, RouterUrl)` pairs, most recently used first. A hit moves
 * its pair to the front; a miss parses the input, puts the new pair in front
 * and drops the oldest pair beyond eight. The cache is transparent: the
 * value handed back is always `RouterUrl::parse(input)`.
 *
 * `RouterCaches` (`widget/fields.rs`) also carries the nested-prefix cache,
 * whose coherence with the registry is the widget's invariant.
 */
module UrlCache {
  import opened Wrappers
  import opened Url
  import opened WidgetTypes

  const MaxCachedUrls := 8

  /** Cache entries, most recently used first; the model keeps the value type generic. */
  type CacheEntries<V> = seq<(string, V)>

  /** The first position holding the input as its key. */
  function Position<V(==)>(c: CacheEntries<V>, input: string): (r: Option<nat>)
    ensures r.Some? ==> r.value < |c| && c[r.value].0 == input
    ensures r.Some? ==> forall j :: 0 <= j < r.value ==> c[j].0 != input
    ensures r.None? ==> forall j :: 0 <= j < |c| ==> c[j].0 != input
  {
    if |c| == 0 then None
    else if c[0].0 == input then Some(0)
    else match Position(c[1..], input)
      case None => None
      case Some(k) => Some(k + 1)
  }

  predicate DistinctKeys<V(==)>(c: CacheEntries<V>) {
    forall i, j :: 0 <= i < j < |c| ==> c[i].0 != c[j].0
  }

  /** Every cached value is what `compute` gives for its key. */
  predicate Agrees<V(==)>(c: CacheEntries<V>, compute: string -> V) {
    forall i :: 0 <= i < |c| ==> c[i].1 == compute(c[i].0)
  }

  predicate CacheOk<V(==)>(c: CacheEntries<V>, compute: string -> V) {
    |c| <= MaxCachedUrls && DistinctKeys(c) && Agrees(c, compute)
  }

  /** The entries after one lookup of `input`, and the value handed back; `computed` is what a miss computes. */
  function CachedAfter<V(==)>(c: CacheEntries<V>, input: string, computed: V): (r: (CacheEntries<V>, V))
    ensures |r.0| > 0 && r.0[0] == (input, r.1)
    ensures |c| <= MaxCachedUrls ==> |r.0| <= MaxCachedUrls
  {
    match Position(c, input)
    case Some(pos) => ([c[pos]] + c[..pos] + c[pos + 1..], c[pos].1)
    case None =>
      var grown := [(input, computed)] + c;
      (if |grown| > MaxCachedUrls then grown[..MaxCachedUrls] else grown, computed)
  }

  /**
   * A well-formed cache stays well formed after a lookup, and the lookup
   * returns exactly what computing the value afresh returns.
   */
  lemma CachedAfterOk<V>(c: CacheEntries<V>, input: string, compute: string -> V)
    requires CacheOk(c, compute)
    ensures CacheOk(CachedAfter(c, input, compute(input)).0, compute)
    ensures CachedAfter(c, input, compute(input)).1 == compute(input)
  {
    match Position(c, input)
    case Some(pos) => MoveToFrontOk(c, pos, compute);
    case None => PushFrontOk(c, input, compute);
  }

  /** Moving one entry of a well-formed cache to the front keeps it well formed. */
  lemma MoveToFrontOk<V>(c: CacheEntries<V>, pos: nat, compute: string -> V)
    requires CacheOk(c, compute) && pos < |c|
    ensures CacheOk([c[pos]] + c[..pos] + c[pos + 1..], compute)
  {
    var r := [c[pos]] + c[..pos] + c[pos + 1..];
    forall i, j | 0 <= i < j < |r|
      ensures r[i].0 != r[j].0
    {
      var a := if i == 0 then pos else if i <= pos then i - 1 else i;
      var b := if j == 0 then pos else if j <= pos then j - 1 else j;
      assert r[i] == c[a] && r[j] == c[b] && a != b;
    }
    forall i | 0 <= i < |r|
      ensures r[i].1 == compute(r[i].0)
    {
      var a := if i == 0 then pos else if i <= pos then i - 1 else i;
      assert r[i] == c[a];
    }
  }

  /** Putting a fresh key's computed entry in front of a well-formed cache, and dropping what goes beyond eight, keeps it well formed. */
  lemma PushFrontOk<V>(c: CacheEntries<V>, input: string, compute: string -> V)
    requires CacheOk(c, compute)
    requires forall j :: 0 <= j < |c| ==> c[j].0 != input
    ensures var grown := [(input, compute(input))] + c;
      CacheOk(if |grown| > MaxCachedUrls then grown[..MaxCachedUrls] else grown, compute)
  {
    var grown := [(input, compute(input))] + c;
    assert forall i :: 0 < i < |grown| ==> grown[i] == c[i - 1];
  }

  /** The first index holding the key is the one `Position` finds. */
  lemma PositionIsFirst<V>(c: CacheEntries<V>, input: string, pos: nat)
    requires pos < |c| && c[pos].0 == input
    requires forall j :: 0 <= j < pos ==> c[j].0 != input
    ensures Position(c, input) == Some(pos)
  {
  }

  /** The position search of `parse_url_cached`: the first index with the key, or the length when there is none. */
  method FindKey<V>(c: CacheEntries<V>, input: string) returns (pos: nat)
    ensures pos <= |c|
    ensures pos < |c| ==> Position(c, input) == Some(pos)
    ensures pos == |c| ==> Position(c, input).None?
  {
    pos := 0;
    while pos < |c| && c[pos].0 != input
      invariant pos <= |c|
      invariant forall j :: 0 <= j < pos ==> c[j].0 != input
    {
      pos := pos + 1;
    }
    if pos < |c| {
      PositionIsFirst(c, input, pos);
    }
  }

  /** A hit moves its pair to the front; the others keep their order and the length is unchanged. */
  lemma HitMovesToFront<V>(c: CacheEntries<V>, input: string, computed: V, pos: nat)
    requires Position(c, input) == Some(pos)
    ensures CachedAfter(c, input, computed).0 == [c[pos]] + c[..pos] + c[pos + 1..]
    ensures |CachedAfter(c, input, computed).0| == |c|
    ensures CachedAfter(c, input, computed).0[1..] == c[..pos] + c[pos + 1..]
  {
  }

  /** A miss puts the new pair in front, keeps the old pairs after it, and drops what goes beyond eight. */
  lemma MissInsertsInFront<V>(c: CacheEntries<V>, input: string, computed: V)
    requires Position(c, input).None?
    ensures CachedAfter(c, input, computed).0 == ([(input, computed)] + c)[..if |c| + 1 > MaxCachedUrls then MaxCachedUrls else |c| + 1]
  {
  }

  /** `RouterCaches`: the registry epoch, the one-entry nested-prefix cache and the URL parse cache. */
  class RouterCaches {
    var routeRegistryEpoch: nat
    var nestedPrefixCacheEpoch: nat
    var nestedPrefixCachePath: string
    var nestedPrefixCacheResult: Option<NestedHit>
    var urlParseCache: CacheEntries<RouterUrl>

    predicate Valid()
      reads this
    {
      CacheOk(urlParseCache, Parse)
    }

    /** `RouterCaches::default`. */
    constructor ()
      ensures Valid()
      ensures routeRegistryEpoch == 0 && nestedPrefixCacheEpoch == 0
      ensures nestedPrefixCachePath == "" && nestedPrefixCacheResult.None? && urlParseCache == []
    {
      routeRegistryEpoch, nestedPrefixCacheEpoch := 0, 0;
      nestedPrefixCachePath, nestedPrefixCacheResult := "", None;
      urlParseCache := [];
    }

    /** `parse_url_cached`: look the input up, moving a hit to the front or inserting a miss. */
    method ParseUrlCached(input: string) returns (u: RouterUrl)
      requires Valid()
      modifies this
      ensures Valid() && u == Parse(input)
      ensures urlParseCache == CachedAfter(old(urlParseCache), input, Parse(input)).0
      ensures routeRegistryEpoch == old(routeRegistryEpoch) && nestedPrefixCacheEpoch == old(nestedPrefixCacheEpoch)
      ensures nestedPrefixCachePath == old(nestedPrefixCachePath) && nestedPrefixCacheResult == old(nestedPrefixCacheResult)
    {
      var cache := urlParseCache;
      CachedAfterOk(cache, input, Parse);
      var pos := FindKey(cache, input);
      if pos < |cache| {
        urlParseCache := [cache[pos]] + cache[..pos] + cache[pos + 1..];
        return cache[pos].1;
      }
      var parsed := Parse(input);
      cache := [(input, parsed)] + cache;
      if |cache| > MaxCachedUrls {
        cache := cache[..MaxCachedUrls];
      }
      urlParseCache := cache;
      u := parsed;
    }
  }
}
