# makepad_router, modelled in Dafny

This project models the headless core of `makepad_router`, a router for
Makepad applications, and proves properties of that model. The model covers
these parts:

- **Route matching** (`crates/makepad-router-core`):
  - the route pattern language: static, dynamic (`:name`), single (`*`) and
    catch-all (`**`) segments;
  - the small-map parameter store and `RouteParams`;
  - `Route` values;
  - the `NavigationHistory` stack with its current index;
  - the `RouteRegistry`, which resolves a path first through a static-path
    table and then through patterns ordered by specificity;
  - `normalize_path`;
  - the headless `Router`.
- **URLs** (`src/url.rs`, `src/widget/url_cache.rs`):
  - the `RouterUrl` parser and the `application/x-www-form-urlencoded` query
    codec, with UTF-8 written out byte by byte;
  - the eight-entry most-recently-used cache of parsed URLs.
- **The router widget** (`crates/makepad-router-widgets/src/widget/`), the
  state machine behind every navigation command:
  - the guard pipeline: before-leave hooks, route guards, redirects bounded
    by `ROUTER_MAX_REDIRECTS`, and asynchronous decisions suspended in a
    pending navigation and resumed by polling;
  - guard registration and its capability gates;
  - the commit operations: navigate, replace, reset, set_stack, back,
    forward, pop, pop_to, pop_to_root;
  - path navigation with its three tiers: registry match, nested prefix and
    not-found fallback;
  - nested-router prefix selection and its epoch-keyed cache;
  - the queued router actions;
  - the current path and URL;
  - persisted state;
  - command dispatch with its inferred block reasons.

The core's data shapes map onto Dafny as follows:

- Entities the source updates in place are classes: `NavigationHistory`,
  `RouteRegistry`, `Router`, the widget's caches and the widget itself.
- Values the source copies are datatypes.
- Each mutating operation is a method proved against a specification
  function. Lemmas state the properties of those functions.

Some conventions apply throughout:

- A `LiveId` is modelled by the name it hashes, and `LiveId(0)` by the empty
  name.
- Guards and hooks are pure functions of the navigation context.
- A poll of an asynchronous decision is a parameter, `Received`: nothing yet,
  channel closed, or an answer.
- Integers are unbounded unless a line under "## Left out" says otherwise.

The model follows the code's behaviour in these places:

- `dispatch` runs `ReplacePath` through `replace_by_path_internal` directly,
  so that command is never seen by guards.
- A synchronous guard redirect whose new target cannot be resolved returns
  `false` and records no block reason.
- `pop_to` goes to the last occurrence of the id anywhere in the stack,
  including the forward part.
- Registering a pattern again keeps its earlier entry in the by-pattern list.

## Model

| member | source | states |
|---|---|---|
| Patterns.Add | crates/makepad-router-core/src/pattern.rs:340-361 | the store after `add` is `Added`: an existing key is overwritten in place, a new key is appended while fewer than four pairs are held, and the fifth distinct key moves the pairs into a map |
| Patterns.AddedSpec | crates/makepad-router-core/src/pattern.rs:340-361 | `add` keeps the store's invariant (at most four pairs, distinct keys), binds the key to the new value and leaves every other key as it was; the store becomes a map exactly when it already was one or a fifth distinct key arrives; re-adding a key never changes `len` |
| Patterns.AddedThenGet | crates/makepad-router-core/src/pattern.rs:340-371 | `get` after `add` on the same key gives the value just added; on any other key it gives what it gave before |
| Patterns.GetReadsMap | crates/makepad-router-core/src/pattern.rs:364-371 | `get` returns the value the abstract map holds for the key, in either representation |
| Patterns.LenIsKeyCount | crates/makepad-router-core/src/pattern.rs:406-411 | `len` is the number of distinct keys, and `is_empty` holds exactly when no key is bound |
| Patterns.EqIsMapEquality | crates/makepad-router-core/src/pattern.rs:395-400 | `PartialEq` for parameters holds exactly when both stores bind the same keys to the same values, whatever order the keys were added in |
| Patterns.PathSegments | crates/makepad-router-core/src/pattern.rs:139-143 | the pieces of a path are non-empty and hold no `/` |
| Patterns.ParsePattern | crates/makepad-router-core/src/pattern.rs:100-135 | `parse` fails with the empty-pattern error exactly when the trimmed text is empty; a parsed pattern has `**` only as its last segment |
| Patterns.ParseOutcome | crates/makepad-router-core/src/pattern.rs:100-135 | `parse` succeeds exactly when the trimmed text is non-empty and no piece is a `**` before the last or a bare `:`; the segments are then the pieces' segments in order, and a non-blank text never gives the empty-pattern error |
| Patterns.Parse | crates/makepad-router-core/src/pattern.rs:100-135 | the scan of `parse`, stopping at the first bad piece, returns `ParsePattern` |
| Patterns.ParsePieces | crates/makepad-router-core/src/pattern.rs:112-134 | the loop over the pieces returns the result `ParseParts` describes (the first error, or every piece's segment) |
| Patterns.ParseRootHasNoSegments | crates/makepad-router-core/src/pattern.rs:107-110 | `/` parses to a pattern with no segments |
| Patterns.ParseSkipsEmptyPieces | crates/makepad-router-core/src/pattern.rs:109-110 | empty pieces are dropped: `/a//b/` parses to the two static segments `a` and `b` |
| Patterns.Matches | crates/makepad-router-core/src/pattern.rs:138-194 | the lock-step walk of `matches` returns `MatchPath` for the path's pieces |
| Patterns.ScanMatch | crates/makepad-router-core/src/pattern.rs:148-193 | the walk over pattern and path segments returns `MatchSegments`: a mismatch gives `None`, a `**` ends the match, and leftover segments on either side fail unless only a final `**` is left |
| Patterns.MatchingWithoutMulti | crates/makepad-router-core/src/pattern.rs:138-194 | without `**`, a pattern matches exactly the paths with as many segments whose static segments agree, so `*` consumes exactly one segment |
| Patterns.MatchingTrailingMulti | crates/makepad-router-core/src/pattern.rs:178-186 | a pattern ending in `**` matches every path that has the segments before it and agrees with their static ones, including zero extra segments |
| Patterns.BindParamsKeys | crates/makepad-router-core/src/pattern.rs:156-162 | the parameters a match binds keep the store's invariant and hold one key per dynamic name |
| Patterns.BindParamsValue | crates/makepad-router-core/src/pattern.rs:156-162 | a dynamic segment binds its name to its own path segment unless a later segment reuses the name |
| Patterns.MatchWildcardFree | crates/makepad-router-core/src/pattern.rs:138-194 | for a wildcard-free pattern with distinct names, `matches` succeeds exactly when the lengths agree and every static segment equals its piece, and then every dynamic name is bound to its own piece |
| Patterns.MatchesPrefixWithTail | crates/makepad-router-core/src/pattern.rs:205-275 | `matches_prefix_with_tail` returns `PrefixPath` for the path's pieces |
| Patterns.ScanPrefix | crates/makepad-router-core/src/pattern.rs:212-244 | the lock-step walk of the prefix match returns `PrefixSegments` |
| Patterns.PrefixTail | crates/makepad-router-core/src/pattern.rs:246-274 | once the walk stops without a mismatch, the tail rules (only a trailing `**` may be left over; a trailing `*` or `**` captures its segments; otherwise the unmatched rest) give `PrefixSegments` |
| Patterns.TailSegments | crates/makepad-router-core/src/pattern.rs:264-272 | a tail splits back into exactly the path segments it was built from, and is `""` when there are none |
| Patterns.PrefixWildcardFree | crates/makepad-router-core/src/pattern.rs:205-275 | a wildcard-free pattern prefix-matches exactly the paths that start with its segments, and the tail is the rest of the path |
| Patterns.PrefixTrailingWildcard | crates/makepad-router-core/src/pattern.rs:226-239 | a pattern ending in `*` or `**` whose other segments are plain captures that wildcard's segment and everything after it as the tail |
| Patterns.PriorityMonotone | crates/makepad-router-core/src/pattern.rs:278-289 | of two patterns of the same length, one no heavier segment by segment has no larger priority, and one strictly lighter segment makes it strictly smaller |
| Patterns.PriorityOrdersSegmentKinds | crates/makepad-router-core/src/pattern.rs:620-630 | patterns differing in one position are ordered static, dynamic, `*`, `**` by priority |
| Patterns.FormatPath | crates/makepad-router-core/src/pattern.rs:292-305 | `format_path` succeeds exactly when every segment is static or a dynamic segment whose key is bound |
| Patterns.FormatBasePath | crates/makepad-router-core/src/pattern.rs:310-330 | `format_base_path` always returns a text starting with `/` |
| Patterns.BasePathOfFormattable | crates/makepad-router-core/src/pattern.rs:310-330 | where the whole path can be formatted, the base path is that path |
| Patterns.BasePathIsCutPattern | crates/makepad-router-core/src/pattern.rs:310-330 | the base path is the formatted path of the pattern cut at its first wildcard or unbound parameter |
| Patterns.FormatInvertsMatch | crates/makepad-router-core/src/pattern.rs:292-305 | formatting inverts matching: for a wildcard-free pattern with distinct names, the parameters a path binds format back to that path |
| Routes.QueryGet | crates/makepad-router-core/src/route.rs:156-158 | `get` finds a value exactly when the key is present, and it is the stored one |
| Routes.QuerySet | crates/makepad-router-core/src/route.rs:161-163 | `set` binds the key to the value and adds it to the keys, nothing else |
| Routes.QueryRemove | crates/makepad-router-core/src/route.rs:166-168 | `remove` reports whether the key was present and leaves every other key |
| Routes.QueryClear | crates/makepad-router-core/src/route.rs:171-173 | after `clear` no key reads back |
| Routes.QueryFromString | crates/makepad-router-core/src/route.rs:176-180 | a query read from text never binds the empty key |
| Routes.QuerySetThenGet | crates/makepad-router-core/src/route.rs:156-163 | `set` then `get` returns the value just set, and other keys read as before |
| Routes.QueryRemoveThenGet | crates/makepad-router-core/src/route.rs:156-168 | a removed key no longer reads back, removing it again reports `false`, and other keys are untouched |
| Routes.QuerySetThenRemove | crates/makepad-router-core/src/route.rs:161-168 | removing a key just set gives the query without that key, and reports it present |
| Routes.New | crates/makepad-router-core/src/route.rs:35-43 | `Route::new` has the id, no parameters, an empty query, no hash and no pattern |
| Routes.WithParams | crates/makepad-router-core/src/route.rs:46-54 | `Route::with_params` has the id and the given parameters, and nothing else |
| Routes.FromPattern | crates/makepad-router-core/src/route.rs:57-66 | `from_pattern` succeeds exactly when the pattern parses, carrying the parse error otherwise; the route holds the parsed pattern and no parameters, query or hash |
| Routes.FromBlankPattern | crates/makepad-router-core/src/route.rs:57-66 | a blank pattern text gives the empty-pattern error |
| Routes.Param | crates/makepad-router-core/src/route.rs:69-72 | `param` changes only the route's parameters |
| Routes.SameRouteIsMapEquality | crates/makepad-router-core/src/route.rs:9-23 | the derived equality of two routes with well-formed parameter stores holds exactly when the fields agree and the stores bind the same parameters, whatever order they hold them in; every such route equals itself |
| Routes.ParamThenGet | crates/makepad-router-core/src/route.rs:69-77 | `route.param(k, v).get_param(k)` is `v`, other parameters are unchanged and the store stays well formed |
| Routes.ParseBool | crates/makepad-router-core/src/route.rs:96-102 | the word-to-bool mapping: `1`, `true`, `yes`, `on` give true and `0`, `false`, `no`, `off` give false after lowering ASCII letters; anything else gives nothing |
| Routes.ParseBoolIgnoresCase | crates/makepad-router-core/src/route.rs:96-102 | the mapping ignores ASCII case |
| Routes.ParseBoolShortWords | crates/makepad-router-core/src/route.rs:96-102 | only texts of one to five characters give a value |
| Routes.GetParamBool | crates/makepad-router-core/src/route.rs:96-102 | `get_param_bool` is nothing for an absent parameter and the word mapping of its value otherwise |
| Routes.QueryGetBool | crates/makepad-router-core/src/route.rs:135-141 | `query_get_bool` is nothing for an absent key and the word mapping of its value otherwise |
| Routes.QueryBoolAfterSet | crates/makepad-router-core/src/route.rs:135-141 | a query value set to `ON` reads back as true and `No` as false |
| Navigation.Clamp | crates/makepad-router-core/src/navigation.rs:208-219 | the clamp at the end of `rebuild_index` leaves the index inside the stack (0 for an empty one) and leaves an index that is already inside unchanged |
| Navigation.Start | crates/makepad-router-core/src/navigation.rs:19-27 | a new history holds the one route, current, with nothing to go back or forward to |
| Navigation.IndexOfSpec | crates/makepad-router-core/src/navigation.rs:208-219 | the reverse index holds exactly the ids of the stack, and each id's list is the ascending list of every position holding that id |
| Navigation.IndexLast | crates/makepad-router-core/src/navigation.rs:179-195 | the last entry of an id's list is its last position in the stack, which is what `pop_to` cuts at |
| Navigation.LastPosition | crates/makepad-router-core/src/navigation.rs:179-195 | the position found holds the id and no later position does; none is found only when no position holds it |
| Navigation.PushSpec | crates/makepad-router-core/src/navigation.rs:44-50 | `push` drops the forward entries, makes the route current at depth `current + 2`, and leaves something to go back to and nothing forward |
| Navigation.ReplaceSpec | crates/makepad-router-core/src/navigation.rs:53-61 | `replace` overwrites only the current slot and keeps the depth; on an empty history it gives the one route |
| Navigation.BackForwardSpec | crates/makepad-router-core/src/navigation.rs:64-91 | `back` and `forward` move by one exactly when `can_go_back`/`can_go_forward` allow it and change nothing otherwise; each undoes the other |
| Navigation.ClearResetSpec | crates/makepad-router-core/src/navigation.rs:99-115 | `clear` keeps only the current route, leaving nothing to go back or forward to; `reset` is a fresh history of the route |
| Navigation.PopSpec | crates/makepad-router-core/src/navigation.rs:166-174 | `pop` fails at depth one or less; otherwise the last route goes, the new last one is current and nothing is forward |
| Navigation.PopToSpec | crates/makepad-router-core/src/navigation.rs:179-195 | `pop_to(id)` fails exactly when the id is current or absent; otherwise the stack is cut after the id's last occurrence, which becomes current, so a second call fails |
| Navigation.PopToRootSpec | crates/makepad-router-core/src/navigation.rs:198-206 | `pop_to_root` fails at depth one or less; otherwise only the first route is left |
| Navigation.SetStackSpec | crates/makepad-router-core/src/navigation.rs:151-161 | `set_stack` of nothing empties the history; otherwise the stack is the given routes with the last one current; nothing is forward |
| Navigation.PartsRoundTrip | crates/makepad-router-core/src/navigation.rs:128-145 | `into_parts(from_parts(s, i))` is `s` with the index clamped to the last position |
| Navigation.FromIntoParts | crates/makepad-router-core/src/navigation.rs:128-145 | a well-formed history survives `into_parts` then `from_parts` unchanged |
| Navigation.NavigationHistory.constructor | crates/makepad-router-core/src/navigation.rs:19-27 | the new history is the one-route history of `Start` |
| Navigation.NavigationHistory.Empty | crates/makepad-router-core/src/navigation.rs:30-36 | the empty history |
| Navigation.NavigationHistory.FromStack | crates/makepad-router-core/src/navigation.rs:133-145 | `from_parts` builds the history `FromParts` describes, with its reverse index |
| Navigation.NavigationHistory.Restore | crates/makepad-router-core/src/navigation.rs:133-145 | overwriting the history with `from_parts` gives `FromParts` and a consistent reverse index |
| Navigation.NavigationHistory.IntoParts | crates/makepad-router-core/src/navigation.rs:128-130 | `into_parts` returns the stack and the current index |
| Navigation.NavigationHistory.RebuildIndex | crates/makepad-router-core/src/navigation.rs:208-219 | the reverse index is rebuilt from the stack and the index clamped, the stack untouched |
| Navigation.NavigationHistory.Push | crates/makepad-router-core/src/navigation.rs:44-50 | `push` leaves the history `AfterPush` and a consistent reverse index |
| Navigation.NavigationHistory.Replace | crates/makepad-router-core/src/navigation.rs:53-61 | `replace` leaves the history `AfterReplace` |
| Navigation.NavigationHistory.Back | crates/makepad-router-core/src/navigation.rs:64-71 | `back` leaves `AfterBack` and reports whether it moved |
| Navigation.NavigationHistory.Forward | crates/makepad-router-core/src/navigation.rs:74-81 | `forward` leaves `AfterForward` and reports whether it moved |
| Navigation.NavigationHistory.Clear | crates/makepad-router-core/src/navigation.rs:99-108 | `clear` leaves `AfterClear` |
| Navigation.NavigationHistory.Reset | crates/makepad-router-core/src/navigation.rs:111-115 | `reset` leaves `AfterReset` |
| Navigation.NavigationHistory.SetStack | crates/makepad-router-core/src/navigation.rs:151-161 | `set_stack` leaves `AfterSetStack` |
| Navigation.NavigationHistory.Pop | crates/makepad-router-core/src/navigation.rs:166-174 | `pop` leaves `AfterPop` and reports whether it popped |
| Navigation.NavigationHistory.PopTo | crates/makepad-router-core/src/navigation.rs:179-195 | `pop_to` finds the target through the reverse index and leaves `AfterPopTo` |
| Navigation.NavigationHistory.PopToRoot | crates/makepad-router-core/src/navigation.rs:198-206 | `pop_to_root` leaves `AfterPopToRoot` |
| Registry.FirstSegment | crates/makepad-router-core/src/registry.rs:17-26 | `first_segment` is the longest `/`-free prefix of the path after one leading `/`, ending at a `/` or at the end |
| Registry.RouteRegistry.constructor | crates/makepad-router-core/src/registry.rs:66-76 | a new registry has no entries and consistent (empty) indices |
| Registry.RouteRegistry.RegisterById | crates/makepad-router-core/src/registry.rs:79-86 | `register_by_id` binds the id to an entry with no pattern and leaves the sorted list and the indices alone |
| Registry.RouteRegistry.RegisterPattern | crates/makepad-router-core/src/registry.rs:89-110 | a malformed pattern returns its parse error and changes nothing; otherwise the id's entry is overwritten, the new entry is inserted into the sorted list after every entry of no greater priority (an older entry of the same id stays), the indices are rebuilt, `has_route(id)` holds and `get_pattern(id)` is the parsed pattern |
| Registry.RouteRegistry.RebuildIndices | crates/makepad-router-core/src/registry.rs:209-270 | `rebuild_indices` refills the exact map, the first-segment buckets and the two fallbacks so that they agree with the sorted list, which it leaves unchanged |
| Registry.RouteRegistry.ResolvePath | crates/makepad-router-core/src/registry.rs:113-197 | `resolve_path` returns `Resolve`: the exact map, then the first-segment bucket, then the dynamic fallback, then the wildcard fallback, the first hit winning |
| Registry.RouteRegistry.ScanCandidates | crates/makepad-router-core/src/registry.rs:132-194 | one tier's scan skips stale positions and entries without a pattern and returns the route of the first candidate that matches |
| Registry.FindInsertPos | crates/makepad-router-core/src/registry.rs:100-104 | the insertion position is the first entry of greater priority, or the end |
| Registry.BuildStaticPath | crates/makepad-router-core/src/registry.rs:238-255 | the path written for an all-static pattern is `/s1/s2/...`, or `/` for no segments |
| Registry.InsertPos | crates/makepad-router-core/src/registry.rs:100-104 | every entry before the position has no greater priority, and the entry at it has a greater one |
| Registry.InsertedSorted | crates/makepad-router-core/src/registry.rs:100-107 | inserting at the insertion position keeps the list sorted by priority |
| Registry.InsertedLayout | crates/makepad-router-core/src/registry.rs:100-107 | the inserted entry lands after every entry of no greater priority and before the others, which keep their order: ties stay in registration order |
| Registry.InsertedRegistered | crates/makepad-router-core/src/registry.rs:98-107 | after registering, every entry of the list has a registered id |
| Registry.IndicesStep | crates/makepad-router-core/src/registry.rs:225-268 | indexing one more entry adds exactly its contribution to the exact map, its bucket and its fallback list |
| Registry.WhereSpec | crates/makepad-router-core/src/registry.rs:256-266 | a fallback list holds exactly the positions of the entries of that kind, in ascending order |
| Registry.IndexedOnce | crates/makepad-router-core/src/registry.rs:225-268 | every entry with a pattern sits in exactly one index: the bucket of a static first segment, else the wildcard fallback when it has a wildcard, else the dynamic fallback |
| Registry.BucketMapSpec | crates/makepad-router-core/src/registry.rs:256-266 | a first-segment bucket exists exactly when some entry starts with that segment, and lists those entries' positions |
| Registry.ExactOfSpec | crates/makepad-router-core/src/registry.rs:238-255 | for duplicate all-static paths the exact map keeps the id of the earliest entry in list order |
| Registry.FirstExact | crates/makepad-router-core/src/registry.rs:238-255 | the entry found is the first all-static entry with exactly this path |
| Registry.Hits | crates/makepad-router-core/src/registry.rs:132-194 | the hit vector records, position by position, whether the entry's pattern matches the path |
| Registry.FirstHit | crates/makepad-router-core/src/registry.rs:132-194 | the candidate found is a hit and comes first in the list among hits |
| Registry.FirstHitIsLeast | crates/makepad-router-core/src/registry.rs:132-194 | scanning a tier's list finds the least-positioned hit of that kind |
| Registry.LeastHitIsBest | crates/makepad-router-core/src/registry.rs:132-194 | within a tier, the entry found has the least priority among the entries of that tier that match |
| Registry.ResolveTiers | crates/makepad-router-core/src/registry.rs:113-197 | `resolve_path` on a normalized path is the earliest all-static entry with exactly this path; otherwise the earliest matching entry of the path's first-segment bucket; otherwise of the dynamic fallback; otherwise of the wildcard fallback; otherwise nothing |
| Registry.ResolvedIsRegistered | crates/makepad-router-core/src/registry.rs:117-194 | a resolved route names a registered id, and unless it came from the exact map its parameters are its pattern's match of the path |
| Registry.TierRouteMatches | crates/makepad-router-core/src/registry.rs:132-194 | a route one tier finds names a registered id and carries its pattern's match of the path |
| Normalize.StripTrailingSlashes | src/registry.rs:175-177 | popping trailing slashes keeps the leading `/`, removes only `/` characters from the end, and leaves `/` or a text not ending in `/` |
| Normalize.NormalizedPath | src/registry.rs:149-179 | the normalized path starts with `/`, holds no `#` and no `?`, and has no trailing `/` unless it is `/` |
| Normalize.NormalizePath | src/registry.rs:149-179 | the step-by-step rewriting of `normalize_path`, with its pop loop, returns `NormalizedPath` |
| Normalize.NormalizeBlank | src/registry.rs:150-153 | empty or white-space input normalizes to `/` |
| Normalize.NormalizeUnchanged | src/registry.rs:149-179 | a rooted path with no surrounding white space, no `#`, `?` or `://` and no trailing `/` is returned unchanged |
| Normalize.NormalizeFullUrl | src/registry.rs:155-163 | for a full URL, scheme and host are dropped and what follows the first `/` after the host is normalized |
| Normalize.NormalizeBareHost | src/registry.rs:155-163 | a full URL with no `/` after the host normalizes to `/` |
| Normalize.MatchPartOfUrl | src/registry.rs:168-177 | query and hash are cut off before trailing slashes are dropped, so `/a/b/?q=1#x` gives `/a/b` |
| Routers.Router.constructor | crates/makepad-router-core/src/router.rs:30-36 | `Router::new` holds a history of the one route, persistence off and an empty registry |
| Routers.Router.Default | crates/makepad-router-core/src/router.rs:19-25 | `Router::default` holds an empty history |
| Routers.Router.WithPersistence | crates/makepad-router-core/src/router.rs:39-45 | `with_persistence` is `new` with persistence on |
| Routers.Router.CurrentRouteId | crates/makepad-router-core/src/router.rs:83-85 | the current id is the id of the current route, present exactly when there is one |
| Routers.Router.Navigate | crates/makepad-router-core/src/router.rs:48-50 | `navigate` (and `push`) act as the history's `push` |
| Routers.Router.NavigateTo | crates/makepad-router-core/src/router.rs:53-55 | `navigate_to` pushes a fresh route with the id |
| Routers.Router.Replace | crates/makepad-router-core/src/router.rs:58-60 | `replace` acts as the history's `replace` |
| Routers.Router.ReplaceWith | crates/makepad-router-core/src/router.rs:63-65 | `replace_with` replaces with a fresh route with the id |
| Routers.Router.Back | crates/makepad-router-core/src/router.rs:68-70 | `back` acts as the history's `back` |
| Routers.Router.Forward | crates/makepad-router-core/src/router.rs:73-75 | `forward` acts as the history's `forward` |
| Routers.Router.Reset | crates/makepad-router-core/src/router.rs:98-100 | `reset` acts as the history's `reset` |
| Routers.Router.ClearHistory | crates/makepad-router-core/src/router.rs:103-105 | `clear_history` acts as the history's `clear` |
| Routers.Router.Pop | crates/makepad-router-core/src/router.rs:138-140 | `pop` acts as the history's `pop` |
| Routers.Router.PopTo | crates/makepad-router-core/src/router.rs:143-145 | `pop_to` acts as the history's `pop_to` |
| Routers.Router.PopToRoot | crates/makepad-router-core/src/router.rs:148-150 | `pop_to_root` acts as the history's `pop_to_root` |
| Routers.Router.SetStack | crates/makepad-router-core/src/router.rs:153-155 | `set_stack` acts as the history's `set_stack` |
| Routers.Router.RegisterRoutePattern | crates/makepad-router-core/src/router.rs:113-119 | registering succeeds exactly when the pattern parses; then the id's entry is overwritten with that pattern and its priority, the entry is inserted into the by-pattern list after every entry of no greater priority (an older entry of the same id stays), and every other id keeps its pattern; a failure changes nothing |
| Routers.Router.NavigateByPath | crates/makepad-router-core/src/router.rs:123-130 | a registry miss returns the "no route for path" error and leaves the history alone; a hit pushes the resolved route and returns it |
| Routers.FreshRouters | crates/makepad-router-core/src/router.rs:19-36 | a new router has depth one with its route current; the default router has no current route |
| Routers.TwoForwardTwoBack | crates/makepad-router-core/src/router.rs:190-202 | from a fresh router, two `navigate_to` calls are undone by two `back` calls, ending at the root with nothing to go back to |
| Routers.ReplaceFresh | crates/makepad-router-core/src/router.rs:205-212 | from a fresh router, `replace_with` keeps depth one and nothing to go back to |
| Url.CutHash | src/url.rs:38-41 | the text splits at the first `#` into a `#`-free part and a hash that is empty or starts with `#`, and the two put back together give the text |
| Url.CutQuery | src/url.rs:42-45 | the part before the hash splits at the first `?` into a `?`-free path and a query that is empty or starts with `?`, which rejoin to it |
| Url.RootedPath | src/url.rs:48-53 | the trimmed path becomes `/` when empty and gains a leading `/` when it has none, so it always starts with `/` |
| Url.Parse | src/url.rs:17-56 | `RouterUrl::parse` always yields a path starting with `/` and free of `?` and `#`, a query that is empty or starts with `?` and holds no `#`, and a hash that is empty or starts with `#` |
| Url.ParseBlank | src/url.rs:18-25 | empty or white-space input parses to the root path with no query and no hash |
| Url.DropSchemeOfPath | src/url.rs:27-36 | input without `://` is not cut: no scheme or host is looked for in a plain path |
| Url.ParseSchemeWithoutPath | src/url.rs:28-36 | a full URL with no `/` after the host parses to the root path with no query and no hash |
| Url.ParseHashBeforeQuery | src/url.rs:38-46 | the hash is split off first, so a `?` after the `#` stays in the hash and the query is empty |
| Url.ParseToString | src/url.rs:17-67 | parsing what `Display` writes for a URL already in normal form gives back the same path, query and hash |
| Url.Utf8RoundTrip | src/url.rs:119-138 | decoding the UTF-8 bytes of any string (`String::from_utf8` of `as_bytes`) gives the string back |
| Url.HexVal | src/url.rs:158-165 | `hex_val` returns a value below 16, and only for a hex digit of either case |
| Url.HexChar | src/url.rs:167-173 | `hex_char` writes an ASCII character, which for a nibble below 16 is the hex digit `hex_val` reads back as that nibble |
| Url.EncodedIsFormText | src/url.rs:140-156 | the encoder writes only unreserved characters, `+` and `%`, so its output never holds `=`, `&`, `?` or `#` |
| Url.DecodeEncodeRoundTrip | src/url.rs:119-156 | `decode_www_form_component` undoes `encode_www_form_component` for every string |
| Url.EncodeComponent | src/url.rs:140-156 | the byte loop of `encode_www_form_component` returns the byte-by-byte encoding of the input's UTF-8 bytes |
| Url.EncodeByteLoop | src/url.rs:142-154 | the loop appends, byte by byte, the unreserved byte itself, `+` for a space and `%HH` in upper case otherwise |
| Url.DecodeComponent | src/url.rs:119-138 | `decode_www_form_component` returns the decoded bytes as text when they are UTF-8, and the input unchanged otherwise |
| Url.DecodeByteLoop | src/url.rs:121-136 | the loop turns `+` into a space and `%HH` into its byte, drops a `%` escape that is cut short or not hex together with the (up to two) bytes after it, and copies every other byte |
| Url.QueryMapLastWins | src/url.rs:78-91 | a key is in the parsed map exactly when some pair gives it, and its value is that of the last such pair |
| Url.QueryMapNoEmptyKey | src/url.rs:86-88 | `parse_query_map` never yields the empty key |
| Url.ParseQueryMap | src/url.rs:71-94 | trimming, dropping the leading `?`, splitting at `&` and inserting each pair's decoded key and value gives the map `QueryMap` describes (empty for an empty query) |
| Url.ParsePair | src/url.rs:79-90 | an empty pair gives nothing; a pair splits at its first `=` (no `=` means an empty value); a pair whose decoded key is empty gives nothing |
| Url.InsertPairs | src/url.rs:78-93 | the insertion loop builds the map of the pairs' entries, later pairs overwriting earlier ones |
| Url.SortedKeysAscending | src/url.rs:103-104 | the keys in the order `keys.sort()` gives are strictly ascending in the byte order of Rust strings and are exactly the map's keys |
| Url.Least | src/url.rs:104 | picking the least key of a non-empty set returns a member no greater than any other |
| Url.SortKeys | src/url.rs:103-104 | collecting and sorting the keys returns them in ascending order |
| Url.BuildQueryString | src/url.rs:97-117 | `build_query_string` is empty for an empty map, and otherwise `?` followed by the items of the sorted keys joined by `&` |
| Url.EncodeItem | src/url.rs:110-114 | one item is the encoded key, followed by `=` and the encoded value only when the value is not empty |
| Url.AppendItems | src/url.rs:101-115 | the loop writes `?`, then the items in key order, each after an `&` except the first |
| Url.ItemIsPair | src/url.rs:79-90 | a built item with a non-empty key parses back to that key and value, an item without `=` giving the empty value |
| Url.ParseBuiltQuery | src/url.rs:71-117 | parsing the query built from a map gives back the map, as long as no key is empty |
| UrlCache.Position | src/widget/url_cache.rs:7-11 | the cache search finds the first entry keyed by the input, and reports none only when no entry has that key |
| UrlCache.CachedAfter | src/widget/url_cache.rs:6-27 | after a lookup the input's pair is at the front with the value handed back, and the cache never grows beyond eight entries |
| UrlCache.CachedAfterOk | src/widget/url_cache.rs:6-27 | a cache of at most eight distinct keys, each with its parsed value, stays so after a lookup, and the lookup returns exactly what parsing afresh returns |
| UrlCache.HitMovesToFront | src/widget/url_cache.rs:7-15 | a hit moves its pair to the front, the other pairs keep their order and the length is unchanged |
| UrlCache.MissInsertsInFront | src/widget/url_cache.rs:18-25 | a miss puts the new pair in front of the old pairs and truncates to eight entries |
| UrlCache.FindKey | src/widget/url_cache.rs:7-11 | the linear search returns the first index holding the input, or the length when there is none |
| UrlCache.RouterCaches.constructor | crates/makepad-router-widgets/src/widget/fields.rs:28-35 | the caches start empty, with both epochs at zero and no cached nested-prefix result |
| UrlCache.RouterCaches.ParseUrlCached | src/widget/url_cache.rs:6-27 | `parse_url_cached` returns `RouterUrl::parse` of the input, updates the cache as `CachedAfter` describes, keeps it well formed and leaves the other caches alone |
| NestedSelect.CandidateHit | crates/makepad-router-widgets/src/widget/nested.rs:31-36 | a candidate hits exactly when its id has a registry pattern whose prefix match accepts the path, and the hit carries that id and pattern |
| NestedSelect.HitsOf | crates/makepad-router-widgets/src/widget/nested.rs:24-36 | the candidates' hits, position by position |
| NestedSelect.BestNestedIsLeast | crates/makepad-router-widgets/src/widget/nested.rs:22-46 | the selection is empty exactly when no candidate hits; otherwise it is the hit of a candidate whose priority is the least of all hits, and every earlier hit has a strictly larger priority, so ties go to the first |
| NestedSelect.BestOfSpec | crates/makepad-router-widgets/src/widget/nested.rs:38-43 | each step of the loop keeps the best hit so far, replacing it only by a strictly lighter hit |
| NestedSelect.BestOfAppend | crates/makepad-router-widgets/src/widget/nested.rs:24-44 | running the loop over two chained candidate lists is running it over the second from the result of the first |
| NestedSelect.ExtraCandidatesKeep | crates/makepad-router-widgets/src/widget/nested.rs:24-30 | chaining child-router ids that are already pattern ids, or have no pattern, after the pattern ids does not change the selection |
| CommitSpec.IdOf | src/widget/api.rs:38 | the id of the old current route is present exactly when there was one, and is that route's id |
| CommitSpec.Queued | crates/makepad-router-widgets/src/widget/actions.rs:8-21 | `queue_route_actions` keeps the queued actions, then appends the primary action if there is one, and always ends with the route change from the old id to the new route |
| CommitSpec.Templated | src/widget/api.rs:524-527 | the filter of `set_stack` keeps exactly the routes whose id has a template, and only those |
| CommitSpec.TemplatedInOrder | src/widget/api.rs:524-527 | the kept routes are the stack with the others left out, in the stack's order |
| CommitSpec.CommitNavigate | src/widget/api.rs:25-61 | `navigate` with guards bypassed succeeds exactly when the id has a template; on success the route is pushed, the kept unknown path is cleared, the route becomes current and active and `Navigate` then the route change are queued; on failure nothing changes |
| CommitSpec.CommitReplace | src/widget/api.rs:112-148 | `replace` succeeds exactly when the id has a template, replaces the current entry and queues `Replace` then the route change; on failure nothing changes |
| CommitSpec.CommitReset | src/widget/api.rs:386-420 | `reset` succeeds exactly when the route's id has a template, leaves a history holding only that route, and queues `Reset` then the route change |
| CommitSpec.CommitSetStack | src/widget/api.rs:520-556 | `set_stack` succeeds exactly when some route of the stack has a template; the templated routes become the whole history with the last current, and `Reset` of it then the route change are queued; otherwise nothing changes |
| CommitSpec.StackInstalled | src/widget/api.rs:531-555 | installing a non-empty filtered stack always succeeds, makes its last route current and active and queues `Reset` of it then the route change |
| CommitSpec.CommitBack | src/widget/api.rs:199-235 | `back` succeeds exactly when the history can go back, then moves back one entry and queues `Back` then the route change; otherwise nothing changes |
| CommitSpec.CommitForward | src/widget/api.rs:277-310 | `forward` succeeds exactly when the history can go forward, then moves forward one entry and queues `Forward` then the route change |
| CommitSpec.SettlePop | src/widget/api.rs:430-451 | after a stack pop the widget settles only when the pop succeeded and a route is current, queuing the route change and no primary action; a pop that left no current route keeps the changed history and reports failure |
| CommitSpec.CommitPop | src/widget/api.rs:426-452 | `pop` succeeds exactly when the stack holds more than one entry, then drops the top and queues only the route change |
| CommitSpec.CommitPopTo | src/widget/api.rs:454-485 | `pop_to` succeeds exactly when the history's `pop_to` does, and then the current route has the requested id |
| CommitSpec.CommitPopToRoot | src/widget/api.rs:487-518 | `pop_to_root` succeeds exactly when the stack holds more than one entry, and then only the first entry remains, current and active |
| CommitSpec.ResolvePathIntent | crates/makepad-router-widgets/src/widget/path_nav.rs:12-77 | a resolved intent carries the caller's `replace` and `clear_extras`, the parsed path, and a route that has a template |
| CommitSpec.ResolveParsed | crates/makepad-router-widgets/src/widget/path_nav.rs:19-37 | the full-match tier answers first: a registry match without a template gives nothing rather than falling through |
| CommitSpec.FallbackTiers | crates/makepad-router-widgets/src/widget/path_nav.rs:39-76 | the nested-prefix tier, then the not-found route (refused for a push while it is already current), each yielding only a templated route for the same path |
| CommitSpec.CommitIntent | crates/makepad-router-widgets/src/widget/path_nav.rs:79-147 | applying an intent always succeeds: it pushes or replaces the route, keeps the unknown path only for the not-found fallback, makes the route current and active and queues `Navigate` or `Replace` then the route change |
| CommitSpec.CommitPath | crates/makepad-router-widgets/src/widget/path_nav.rs:149-174 | navigating or replacing by path succeeds exactly when the path resolves to an intent, and changes nothing otherwise |
| CommitSpec.CommitOperation | crates/makepad-router-widgets/src/widget/guard_flow.rs:382-414 | the operation a request names keeps the history well formed, never touches the guard state, and changes nothing when it fails |
| CommitSpec.CommitRequest | crates/makepad-router-widgets/src/widget/guard_flow.rs:374-417 | running a request with guards bypassed restores the bypass flag, and a failed request changes nothing |
| GuardSpec.BeforeLeaveHooks | crates/makepad-router-widgets/src/widget/guards.rs:80-85 | `before_leave_hooks` is empty while synchronous guards are disabled, and the registered hooks otherwise |
| GuardSpec.RouteGuards | crates/makepad-router-widgets/src/widget/guards.rs:91-96 | `route_guards` is empty while synchronous guards are disabled, and the registered guards otherwise |
| GuardSpec.InferResolutionBlockReason | crates/makepad-router-widgets/src/widget/guard_flow.rs:419-428 | a request that does not resolve is blocked with `NoHistory` exactly when it is a back, forward or pop request, and with `RouteMissing` exactly otherwise |
| GuardSpec.RedirectKeepsTarget | crates/makepad-router-widgets/src/widget/guard_flow.rs:356-368 | a route redirect becomes a route request and a path redirect a path request for the same target; the request replaces exactly when the redirect does, and a replacing path redirect clears the URL extras |
| GuardSpec.ResolveNavContext | crates/makepad-router-widgets/src/widget/guard_flow.rs:92-190 | the context exists exactly when the request can go somewhere; it runs from the current route to the route the request would make current, has the request's kind and a target path only for path requests, and the request leaves exactly when both ends exist with different ids |
| GuardSpec.FirstObjection | crates/makepad-router-widgets/src/widget/guard_flow.rs:222-248 | the guard that decides is the first one that does not allow, every guard before it allows, and there is none exactly when every guard allows |
| GuardSpec.Refusal | crates/makepad-router-widgets/src/widget/guard_flow.rs:52-59 | a refusal records the reason and changes nothing else |
| GuardSpec.Suspension | crates/makepad-router-widgets/src/widget/guard_flow.rs:288-298 | a suspension stores the pending navigation and changes nothing else |
| GuardSpec.CommitRequestCommits | crates/makepad-router-widgets/src/widget/guard_flow.rs:374-417 | a request run with guards bypassed either commits, leaving a current route that is the active one and a queue ending with the route change, or fails and changes nothing |
| GuardSpec.IntentCommits | crates/makepad-router-widgets/src/widget/path_nav.rs:79-147 | applying a resolved path intent has the committed shape |
| GuardSpec.RequestNav | crates/makepad-router-widgets/src/widget/guard_flow.rs:42-90 | `request_navigation_internal` either commits, or suspends a navigation while none was pending, or refuses recording at most a reason; it never changes the bypass flag |
| GuardSpec.Evaluate | crates/makepad-router-widgets/src/widget/guard_flow.rs:61-89 | with nothing registered (and the hooks not skipped) the request is applied at once; otherwise the hooks and guards decide, with the same outcome shape |
| GuardSpec.HooksAndGuards | crates/makepad-router-widgets/src/widget/guard_flow.rs:70-89 | the before-leave hooks run only when the request leaves and they are not skipped; the route guards run after them |
| GuardSpec.LeaveHooks | crates/makepad-router-widgets/src/widget/guard_flow.rs:70-76 | a blocking synchronous before-leave hook refuses with `BeforeLeaveBlocked` |
| GuardSpec.AfterSyncLeaveHooks | crates/makepad-router-widgets/src/widget/guard_flow.rs:77-89 | the asynchronous before-leave hooks run next when there are any, and the route guards otherwise |
| GuardSpec.LeaveAsync | crates/makepad-router-widgets/src/widget/guard_flow.rs:268-304 | `run_before_leave_async` consults the hooks from the given index on, and hands over to the route guards once every hook has allowed |
| GuardSpec.LeaveHookAnswer | crates/makepad-router-widgets/src/widget/guard_flow.rs:280-299 | an immediate allow goes on to the next hook, an immediate block refuses with `BeforeLeaveBlocked`, and a later answer suspends the navigation at this hook |
| GuardSpec.GuardsPhase | crates/makepad-router-widgets/src/widget/guard_flow.rs:212-266 | `apply_guards_and_maybe_commit`: the first guard that does not allow decides; when all allow, the asynchronous guards or the commit follow |
| GuardSpec.Objected | crates/makepad-router-widgets/src/widget/guard_flow.rs:223-246 | a block refuses with `GuardBlocked`; a redirect at depth 8 or more refuses with `RedirectLimit`; any other redirect is followed one redirect deeper |
| GuardSpec.Redirected | crates/makepad-router-widgets/src/widget/guard_flow.rs:235-245 | the redirect's request is resolved again and the guards restart on it; when it does not resolve the navigation ends without recording a reason |
| GuardSpec.GuardsAllow | crates/makepad-router-widgets/src/widget/guard_flow.rs:253-264 | once every synchronous guard allows, the asynchronous guards run when there are any, and the request is applied otherwise |
| GuardSpec.UnobjectedPhase | crates/makepad-router-widgets/src/widget/guard_flow.rs:220-264 | when no synchronous guard objects the guard loop goes straight to what follows it |
| GuardSpec.GuardAsync | crates/makepad-router-widgets/src/widget/guard_flow.rs:306-354 | `run_guard_async` consults the guards from the given index on and applies the request once every guard has allowed |
| GuardSpec.AsyncGuardAnswer | crates/makepad-router-widgets/src/widget/guard_flow.rs:318-349 | an immediate allow goes on to the next guard, an immediate block refuses with `GuardBlocked`, a redirect is followed, and a later answer suspends the navigation at this guard |
| GuardSpec.AsyncRedirect | crates/makepad-router-widgets/src/widget/guard_flow.rs:324-337 | an asynchronous redirect at depth 8 or more refuses with `RedirectLimit`; otherwise a new request one redirect deeper runs and skips the before-leave hooks |
| GuardSpec.Poll | crates/makepad-router-widgets/src/widget/guard_flow.rs:430-537 | `poll_pending_navigation` does nothing without a pending navigation; with no answer yet the navigation keeps waiting; a closed channel drops it; the bypass flag never changes |
| GuardSpec.ResumeLeave | crates/makepad-router-widgets/src/widget/guard_flow.rs:462-473 | a before-leave answer other than allow refuses with `BeforeLeaveBlocked`; an allow resumes at the next hook |
| GuardSpec.ResumeGuard | crates/makepad-router-widgets/src/widget/guard_flow.rs:501-530 | a guard's answer resumes at the next guard, refuses with `GuardBlocked`, or redirects under the same limit |
| GuardSpec.LeaveAsyncSkips | crates/makepad-router-widgets/src/widget/guard_flow.rs:277-283 | hooks that allow at once are passed over: starting before them is the same as starting after them |
| GuardSpec.LeaveAsyncAllowStep | crates/makepad-router-widgets/src/widget/guard_flow.rs:281-283 | one hook that allows at once hands the request to the next hook |
| GuardSpec.GuardAsyncSkips | crates/makepad-router-widgets/src/widget/guard_flow.rs:315-319 | guards that allow at once are passed over: starting before them is the same as starting after them |
| GuardSpec.GuardAsyncAllowStep | crates/makepad-router-widgets/src/widget/guard_flow.rs:319 | one guard that allows at once hands the request to the next guard |
| GuardSpec.PendingRefusesRequests | crates/makepad-router-widgets/src/widget/guard_flow.rs:52-55 | while a navigation is suspended, any other request is refused with `NoHistory` and nothing else changes |
| GuardSpec.UnresolvedRefused | crates/makepad-router-widgets/src/widget/guard_flow.rs:56-59 | a request that resolves to nothing is refused, with `NoHistory` exactly for the history requests and `RouteMissing` exactly for the others, and nothing else changes |
| GuardSpec.GuardsOffEvaluateNothing | crates/makepad-router-widgets/src/widget/guards.rs:66-96 | with both guard capabilities off none of the four accessors yields anything, whatever was registered |
| GuardSpec.NothingToEvaluateCommits | crates/makepad-router-widgets/src/widget/guard_flow.rs:61-68 | with nothing to evaluate, a resolvable request commits at once with the intent resolved for its context |
| GuardSpec.StayingSkipsLeaveHooks | crates/makepad-router-widgets/src/widget/guard_flow.rs:70-89 | a request that stays on the current route id goes straight to the route guards, without the before-leave hooks |
| GuardSpec.LeaveHookBlocks | crates/makepad-router-widgets/src/widget/guard_flow.rs:70-76 | when the request leaves the current route, any one blocking synchronous hook refuses it with `BeforeLeaveBlocked` and nothing else changes |
| GuardSpec.RouteRedirectResolves | crates/makepad-router-widgets/src/widget/guard_flow.rs:104-112 | a redirect to a route with a template always resolves, and its context leads to that route |
| GuardSpec.RedirectLoopHitsLimit | crates/makepad-router-widgets/src/widget/guard_flow.rs:220-251 | a first guard that always redirects to a templated route makes the guard loop give up with `RedirectLimit` once the depth reaches 8, from any starting depth, changing nothing else |
| GuardSpec.RedirectLoopRefused | crates/makepad-router-widgets/src/widget/guard_flow.rs:42-90 | a fresh request whose first guard always redirects, with no before-leave hook in the way, is refused with `RedirectLimit` |
| GuardSpec.ContextPredictsCommit | crates/makepad-router-widgets/src/widget/guard_flow.rs:92-190 | a request resolves exactly when committing it with the intent resolved on the way succeeds, and the context's destination is the route the commit makes current |
| GuardSpec.PreviewPredictsPathCommit | crates/makepad-router-widgets/src/widget/guard_flow.rs:113-124 | for a path request the previewed route is the one the commit makes current, and the preview exists exactly when the commit succeeds |
| GuardSpec.PreviewPredictsHistoryCommit | crates/makepad-router-widgets/src/widget/guard_flow.rs:125-171 | for back, forward and the pops the previewed route is the one the commit makes current, and the preview exists exactly when the commit succeeds |
| GuardSpec.PreviewPredictsRouteCommit | crates/makepad-router-widgets/src/widget/guard_flow.rs:104-153 | for navigate, replace, reset and set_stack the previewed route is the one the commit makes current, and the preview exists exactly when the commit succeeds |
| GuardSpec.PollAllowResumes | crates/makepad-router-widgets/src/widget/guard_flow.rs:430-537 | polling a suspended navigation whose answer is allow resumes its phase at the next hook or guard, with the stored context, intent and depth |
| GuardSpec.PollBlockRefuses | crates/makepad-router-widgets/src/widget/guard_flow.rs:430-537 | a blocking answer drops the suspended navigation and records `BeforeLeaveBlocked` or `GuardBlocked` according to its phase |
| Nested.ResolveNestedPrefix | crates/makepad-router-widgets/src/widget/nested.rs:9-51 | `resolve_nested_prefix` returns nothing while nested routing is off and otherwise the best prefix hit as `NestedPrefixOf` describes, whether it answers from the one-entry cache or recomputes; after a recomputation the cache holds the path and the answer for the current registry epoch |
| Nested.HitsSnoc | crates/makepad-router-widgets/src/widget/nested.rs:24-36 | one more candidate in the loop adds its hit at the end |
| Nested.DelegateTailToChild | crates/makepad-router-widgets/src/widget/nested.rs:53-73 | `delegate_tail_to_child` fails while nested routing is off, succeeds for an empty tail, and otherwise succeeds exactly when the parent route hosts a child router that accepts the tail |
| Nested.DelegatedTailHasChild | crates/makepad-router-widgets/src/widget/nested.rs:59-72 | a non-empty tail is only delegated where nested routing is on and a child router is registered under the parent route |
| Nested.NavigateNested | crates/makepad-router-widgets/src/widget/nested.rs:109-150 | `navigate_nested` records `CapabilityDisabled` while nested routing is off; with an empty chain it pushes the route here exactly when it has a template; otherwise it succeeds exactly when the first id hosts a child router that accepts the rest, changing nothing here |
| Nested.PushHere | crates/makepad-router-widgets/src/widget/nested.rs:116-119 | the end of a chain pushes the route in this router and makes it active |
| UrlState.TrimEndSlashes | crates/makepad-router-widgets/src/widget/url_state.rs:13 | `trim_end_matches('/')` leaves the longest prefix not ending in `/`, having removed only `/` characters |
| UrlState.TrimStartSlashes | crates/makepad-router-widgets/src/widget/url_state.rs:14 | `trim_start_matches('/')` leaves the longest suffix not starting with `/`, having removed only `/` characters |
| UrlState.Seam | crates/makepad-router-widgets/src/widget/url_state.rs:16-26 | one `/` between base and tail, a lone `/` for an empty or root base with an empty tail, and the base alone for an empty tail |
| UrlState.JoinPaths | crates/makepad-router-widgets/src/widget/url_state.rs:8-27 | `join_paths` is never empty and starts with `/` whenever the trimmed base is empty or starts with `/` |
| UrlState.JoinedSegments | crates/makepad-router-widgets/src/widget/url_state.rs:8-27 | the segments of the joined path are those of the trimmed base followed by those of the trimmed tail, whatever slashes either carries at the seam |
| UrlState.JoinOnRoot | crates/makepad-router-widgets/src/widget/url_state.rs:12-23 | a base that is empty or only slashes gives the tail, without its leading slashes, behind one `/` |
| UrlState.OverridePath | crates/makepad-router-widgets/src/widget/url_state.rs:31-40 | the kept unknown path is shown trimmed, as `/` when empty, and with a leading `/` added when missing |
| UrlState.OverridePathIdempotent | crates/makepad-router-widgets/src/widget/url_state.rs:31-40 | showing an already shown unknown path again changes nothing |
| UrlState.BasePath | crates/makepad-router-widgets/src/widget/url_state.rs:43-59 | a route's own path uses its pattern (its own, else the registered one), formatted with its parameters or, failing that, its base path; without a pattern it is `/` and the id; it always starts with `/` |
| UrlState.PathForRoute | crates/makepad-router-widgets/src/widget/url_state.rs:29-69 | `current_path_for_route` always starts with `/`; for the not-found route with a kept unknown path it is that path as shown |
| UrlState.ChildPathJoined | crates/makepad-router-widgets/src/widget/url_state.rs:61-68 | a route hosting a live child router is shown as its own segments followed by the segments of the child's current path |
| UrlState.ShownPathOfMatchedRoute | crates/makepad-router-widgets/src/widget/url_state.rs:43-51 | a route reached by matching a path against its wildcard-free pattern is shown as that path's segments joined by `/` |
| UrlState.CurrentPath | crates/makepad-router-widgets/src/widget/url_state.rs:71-76 | `current_path` is `/` without a current route, and always starts with `/` |
| UrlState.ClearUrlExtras | crates/makepad-router-widgets/src/widget/url_state.rs:4-6 | `clear_url_extras` forgets the kept unknown path and nothing else |
| UrlState.CurrentUrl | crates/makepad-router-widgets/src/widget/url_state.rs:78-88 | `current_url` is `/` without a current route, and otherwise the route's path, then its query built from its map, then its hash |
| Widgets.ListedAfterRegister | crates/makepad-router-widgets/src/widget.rs:279-280 | registering a pattern for an id and recording the id keeps every id with a registry pattern among the widget's pattern ids |
| Widgets.RouterWidget.constructor | crates/makepad-router-widgets/src/widget.rs:185-261 | a new widget has an empty history, no patterns, no guards, no queued actions, nothing pending and every capability off |
| Widgets.RouterWidget.RegisterRoutePattern | crates/makepad-router-widgets/src/widget.rs:274-288 | `register_route_pattern` fails with the parse error and changes nothing for a malformed pattern; otherwise the router registry's by-id map and by-pattern list are updated exactly as `register_pattern` does (the entry overwritten, and inserted after every entry of no greater priority), the id is recorded, the registry epoch moves on by one and the nested-prefix cache is reset |
| Widgets.RouterWidget.NoteRegisteredPattern | crates/makepad-router-widgets/src/widget.rs:280-286 | the id is recorded once, the registry epoch moves on by one and the nested-prefix cache's epoch, path and result are reset; the navigation state is untouched |
| Widgets.RouterWidget.RegisterChildRouter | crates/makepad-router-widgets/src/widget.rs:265-271 | `register_child_router` records `CapabilityDisabled` and changes nothing else while nested routing is off, and otherwise adds the id to the child routers without touching the navigation state |
| Actions.QueueRouteActions | crates/makepad-router-widgets/src/widget/actions.rs:8-21 | the primary action, if any, then the route change from the old id to the new route are appended to the queue, and nothing else changes |
| Actions.FlushRouterActions | crates/makepad-router-widgets/src/widget/actions.rs:23-31 | `flush_router_actions` emits the queued actions first to last and leaves the queue empty |
| Actions.QueuedAppends | crates/makepad-router-widgets/src/widget/actions.rs:8-31 | queuing appends to whatever is already queued, so after a flush has emptied the queue it holds exactly the new primary action, if any, followed by the route change |
| Commits.FilterTemplated | src/widget/api.rs:524-527 | the filtering loop keeps exactly the routes `Templated` describes |
| Commits.Navigate | src/widget/api.rs:25-61 | the method performs `CommitNavigate` on the widget's state |
| Commits.Replace | src/widget/api.rs:112-148 | the method performs `CommitReplace` |
| Commits.Reset | src/widget/api.rs:386-420 | the method performs `CommitReset` |
| Commits.SetStack | src/widget/api.rs:520-556 | the method performs `CommitSetStack` |
| Commits.InstallStack | src/widget/api.rs:531-555 | the method performs `StackInstalled` |
| Commits.Back | src/widget/api.rs:199-235 | the method performs `CommitBack` |
| Commits.Forward | src/widget/api.rs:277-310 | the method performs `CommitForward` |
| Commits.Pop | src/widget/api.rs:426-452 | the method performs `CommitPop` |
| Commits.PopTo | src/widget/api.rs:454-485 | the method performs `CommitPopTo` |
| Commits.PopToRoot | src/widget/api.rs:487-518 | the method performs `CommitPopToRoot` |
| PathNav.ResolvePathIntent | crates/makepad-router-widgets/src/widget/path_nav.rs:12-77 | the method returns `CommitSpec.ResolvePathIntent` through the URL cache and the nested-prefix cache |
| PathNav.ResolveParsed | crates/makepad-router-widgets/src/widget/path_nav.rs:19-37 | the method returns `CommitSpec.ResolveParsed` of the parsed path |
| PathNav.ResolveFallbackTiers | crates/makepad-router-widgets/src/widget/path_nav.rs:39-76 | the method returns `FallbackTiers` |
| PathNav.ApplyResolvedPathIntent | crates/makepad-router-widgets/src/widget/path_nav.rs:79-147 | the method performs `CommitIntent` on this widget's navigation state |
| PathNav.SetIntentOverride | crates/makepad-router-widgets/src/widget/path_nav.rs:84-92 | the kept unknown path becomes the intent's path for the not-found fallback and nothing otherwise |
| PathNav.MoveTo | crates/makepad-router-widgets/src/widget/path_nav.rs:97-102 | the route is pushed or replaces the current entry, and becomes the active route |
| PathNav.NavigateByPathInternal | crates/makepad-router-widgets/src/widget/path_nav.rs:149-161 | the method performs `CommitPath` with `replace` false |
| PathNav.ReplaceByPathInternal | crates/makepad-router-widgets/src/widget/path_nav.rs:163-174 | the method performs `CommitPath` with `replace` true |
| GuardFlow.LeaveHooksBlock | crates/makepad-router-widgets/src/widget/guard_flow.rs:71-76 | the loop over the synchronous before-leave hooks reports a block exactly when some hook blocks the context |
| GuardFlow.FindObjection | crates/makepad-router-widgets/src/widget/guard_flow.rs:222-248 | the loop over the synchronous guards stops at the first guard that does not allow, as `FirstObjection` describes |
| GuardFlow.SkipAllowingLeaveHooks | crates/makepad-router-widgets/src/widget/guard_flow.rs:277-283 | the `while` loop passes exactly the hooks that allow at once and stops at the first that does not, or at the end |
| GuardFlow.SkipAllowingGuards | crates/makepad-router-widgets/src/widget/guard_flow.rs:315-319 | the `while` loop passes exactly the guards that allow at once and stops at the first that does not, or at the end |
| GuardFlow.ApplyRequestBypassingGuardsResolved | crates/makepad-router-widgets/src/widget/guard_flow.rs:374-417 | the method performs `CommitRequest`: the operation runs with the flag set, and the flag is put back as it was |
| GuardFlow.ApplyRequestBypassingGuards | crates/makepad-router-widgets/src/widget/guard_flow.rs:370-372 | the method performs `CommitRequest` with no intent resolved in advance |
| GuardFlow.ApplyOperation | crates/makepad-router-widgets/src/widget/guard_flow.rs:382-414 | the match over the request performs `CommitOperation` |
| GuardFlow.ResolveNavContext | crates/makepad-router-widgets/src/widget/guard_flow.rs:92-190 | the method returns what `GuardSpec.ResolveNavContext` describes, changing only the caches |
| GuardFlow.RequestNavigation | crates/makepad-router-widgets/src/widget/guard_flow.rs:38-40 | `request_navigation` performs `RequestNav` from depth 0 with the before-leave hooks included |
| GuardFlow.RequestNavigationInternal | crates/makepad-router-widgets/src/widget/guard_flow.rs:42-90 | the method performs `RequestNav` |
| GuardFlow.EvaluateRequest | crates/makepad-router-widgets/src/widget/guard_flow.rs:61-89 | the method performs `Evaluate` |
| GuardFlow.LeaveThenGuards | crates/makepad-router-widgets/src/widget/guard_flow.rs:70-89 | the method performs `LeaveHooks` |
| GuardFlow.RunBeforeLeaveAsync | crates/makepad-router-widgets/src/widget/guard_flow.rs:268-304 | the method performs `LeaveAsync` from the given index |
| GuardFlow.LeaveHookDecision | crates/makepad-router-widgets/src/widget/guard_flow.rs:284-299 | the method performs `LeaveHookAnswer` |
| GuardFlow.ApplyGuardsAndMaybeCommit | crates/makepad-router-widgets/src/widget/guard_flow.rs:212-266 | the loop with its redirects performs `GuardsPhase` |
| GuardFlow.FollowRedirects | crates/makepad-router-widgets/src/widget/guard_flow.rs:220-251 | each round follows one redirect, one level deeper, or stops with the reason to record; when it hands back a request every synchronous guard allows it |
| GuardFlow.Object | crates/makepad-router-widgets/src/widget/guard_flow.rs:223-246 | one objection ends the request with its reason, or gives the redirect's request and context to run the guards on next |
| GuardFlow.CommitAllowed | crates/makepad-router-widgets/src/widget/guard_flow.rs:253-264 | the method performs `GuardsAllow` |
| GuardFlow.RunGuardAsync | crates/makepad-router-widgets/src/widget/guard_flow.rs:306-354 | the method performs `GuardAsync` from the given index |
| GuardFlow.GuardAsyncDecision | crates/makepad-router-widgets/src/widget/guard_flow.rs:320-349 | the method performs `AsyncGuardAnswer` |
| GuardFlow.RunAsyncRedirect | crates/makepad-router-widgets/src/widget/guard_flow.rs:324-337 | the method performs `AsyncRedirect` |
| GuardFlow.PollPendingNavigation | crates/makepad-router-widgets/src/widget/guard_flow.rs:430-537 | the method performs `Poll` with what the receiver delivered |
| GuardFlow.ResumeLeaveHooks | crates/makepad-router-widgets/src/widget/guard_flow.rs:462-473 | the method performs `ResumeLeave` |
| GuardFlow.ResumeGuards | crates/makepad-router-widgets/src/widget/guard_flow.rs:501-530 | the method performs `ResumeGuard` |
| Guards.AppendedGuardRunsLast | crates/makepad-router-widgets/src/widget/guards.rs:12-22 | a guard registered last is consulted after every guard registered before it: it decides only when all of them allow |
| Guards.AppendedHookBlocks | crates/makepad-router-widgets/src/widget/guards.rs:39-49 | with one more hook registered, the leave is blocked exactly when the new hook or an earlier one blocks it |
| Guards.AddRouteGuard | crates/makepad-router-widgets/src/widget/guards.rs:12-22 | `add_route_guard` is refused with `CapabilityDisabled`, recorded as the block reason, while synchronous guards are off; otherwise the guard is appended and nothing else changes |
| Guards.AddRouteGuardAsync | crates/makepad-router-widgets/src/widget/guards.rs:24-37 | the same for asynchronous guards, gated on asynchronous guards |
| Guards.AddBeforeLeaveHook | crates/makepad-router-widgets/src/widget/guards.rs:39-49 | the same for synchronous before-leave hooks, gated on synchronous guards |
| Guards.AddBeforeLeaveHookAsync | crates/makepad-router-widgets/src/widget/guards.rs:51-64 | the same for asynchronous before-leave hooks, gated on asynchronous guards |
| Guards.RegisteredGuardConsultedLast | crates/makepad-router-widgets/src/widget/guards.rs:91-96 | a route guard registered while synchronous guards are on is the last one consulted; while they are off no route guard is consulted at all |
| Guards.AsyncRegistrationVisible | crates/makepad-router-widgets/src/widget/guards.rs:66-78 | registering an asynchronous guard or hook makes the matching `has_async_*` true exactly when asynchronous guards are on, and neither is ever true while they are off |
| Persistence.TemplatedAll | crates/makepad-router-widgets/src/widget/persistence.rs:29-37 | a saved stack whose every route has a template is kept whole |
| Persistence.TemplatedNone | crates/makepad-router-widgets/src/widget/persistence.rs:29-40 | a saved stack with no route that has a template is dropped whole |
| Persistence.UpToCurrent | crates/makepad-router-widgets/src/widget/persistence.rs:33-35 | the saved routes up to and including the saved current index |
| Persistence.RemappedIndexInRange | crates/makepad-router-widgets/src/widget/persistence.rs:27-37 | whenever something is kept, the restored current index points into what is kept |
| Persistence.RestoredCurrentIsLastKept | crates/makepad-router-widgets/src/widget/persistence.rs:29-37 | the restored current route is the last route with a template at or before the saved current index |
| Persistence.NoKeptBeforeRestoresFirst | crates/makepad-router-widgets/src/widget/persistence.rs:28-37 | when no route at or before the saved current index has a template, the first kept route becomes current |
| Persistence.BuildState | crates/makepad-router-widgets/src/widget/persistence.rs:9-17 | `build_state` is the default state while persistence is off, and otherwise the history and the kept unknown path |
| Persistence.StateApplied | crates/makepad-router-widgets/src/widget/persistence.rs:19-62 | `apply_state` records `CapabilityDisabled` while persistence is off; it succeeds exactly when some saved route has a template, and then the templated routes become the history with the remapped current index, the saved unknown path is restored and `Reset` of the new current route then the route change are queued; otherwise nothing changes |
| Persistence.Restoration | crates/makepad-router-widgets/src/widget/persistence.rs:42-61 | the end of `apply_state` installs the kept routes and index, restores the unknown path, makes the current route active and queues `Reset` then the route change |
| Persistence.StateRoundTrip | crates/makepad-router-widgets/src/widget/persistence.rs:9-62 | a state saved with persistence on, from a history whose every route still has a template, restores that history and unknown path exactly |
| Persistence.DisabledStateRestoresNothing | crates/makepad-router-widgets/src/widget/persistence.rs:9-40 | a state saved with persistence off restores nothing and changes nothing |
| Persistence.FilterRestored | crates/makepad-router-widgets/src/widget/persistence.rs:27-37 | the loop of `apply_state` keeps the templated routes in order and follows the saved current index to its remapped position |
| Persistence.GetState | crates/makepad-router-widgets/src/widget/persistence.rs:9-17 | the method returns `BuildState` of the widget |
| Persistence.ApplyState | crates/makepad-router-widgets/src/widget/persistence.rs:19-62 | the method performs `StateApplied` |
| Engine.Overwritten | crates/makepad-router-widgets/src/widget/engine.rs:18-23 | a configured id replaces the widget's only when it is not `LiveId(0)` |
| Engine.ConfiguredSettings | crates/makepad-router-widgets/src/widget/engine.rs:18-30 | the default route and the three transitions are replaced only by non-zero ids, all three transitions by the same one, and the persistence flag is copied |
| Engine.ConfigIdempotent | crates/makepad-router-widgets/src/widget/engine.rs:11-31 | applying the same configuration twice is applying it once |
| Engine.ZeroIdsKeepSettings | crates/makepad-router-widgets/src/widget/engine.rs:18-30 | a configuration naming no id leaves every id as it was |
| Engine.ApplyConfig | crates/makepad-router-widgets/src/widget/engine.rs:11-31 | `apply_config` copies every capability flag, replaces the not-found route, default route and transitions only by non-zero ids, copies the persistence flag and leaves the navigation state alone |
| Engine.RequestOf | crates/makepad-router-widgets/src/widget/engine.rs:91-129 | a command is a history command exactly when the request it makes is a history request |
| Engine.PrimaryActionForCommand | crates/makepad-router-widgets/src/widget/engine.rs:33-51 | no action for the pops; `Back` and `Forward` for themselves; otherwise the new current route announced as `Navigate`, `Replace` or `Reset` by the command's kind, present exactly when there is a new current route |
| Engine.InferBlockReason | crates/makepad-router-widgets/src/widget/engine.rs:53-85 | a reason is inferred exactly when the route after the command equals the route before under `PartialEq for Route` (`Routes.SameCurrent`, parameters compared as maps): `NoHistory` exactly for the history commands and `RouteMissing` exactly for the others |
| Engine.InferredAgreesWithResolution | crates/makepad-router-widgets/src/widget/engine.rs:53-85 | whenever the routes before and after compare equal, the inferred reason is the one the request pipeline records when the command's request cannot be resolved |
| Engine.CommandCommit | crates/makepad-router-widgets/src/widget/engine.rs:91-130 | a command run with guards bypassed keeps the history well formed, never touches the guard state and changes nothing when it fails |
| Engine.CommitQueuesPrimaryAction | crates/makepad-router-widgets/src/widget/engine.rs:132-148 | the action `dispatch` reports for a command that commits is exactly the primary action the commit queued for the new current route |
| Engine.GoToPathQueuesNavigate | crates/makepad-router-widgets/src/widget/engine.rs:99 | a `GoToPath` that commits queues `Navigate` of the new current route |
| Engine.PathCommandCommits | crates/makepad-router-widgets/src/widget/engine.rs:99 | `GoToPath` commits its path by pushing and clearing the URL extras |
| Engine.ReplacePathQueuesReplace | crates/makepad-router-widgets/src/widget/engine.rs:107-109 | a `ReplacePath` that commits queues `Replace` of the new current route |
| Engine.CommitPathSettles | crates/makepad-router-widgets/src/widget/path_nav.rs:79-147 | a path commit makes the resolved route current and queues it as a replacement exactly when it replaces |
| Engine.Executed | crates/makepad-router-widgets/src/widget/engine.rs:91-130 | the operation a command runs keeps the history well formed, never changes the bypass flag, and when it fails records at most a reason |
| Engine.BypassedExecutesCommit | crates/makepad-router-widgets/src/widget/engine.rs:91-130 | while guards are bypassed a command runs exactly its commit |
| Engine.Dispatched | crates/makepad-router-widgets/src/widget/engine.rs:87-152 | `dispatch` clears the recorded reason and reports the current routes before and after; a change carries the primary action and no reason; no change carries no action, the same route at both ends, and the recorded reason or else the inferred one |
| Engine.UnmovedDispatchHasReason | crates/makepad-router-widgets/src/widget/engine.rs:132-139 | when the current route's parameter store is well formed, a command that did not move always reports a reason, and with none recorded it is the resolution reason of the command's request |
| Engine.DispatchIgnoresStaleReason | crates/makepad-router-widgets/src/widget/engine.rs:88-89 | the result of `dispatch` does not depend on the reason recorded before it |
| Engine.BypassedDispatchReportsQueued | crates/makepad-router-widgets/src/widget/engine.rs:87-152 | while guards are bypassed, a command that changed something has made the reported route current and active and queued the reported action followed by the route change |
| Engine.Execute | crates/makepad-router-widgets/src/widget/engine.rs:91-130 | the method performs `Executed` |
| Engine.Dispatch | crates/makepad-router-widgets/src/widget/engine.rs:87-152 | the method performs `Dispatched` |

## Left out

- Hashing of `LiveId`: an id is its name, so hash collisions are not modelled.
- `HashMap` iteration order: the registry's `HashMap`s are Dafny maps, which have no order. The by-pattern list is a `Vec` in the source and a sequence here.
- Rendering, animation and everything in floating point: transitions, hero capture, route rendering and the inspector.
- Browser history and URL synchronisation (`src/widget/url_sync.rs`): it is host glue.
- Script-VM loading and live-apply wiring (`live_apply.rs`, `route_defs.rs`, `route_widgets.rs`): these are outside the state machine.
- Threads and channels: an asynchronous guard's receiver is a poll oracle, the `Received` parameter. The `spawn_thread` and `AtomicBool` code of the examples is not modelled.
- Route-change callbacks (`callbacks.rs`): these are foreign closures.
- Logging (`log!`): it has no effect on state.
- The `Router` preview functions are not part of this model. The guard context's preview of the target route is defined as the route the operation would make current, and `GuardSpec.ContextPredictsCommit` proves that this holds.
- Commits.Navigate and the other commit operations of `src/widget/api.rs`: only their effect on history, the active route, the URL path override and the action queue is modelled. Starting transitions, web history and redraws are not.
- Transition variants of the commands and requests (`…WithTransition`) are merged into the plain variants, since transitions are not modelled.
- The `RouterRedirectTarget::Url` target: the widget's `redirect_to_request` handles only route and path targets, so only those are modelled.
- GuardSpec.RequestNav and GuardFlow.RequestNavigationInternal: the redirect depth is unbounded rather than a `u8` with a saturating add. The limit of 8 is reached long before a `u8` could saturate.
- Widgets.RouterWidget.RegisterRoutePattern: `route_registry_epoch` is unbounded, so the `u64` `wrapping_add` never wraps. Nested-cache coherence relies on this.
- Nested.ResolveNestedPrefix: the candidates are scanned as the registered patterns in registration order, then the child routers in registration order. The source scans the keys of two `ComponentMap`s (nested.rs:24-30), so the map's own order decides which of two equal-priority prefix hits wins. NestedSelect.BestNestedIsLeast holds for any candidate order: the result has the least priority of all hits whatever the order, and only the tie-break among equal priorities depends on it.
- PathNav.ApplyResolvedPathIntent: the calls to `delegate_tail_to_child` (path_nav.rs:129-143) are not modelled. These hand a `NestedPrefix` tail to a child router, and re-match a `FullMatch` path in a child router when one is registered. They can also record newly detected child routers in this widget's `child_routers` (nested.rs:65, 78-91). Their result is discarded, so the history, active route, URL override and action queue of this widget are as `CommitIntent` states.
- Engine.Dispatched: a command that did not move reports a reason only when one was recorded or the route compares equal to itself. `RouteParamStore` is public, and a `Small` store that holds one key twice with different values is not equal to itself, so then no reason is inferred. Engine.UnmovedDispatchHasReason proves that a reason is always reported for a well-formed store.
- Nested.DelegateTailToChild: whether the child router accepts the tail is a parameter (`childAccepts`), since the child is another widget in the tree.
- Finding child routers in the widget tree (`detect_child_routers`, `find_first_child_router`): this is a widget-tree search, so the model keeps the list of child routers as data.
- Serialisation (`serde` implementations): it is not part of the state machine.
- The widget crate's `parse_url_cached` (`crates/makepad-router-widgets/src/widget/url_cache.rs`) calls `get` and `insert` methods whose definitions are not part of this model. The modelled cache is the one of `src/widget/url_cache.rs`, which has the same contract: it returns what `RouterUrl::parse` returns.
