/**
 * Routes (`crates/makepad-router-core/src/route.rs`): a route is an id with its
 * path parameters, its query map, its hash fragment and, optionally, the
 * pattern it was declared with. Routes are plain values that the history
 * copies, so the `&mut self` updates of the query map are modelled as
 * functions returning the updated value.
 */
module Routes {
  import opened Wrappers
  import opened Text
  import opened Ids
  import opened Patterns
  import opened Url

  /** `RouteQuery`: query parameters as a string map. */
  datatype RouteQuery = RouteQuery(data: map<string, string>)

  const EmptyQuery := RouteQuery(map[])

  datatype Route = Route(id: LiveId, params: RouteParams, query: RouteQuery, hash: string, pattern: Option<RoutePattern>)

  /* ----------------------------------------------------------------- query */

  /** `RouteQuery::get`. */
  function QueryGet(q: RouteQuery, key: string): (r: Option<string>)
    ensures r.Some? <==> key in q.data
    ensures r.Some? ==> r.value == q.data[key]
  {
    if key in q.data then Some(q.data[key]) else None
  }

  /** `RouteQuery::set`: insert or replace one key. */
  function QuerySet(q: RouteQuery, key: string, value: string): (r: RouteQuery)
    ensures key in r.data && r.data[key] == value
    ensures r.data.Keys == q.data.Keys + {key}
  {
    RouteQuery(q.data[key := value])
  }

  /** `RouteQuery::remove`: the map without the key, and whether the key was there. */
  function QueryRemove(q: RouteQuery, key: string): (r: (RouteQuery, bool))
    ensures r.1 <==> key in q.data
    ensures key !in r.0.data
    ensures r.0.data.Keys == q.data.Keys - {key}
  {
    (RouteQuery(q.data - {key}), key in q.data)
  }

  /** `RouteQuery::clear`. */
  function QueryClear(q: RouteQuery): (r: RouteQuery)
    ensures forall key :: QueryGet(r, key).None?
  {
    EmptyQuery
  }

  /** `RouteQuery::from_query_string`. */
  function QueryFromString(query: string): (r: RouteQuery)
    ensures "" !in r.data
  {
    QueryMapNoEmptyKey(query);
    RouteQuery(QueryMap(query))
  }

  /** `set` then `get` returns the value just set; other keys read as before. */
  lemma QuerySetThenGet(q: RouteQuery, key: string, value: string, other: string)
    ensures QueryGet(QuerySet(q, key, value), key) == Some(value)
    ensures other != key ==> QueryGet(QuerySet(q, key, value), other) == QueryGet(q, other)
  {
  }

  /** `remove` reports a present key exactly once: removing it again returns `false`; other keys are untouched. */
  lemma QueryRemoveThenGet(q: RouteQuery, key: string, other: string)
    ensures QueryGet(QueryRemove(q, key).0, key).None?
    ensures !QueryRemove(QueryRemove(q, key).0, key).1
    ensures other != key ==> QueryGet(QueryRemove(q, key).0, other) == QueryGet(q, other)
  {
  }

  /** Setting a key and removing it gives back the map without that key. */
  lemma QuerySetThenRemove(q: RouteQuery, key: string, value: string)
    ensures QueryRemove(QuerySet(q, key, value), key).0 == QueryRemove(q, key).0
    ensures QueryRemove(QuerySet(q, key, value), key).1
  {
  }

  /* ---------------------------------------------------------------- routes */

  /** `Route::new`: no parameters, no query, no hash, no pattern. */
  function New(id: LiveId): (r: Route)
    ensures r.id == id && IsEmpty(r.params) && r.params.Valid()
    ensures r.query.data == map[] && r.hash == "" && r.pattern.None?
  {
    Route(id, EmptyParams, EmptyQuery, "", None)
  }

  /** `Route::with_params`. */
  function WithParams(id: LiveId, params: RouteParams): (r: Route)
    ensures r.id == id && r.params == params
    ensures r.query.data == map[] && r.hash == "" && r.pattern.None?
  {
    Route(id, params, EmptyQuery, "", None)
  }

  /** `Route::from_pattern`: the route of a parsed pattern, or the parse error. */
  function FromPattern(pattern: string, id: LiveId): (r: Result<Route, PatternError>)
    ensures r.Ok? <==> ParsePattern(pattern).Ok?
    ensures r.Err? ==> r.error == ParsePattern(pattern).error
    ensures r.Ok? ==> r.value.id == id && r.value.pattern == Some(ParsePattern(pattern).value)
    ensures r.Ok? ==> IsEmpty(r.value.params) && r.value.query.data == map[] && r.value.hash == ""
  {
    match ParsePattern(pattern)
    case Err(e) => Err(e)
    case Ok(p) => Ok(Route(id, EmptyParams, EmptyQuery, "", Some(p)))
  }

  /** An empty or blank pattern text never gives a route. */
  lemma FromBlankPattern(pattern: string, id: LiveId)
    requires Trim(pattern) == ""
    ensures FromPattern(pattern, id) == Err(EmptyPatternError)
  {
  }

  /** `Route::param`: the route with one more parameter. */
  function Param(route: Route, key: LiveId, value: LiveId): (r: Route)
    ensures r.id == route.id && r.query == route.query && r.hash == route.hash && r.pattern == route.pattern
  {
    route.(params := Added(route.params, key, value))
  }

  /** `Route::get_param`. */
  function GetParam(route: Route, key: LiveId): Option<LiveId> {
    Get(route.params, key)
  }

  /**
   * `route.param(k, v).get_param(k) == Some(v)`; other parameters are
   * unchanged, and the store stays well formed.
   */
  lemma ParamThenGet(route: Route, key: LiveId, value: LiveId, other: LiveId)
    requires route.params.Valid()
    ensures GetParam(Param(route, key, value), key) == Some(value)
    ensures other != key ==> GetParam(Param(route, key, value), other) == GetParam(route, other)
    ensures Param(route, key, value).params.Valid()
  {
    AddedThenGet(route.params, key, value, other);
    AddedSpec(route.params, key, value);
  }

  /**
   * The derived `PartialEq for Route`: field by field, with the parameters
   * compared by `PartialEq for RouteParams`.
   */
  predicate SameRoute(a: Route, b: Route) {
    a.id == b.id && Eq(a.params, b.params) && a.query == b.query && a.hash == b.hash && a.pattern == b.pattern
  }

  /** `==` on `Option<Route>`. */
  predicate SameCurrent(a: Option<Route>, b: Option<Route>) {
    if a.Some? && b.Some? then SameRoute(a.value, b.value) else a.None? && b.None?
  }

  /**
   * Two routes with well-formed parameter stores compare equal exactly when
   * they bind the same parameters, whatever the order the stores hold them
   * in, and agree on every other field; in particular every such route
   * equals itself.
   */
  lemma SameRouteIsMapEquality(a: Route, b: Route)
    requires a.params.Valid() && b.params.Valid()
    ensures SameRoute(a, b) <==>
      a.id == b.id && ToMap(a.params) == ToMap(b.params) && a.query == b.query && a.hash == b.hash && a.pattern == b.pattern
    ensures SameRoute(a, a)
  {
    EqIsMapEquality(a.params, b.params);
    EqIsMapEquality(a.params, a.params);
  }

  /* ------------------------------------------------------------- booleans */

  predicate IsTrueWord(s: string) {
    s == "1" || s == "true" || s == "yes" || s == "on"
  }

  predicate IsFalseWord(s: string) {
    s == "0" || s == "false" || s == "no" || s == "off"
  }

  /** The text-to-bool mapping shared by `get_param_bool` and `query_get_bool`. */
  function ParseBool(s: string): (r: Option<bool>)
    ensures r == Some(true) <==> IsTrueWord(AsciiLower(s))
    ensures r == Some(false) <==> IsFalseWord(AsciiLower(s))
    ensures r.None? <==> !IsTrueWord(AsciiLower(s)) && !IsFalseWord(AsciiLower(s))
  {
    var t := AsciiLower(s);
    if IsTrueWord(t) then Some(true)
    else if IsFalseWord(t) then Some(false)
    else None
  }

  /** Lowering letters twice is lowering them once. */
  lemma AsciiLowerIdempotent(s: string)
    ensures AsciiLower(AsciiLower(s)) == AsciiLower(s)
  {
  }

  /** The mapping ignores ASCII case. */
  lemma ParseBoolIgnoresCase(s: string)
    ensures ParseBool(AsciiLower(s)) == ParseBool(s)
  {
    AsciiLowerIdempotent(s);
  }

  /** Only texts of at most five characters give a value. */
  lemma ParseBoolShortWords(s: string)
    requires ParseBool(s).Some?
    ensures 1 <= |s| <= 5
  {
  }

  /** `Route::get_param_bool`: absent parameters and unknown words give `None`. */
  function GetParamBool(route: Route, key: LiveId): (r: Option<bool>)
    ensures GetParam(route, key).None? ==> r.None?
    ensures GetParam(route, key).Some? ==> r == ParseBool(GetParam(route, key).value)
  {
    match GetParam(route, key)
    case None => None
    case Some(v) => ParseBool(v)
  }

  /** `Route::query_get_bool`. */
  function QueryGetBool(route: Route, key: string): (r: Option<bool>)
    ensures key !in route.query.data ==> r.None?
    ensures key in route.query.data ==> r == ParseBool(route.query.data[key])
  {
    match QueryGet(route.query, key)
    case None => None
    case Some(v) => ParseBool(v)
  }

  /** A query value set to `"ON"` reads back as `true`, and `"No"` as `false`. */
  lemma QueryBoolAfterSet(route: Route, key: string, on: string, off: string)
    requires on == "ON" && off == "No"
    ensures QueryGetBool(route.(query := QuerySet(route.query, key, on)), key) == Some(true)
    ensures QueryGetBool(route.(query := QuerySet(route.query, key, off)), key) == Some(false)
  {
    assert AsciiLower(on) == "on";
    assert AsciiLower(off) == "no";
  }
}
