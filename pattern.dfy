/**
 * Route patterns (`crates/makepad-router-core/src/pattern.rs`): parsing
 * templates such as `/a/:id` with `*` and `**` wildcards, matching whole paths
 * and path prefixes, priorities,
 * formatting a concrete path back out, and the `RouteParams` store that keeps
 * up to four pairs in a small list and moves to a map on the fifth key.
 */
module Patterns {
  import opened Wrappers
  import opened Text
  import opened Ids

  datatype RouteSegment =
    | Static(text: string)
      /** `:name`; its key is the id of `name`. */
    | Dynamic(name: string)
      /** `*`: exactly one segment. */
    | WildcardSingle
      /** `**`: the rest of the path, possibly nothing. */
    | WildcardMulti

  datatype RoutePattern = RoutePattern(segments: seq<RouteSegment>)

  /** The three ways `RoutePattern::parse` fails. */
  datatype PatternError = EmptyPatternError | MultiNotLastError | EmptyParamError

  /** The message `RoutePattern::parse` returns for each failure. */
  function Message(e: PatternError): string {
    match e
    case EmptyPatternError => "Pattern cannot be empty"
    case MultiNotLastError => "Multi-segment wildcard (**) must be the last segment"
    case EmptyParamError => "Dynamic segment parameter name cannot be empty"
  }

  /** The non-empty `/`-separated pieces of the trimmed text, one leading `/` stripped first. */
  function PathSegments(text: string): (r: seq<string>)
    ensures forall i :: 0 <= i < |r| ==> r[i] != "" && '/' !in r[i]
  {
    Segments(StripPrefixChar(Trim(text), '/'))
  }

  /* ---------------------------------------------------------------- params */

  const SmallCapacity := 4

  /** `RouteParamStore`: a list of at most four pairs, or a map once a fifth key arrives. */
  datatype RouteParams = Small(entries: seq<(LiveId, LiveId)>) | Map(table: map<LiveId, LiveId>)
  {
    /** The store's invariant: the small list holds at most four pairs with distinct keys. */
    predicate Valid() {
      Small? ==> |entries| <= SmallCapacity && DistinctKeys(entries)
    }
  }

  const EmptyParams: RouteParams := Small([])

  predicate DistinctKeys(entries: seq<(LiveId, LiveId)>) {
    forall i, j :: 0 <= i < j < |entries| ==> entries[i].0 != entries[j].0
  }

  /** The pairs of a list as a map, later pairs taking precedence. */
  function EntriesMap(entries: seq<(LiveId, LiveId)>): map<LiveId, LiveId>
    decreases |entries|
  {
    if |entries| == 0 then map[]
    else
      var rest := EntriesMap(entries[1..]);
      if entries[0].0 in rest then rest else rest[entries[0].0 := entries[0].1]
  }

  /** The abstract contents of a store: a finite map from key to value. */
  function ToMap(p: RouteParams): map<LiveId, LiveId> {
    match p
    case Small(es) => EntriesMap(es)
    case Map(t) => t
  }

  /** Index of the first pair whose key is `k`. */
  function FindKey(entries: seq<(LiveId, LiveId)>, k: LiveId): (r: Option<nat>)
    ensures r.Some? ==> r.value < |entries| && entries[r.value].0 == k
    ensures r.Some? ==> forall j :: 0 <= j < r.value ==> entries[j].0 != k
    ensures r.None? ==> forall j :: 0 <= j < |entries| ==> entries[j].0 != k
    decreases |entries|
  {
    if |entries| == 0 then None
    else if entries[0].0 == k then Some(0)
    else match FindKey(entries[1..], k)
      case None => None
      case Some(i) => Some(i + 1)
  }

  /** `RouteParams::get`. */
  function Get(p: RouteParams, k: LiveId): Option<LiveId> {
    match p
    case Small(es) => (match FindKey(es, k) case Some(i) => Some(es[i].1) case None => None)
    case Map(t) => if k in t then Some(t[k]) else None
  }

  /** `RouteParams::is_empty`. */
  function IsEmpty(p: RouteParams): bool {
    match p
    case Small(es) => |es| == 0
    case Map(t) => |t| == 0
  }

  /** `RouteParams::len`. */
  function Len(p: RouteParams): nat {
    match p
    case Small(es) => |es|
    case Map(t) => |t|
  }

  /** The store `add` leaves behind. */
  function Added(p: RouteParams, k: LiveId, v: LiveId): RouteParams {
    match p
    case Small(es) =>
      (match FindKey(es, k)
       case Some(i) => Small(es[i := (k, v)])
       case None => if |es| < SmallCapacity then Small(es + [(k, v)]) else Map(EntriesMap(es)[k := v]))
    case Map(t) => Map(t[k := v])
  }

  /** `RouteParams::add`: overwrite the value of an existing key, append, or move to a map. */
  method Add(p: RouteParams, k: LiveId, v: LiveId) returns (r: RouteParams)
    ensures r == Added(p, k, v)
  {
    match p {
      case Small(es) =>
        var i := 0;
        while i < |es|
          invariant i <= |es|
          invariant forall j :: 0 <= j < i ==> es[j].0 != k
        {
          if es[i].0 == k {
            assert FindKey(es, k) == Some(i);
            return Small(es[i := (k, v)]);
          }
          i := i + 1;
        }
        assert FindKey(es, k).None?;
        if |es| < SmallCapacity {
          r := Small(es + [(k, v)]);
        } else {
          r := Map(EntriesMap(es)[k := v]);
        }
      case Map(t) =>
        r := Map(t[k := v]);
    }
  }

  /** `PartialEq for RouteParams`: the same length, and every pair of `p` is found in `q`. */
  predicate Eq(p: RouteParams, q: RouteParams) {
    Len(p) == Len(q) &&
    match p
    case Small(es) => forall i :: 0 <= i < |es| ==> Get(q, es[i].0) == Some(es[i].1)
    case Map(t) => forall k :: k in t ==> Get(q, k) == Some(t[k])
  }

  lemma {:induction false} EntriesMapKeys(entries: seq<(LiveId, LiveId)>, k: LiveId)
    ensures k in EntriesMap(entries) <==> FindKey(entries, k).Some?
    decreases |entries|
  {
    if |entries| > 0 {
      EntriesMapKeys(entries[1..], k);
    }
  }

  lemma {:induction false} EntriesMapAt(entries: seq<(LiveId, LiveId)>, i: nat)
    requires DistinctKeys(entries) && i < |entries|
    ensures entries[i].0 in EntriesMap(entries) && EntriesMap(entries)[entries[i].0] == entries[i].1
    decreases |entries|
  {
    var rest := entries[1..];
    assert DistinctKeys(rest);
    if i == 0 {
      EntriesMapKeys(rest, entries[0].0);
    } else {
      EntriesMapAt(rest, i - 1);
      assert rest[i - 1] == entries[i];
    }
  }

  lemma {:induction false} EntriesMapSize(entries: seq<(LiveId, LiveId)>)
    requires DistinctKeys(entries)
    ensures |EntriesMap(entries)| == |entries|
    decreases |entries|
  {
    if |entries| > 0 {
      var rest := entries[1..];
      assert DistinctKeys(rest);
      EntriesMapSize(rest);
      EntriesMapKeys(rest, entries[0].0);
    }
  }

  /** Under the invariant, `get` reads the abstract map. */
  lemma GetReadsMap(p: RouteParams, k: LiveId)
    requires p.Valid()
    ensures Get(p, k) == if k in ToMap(p) then Some(ToMap(p)[k]) else None
  {
    if p.Small? {
      EntriesMapKeys(p.entries, k);
      if FindKey(p.entries, k).Some? {
        EntriesMapAt(p.entries, FindKey(p.entries, k).value);
      }
    }
  }

  /** Under the invariant, `len` is the number of distinct keys. */
  lemma LenIsKeyCount(p: RouteParams)
    requires p.Valid()
    ensures Len(p) == |ToMap(p)|
    ensures IsEmpty(p) <==> ToMap(p) == map[]
  {
    if p.Small? {
      EntriesMapSize(p.entries);
    }
  }

  /** `add` then `get` on the same key gives the value just added; other keys are untouched. */
  lemma AddedThenGet(p: RouteParams, k: LiveId, v: LiveId, other: LiveId)
    requires p.Valid()
    ensures Get(Added(p, k, v), k) == Some(v)
    ensures other != k ==> Get(Added(p, k, v), other) == Get(p, other)
  {
    AddedSpec(p, k, v);
    GetReadsMap(p, other);
    GetReadsMap(Added(p, k, v), k);
    GetReadsMap(Added(p, k, v), other);
  }

  /**
   * `add` keeps the invariant and binds the key to the new value, leaving the
   * other keys alone; re-adding a key never grows `len`; the store becomes a
   * map exactly when a fifth distinct key arrives.
   */
  lemma AddedSpec(p: RouteParams, k: LiveId, v: LiveId)
    requires p.Valid()
    ensures Added(p, k, v).Valid()
    ensures ToMap(Added(p, k, v)) == ToMap(p)[k := v]
    ensures Added(p, k, v).Map? <==> p.Map? || (k !in ToMap(p) && Len(p) == SmallCapacity)
    ensures k in ToMap(p) ==> Len(Added(p, k, v)) == Len(p)
  {
    match p {
      case Small(es) =>
        EntriesMapKeys(es, k);
        match FindKey(es, k) {
          case Some(i) =>
            var es' := es[i := (k, v)];
            assert DistinctKeys(es');
            SameKeysSameMap(es, es', i, k, v);
          case None =>
            if |es| < SmallCapacity {
              var es' := es + [(k, v)];
              assert DistinctKeys(es');
              AppendedMap(es, k, v);
            }
        }
      case Map(t) =>
    }
  }

  lemma {:induction false} SameKeysSameMap(es: seq<(LiveId, LiveId)>, es': seq<(LiveId, LiveId)>, i: nat, k: LiveId, v: LiveId)
    requires i < |es| && es[i].0 == k && es' == es[i := (k, v)]
    requires DistinctKeys(es)
    ensures EntriesMap(es') == EntriesMap(es)[k := v]
    decreases |es|
  {
    assert DistinctKeys(es[1..]);
    if i == 0 {
      assert es'[1..] == es[1..];
      EntriesMapKeys(es[1..], k);
    } else {
      assert es'[1..] == es[1..][i - 1 := (k, v)];
      SameKeysSameMap(es[1..], es'[1..], i - 1, k, v);
      EntriesMapKeys(es[1..], es[0].0);
      EntriesMapKeys(es'[1..], es[0].0);
    }
  }

  lemma {:induction false} AppendedMap(es: seq<(LiveId, LiveId)>, k: LiveId, v: LiveId)
    requires FindKey(es, k).None?
    ensures EntriesMap(es + [(k, v)]) == EntriesMap(es)[k := v]
    decreases |es|
  {
    if |es| == 0 {
    } else {
      assert (es + [(k, v)])[1..] == es[1..] + [(k, v)];
      AppendedMap(es[1..], k, v);
      EntriesMapKeys(es[1..], es[0].0);
      EntriesMapKeys(es[1..] + [(k, v)], es[0].0);
      EntriesMapKeys(es[1..], k);
      var rest := EntriesMap(es[1..]);
      assert es[0].0 != k;
      assert es[0].0 in rest[k := v] <==> es[0].0 in rest;
    }
  }

  /** Equality of stores ignores the order in which keys were added. */
  lemma EqIsMapEquality(p: RouteParams, q: RouteParams)
    requires p.Valid() && q.Valid()
    ensures Eq(p, q) <==> ToMap(p) == ToMap(q)
  {
    LenIsKeyCount(p);
    LenIsKeyCount(q);
    var mp, mq := ToMap(p), ToMap(q);
    if Eq(p, q) {
      forall k | k in mp ensures k in mq && mq[k] == mp[k] {
        GetReadsMap(q, k);
        if p.Small? {
          EntriesMapKeys(p.entries, k);
          var i := FindKey(p.entries, k).value;
          EntriesMapAt(p.entries, i);
          assert Get(q, p.entries[i].0) == Some(p.entries[i].1);
        }
      }
      SubsetOfSameSize(mp.Keys, mq.Keys);
    }
    if mp == mq {
      if p.Small? {
        forall i | 0 <= i < |p.entries| ensures Get(q, p.entries[i].0) == Some(p.entries[i].1) {
          EntriesMapAt(p.entries, i);
          GetReadsMap(q, p.entries[i].0);
        }
      } else {
        forall k | k in p.table ensures Get(q, k) == Some(p.table[k]) {
          GetReadsMap(q, k);
        }
      }
    }
  }

  lemma SubsetOfSameSize<T>(a: set<T>, b: set<T>)
    requires a <= b && |a| == |b|
    ensures a == b
  {
    assert |b - a| == |b| - |a|;
  }

  /* ---------------------------------------------------------------- parse */

  /** The segment one non-empty piece of a template stands for. */
  function SegmentOf(part: string): RouteSegment {
    if part == "**" then WildcardMulti
    else if part == "*" then WildcardSingle
    else if |part| > 0 && part[0] == ':' then Dynamic(part[1..])
    else Static(part)
  }

  function SegmentsOf(parts: seq<string>): (r: seq<RouteSegment>)
    ensures |r| == |parts| && forall i :: 0 <= i < |parts| ==> r[i] == SegmentOf(parts[i])
  {
    seq(|parts|, i requires 0 <= i < |parts| => SegmentOf(parts[i]))
  }

  /** The error the parser reports at piece `i`: a `**` that is not last, or a `:` with no name. */
  function PartError(parts: seq<string>, i: nat): Option<PatternError>
    requires i < |parts|
  {
    if parts[i] == "**" && i != |parts| - 1 then Some(MultiNotLastError)
    else if parts[i] == ":" then Some(EmptyParamError)
    else None
  }

  /** The first error among pieces `i` onwards. */
  function FirstErrorFrom(parts: seq<string>, i: nat): (r: Option<PatternError>)
    requires i <= |parts|
    decreases |parts| - i
  {
    if i == |parts| then None
    else if PartError(parts, i).Some? then PartError(parts, i)
    else FirstErrorFrom(parts, i + 1)
  }

  lemma {:induction false} FirstErrorFromNone(parts: seq<string>, i: nat)
    requires i <= |parts|
    ensures FirstErrorFrom(parts, i).None? <==> forall j :: i <= j < |parts| ==> PartError(parts, j).None?
    decreases |parts| - i
  {
    if i < |parts| {
      FirstErrorFromNone(parts, i + 1);
    }
  }

  /** A `**` can only be the final segment. */
  predicate MultiOnlyLast(p: RoutePattern) {
    forall i :: 0 <= i < |p.segments| - 1 ==> p.segments[i] != WildcardMulti
  }

  /** No piece of the template is rejected. */
  predicate WellFormedParts(parts: seq<string>) {
    forall i :: 0 <= i < |parts| ==> PartError(parts, i).None?
  }

  /** What `RoutePattern::parse` returns for the pieces of a non-blank template. */
  function ParseParts(parts: seq<string>): (r: Result<RoutePattern, PatternError>)
    ensures r != Err(EmptyPatternError)
    ensures r.Ok? ==> MultiOnlyLast(r.value)
  {
    match FirstErrorFrom(parts, 0)
    case Some(e) =>
      assert e != EmptyPatternError by {
        FirstErrorIsAnError(parts, 0);
      }
      Err(e)
    case None =>
      var p := RoutePattern(SegmentsOf(parts));
      assert MultiOnlyLast(p) by {
        FirstErrorFromNone(parts, 0);
        forall i | 0 <= i < |parts| - 1 ensures p.segments[i] != WildcardMulti {
          assert PartError(parts, i).None?;
        }
      }
      Ok(p)
  }

  /** What `RoutePattern::parse` returns. */
  function ParsePattern(text: string): (r: Result<RoutePattern, PatternError>)
    ensures r == Err(EmptyPatternError) <==> Trim(text) == ""
    ensures r.Ok? ==> MultiOnlyLast(r.value)
  {
    if Trim(text) == "" then Err(EmptyPatternError) else ParseParts(PathSegments(text))
  }

  /**
   * `parse` succeeds exactly when the trimmed text is non-empty and no piece is a
   * `**` before the last or a bare `:`; the segments are then the pieces, in order.
   */
  lemma ParseOutcome(text: string)
    ensures ParsePattern(text).Ok? <==> Trim(text) != "" && WellFormedParts(PathSegments(text))
    ensures ParsePattern(text).Ok? ==> ParsePattern(text).value.segments == SegmentsOf(PathSegments(text))
    ensures ParsePattern(text).Err? && Trim(text) != "" ==> !ParsePattern(text).error.EmptyPatternError?
  {
    FirstErrorFromNone(PathSegments(text), 0);
    FirstErrorIsAnError(PathSegments(text), 0);
  }

  lemma {:induction false} FirstErrorIsAnError(parts: seq<string>, i: nat)
    requires i <= |parts|
    ensures FirstErrorFrom(parts, i) != Some(EmptyPatternError)
    decreases |parts| - i
  {
    if i < |parts| {
      FirstErrorIsAnError(parts, i + 1);
    }
  }

  /** A piece that the parser turns into `seg` raises no error, and `seg` is the piece's segment. */
  lemma PieceAccepted(parts: seq<string>, i: nat, seg: RouteSegment)
    requires i < |parts|
    requires parts[i] == "**" ==> i == |parts| - 1 && seg == WildcardMulti
    requires parts[i] != "**" && parts[i] == "*" ==> seg == WildcardSingle
    requires parts[i] != "**" && parts[i] != "*" && |parts[i]| > 0 && parts[i][0] == ':' ==>
      parts[i] != ":" && seg == Dynamic(parts[i][1..])
    requires parts[i] != "**" && parts[i] != "*" && !(|parts[i]| > 0 && parts[i][0] == ':') ==> seg == Static(parts[i])
    ensures PartError(parts, i).None? && seg == SegmentOf(parts[i])
    ensures FirstErrorFrom(parts, i) == FirstErrorFrom(parts, i + 1)
  {
  }

  lemma SegmentsExtended(parts: seq<string>, segments: seq<RouteSegment>, seg: RouteSegment)
    requires |segments| < |parts| && seg == SegmentOf(parts[|segments|])
    requires forall j :: 0 <= j < |segments| ==> segments[j] == SegmentOf(parts[j])
    ensures forall j :: 0 <= j < |segments| + 1 ==> (segments + [seg])[j] == SegmentOf(parts[j])
  {
  }

  /** `RoutePattern::parse`, scanning the pieces in order and stopping at the first error. */
  method Parse(text: string) returns (r: Result<RoutePattern, PatternError>)
    ensures r == ParsePattern(text)
  {
    var t := Trim(text);
    if t == "" {
      return Err(EmptyPatternError);
    }
    t := StripPrefixChar(t, '/');
    var parts := Segments(t);
    r := ParsePieces(parts);
  }

  /** The scan of `RoutePattern::parse` over the pieces of a non-blank template. */
  method ParsePieces(parts: seq<string>) returns (r: Result<RoutePattern, PatternError>)
    ensures r == ParseParts(parts)
  {
    var segments: seq<RouteSegment> := [];
    var i := 0;
    while i < |parts|
      invariant i <= |parts|
      invariant |segments| == i
      invariant forall j :: 0 <= j < i ==> segments[j] == SegmentOf(parts[j])
      invariant FirstErrorFrom(parts, 0) == FirstErrorFrom(parts, i)
    {
      var part := parts[i];
      var seg: RouteSegment;
      if part == "**" {
        if i != |parts| - 1 {
          assert PartError(parts, i) == Some(MultiNotLastError);
          return Err(MultiNotLastError);
        }
        seg := WildcardMulti;
      } else if part == "*" {
        seg := WildcardSingle;
      } else if |part| > 0 && part[0] == ':' {
        var name := part[1..];
        if name == "" {
          assert part == ":";
          assert PartError(parts, i) == Some(EmptyParamError);
          return Err(EmptyParamError);
        }
        seg := Dynamic(name);
      } else {
        seg := Static(part);
      }
      PieceAccepted(parts, i, seg);
      SegmentsExtended(parts, segments, seg);
      segments := segments + [seg];
      i := i + 1;
      if seg == WildcardMulti {
        break;
      }
    }
    FirstErrorFromNone(parts, 0);
    assert segments == SegmentsOf(parts);
    r := Ok(RoutePattern(segments));
  }

  /** Empty pieces are dropped: `/` parses to no segments at all. */
  lemma ParseRootHasNoSegments()
    ensures ParsePattern("/") == Ok(RoutePattern([]))
  {
    RootHasNoPieces();
    ParseOutcome("/");
  }

  lemma RootIsTrimmed()
    ensures Trim("/") == "/"
  {
    TrimmedIsFixed("/");
  }

  lemma RootHasNoPieces()
    ensures Trim("/") != "" && PathSegments("/") == []
  {
    RootIsTrimmed();
    assert StripPrefixChar("/", '/') == "";
    SplitNoSeparator("", '/');
    assert NonEmptyParts([""]) == [];
  }

  lemma SplitOfDoubleSlash()
    ensures Split("a//b/", '/') == ["a", "", "b", ""]
  {
    SplitOfSlashB();
    assert "a//b/" == "a" + ['/'] + "/b/";
    SplitAtFirst("a", '/', "/b/");
    Cons3("a", "", "b", "");
  }

  lemma Cons3<T>(x: T, y: T, z: T, w: T)
    ensures [x] + [y, z, w] == [x, y, z, w]
  {
  }

  lemma SplitOfSlashB()
    ensures Split("/b/", '/') == ["", "b", ""]
  {
    SplitOfB();
    assert "/b/" == "" + ['/'] + "b/";
    SplitAtFirst("", '/', "b/");
    Cons2("", "b", "");
  }

  lemma Cons2<T>(x: T, y: T, z: T)
    ensures [x] + [y, z] == [x, y, z]
  {
  }

  lemma SplitOfB()
    ensures Split("b/", '/') == ["b", ""]
  {
    SplitNoSeparator("", '/');
    assert "b/" == "b" + ['/'] + "";
    SplitAtFirst("b", '/', "");
  }

  lemma DoubleSlashIsTrimmed()
    ensures Trim("/a//b/") == "/a//b/"
  {
    TrimmedIsFixed("/a//b/");
  }

  lemma PathSegmentsOfDoubleSlash()
    ensures Trim("/a//b/") == "/a//b/"
    ensures PathSegments("/a//b/") == ["a", "b"]
  {
    DoubleSlashIsTrimmed();
    assert StripPrefixChar("/a//b/", '/') == "a//b/";
    SplitOfDoubleSlash();
    DoubleSlashPiecesKept();
  }

  lemma DoubleSlashPiecesKept()
    ensures NonEmptyParts(["a", "", "b", ""]) == ["a", "b"]
  {
    assert NonEmptyParts([""]) == [];
    assert NonEmptyParts(["b", ""]) == ["b"];
    assert NonEmptyParts(["", "b", ""]) == ["b"];
  }

  /** Empty pieces are dropped: `/a//b/` parses to two static segments. */
  lemma ParseSkipsEmptyPieces()
    ensures ParsePattern("/a//b/") == Ok(RoutePattern([Static("a"), Static("b")]))
  {
    PathSegmentsOfDoubleSlash();
    StaticPiecesParse();
    ParseOutcome("/a//b/");
  }

  lemma StaticPiecesParse()
    ensures WellFormedParts(["a", "b"]) && SegmentsOf(["a", "b"]) == [Static("a"), Static("b")]
  {
    var parts := ["a", "b"];
    assert PartError(parts, 0).None? && PartError(parts, 1).None?;
    assert SegmentOf("a") == Static("a") && SegmentOf("b") == Static("b");
  }

  /* ------------------------------------------------------------- matching */

  /** A static segment accepts only its own text; every other segment accepts any piece. */
  predicate Accepts(seg: RouteSegment, piece: string) {
    seg.Static? ==> seg.text == piece
  }

  /** Index of the first `**`, or the pattern's length when there is none. */
  function FirstMulti(segs: seq<RouteSegment>): (k: nat)
    ensures k <= |segs|
    ensures forall i :: 0 <= i < k ==> segs[i] != WildcardMulti
    ensures k < |segs| ==> segs[k] == WildcardMulti
    decreases |segs|
  {
    if |segs| == 0 || segs[0] == WildcardMulti then 0 else 1 + FirstMulti(segs[1..])
  }

  /** How far the lock-step scan of pattern and path goes: to the first `**` or the end of either. */
  function ScanLength(segs: seq<RouteSegment>, path: seq<string>): (n: nat)
    ensures n <= |segs| && n <= |path|
  {
    if FirstMulti(segs) < |path| then FirstMulti(segs) else |path|
  }

  predicate AcceptsUpTo(segs: seq<RouteSegment>, path: seq<string>, n: nat)
    requires n <= |segs| && n <= |path|
  {
    forall i :: 0 <= i < n ==> Accepts(segs[i], path[i])
  }

  /**
   * `matches` succeeds: every segment up to the scan length accepts its piece, and
   * then either a `**` was reached, or pattern and path end together, or only a
   * final `**` is left over.
   */
  predicate Matching(segs: seq<RouteSegment>, path: seq<string>) {
    var n := ScanLength(segs, path);
    AcceptsUpTo(segs, path, n)
    && ((n < |segs| && n < |path|)
        || |segs| == |path|
        || (|segs| == |path| + 1 && segs[|path|] == WildcardMulti))
  }

  /** The parameters bound by the dynamic segments among the first `n`, added in order. */
  function BindParams(segs: seq<RouteSegment>, path: seq<string>, n: nat): RouteParams
    requires n <= |segs| && n <= |path|
    decreases n
  {
    if n == 0 then EmptyParams
    else
      var p := BindParams(segs, path, n - 1);
      if segs[n - 1].Dynamic? then Added(p, segs[n - 1].name, path[n - 1]) else p
  }

  function MatchSegments(segs: seq<RouteSegment>, path: seq<string>): Option<RouteParams> {
    if Matching(segs, path) then Some(BindParams(segs, path, ScanLength(segs, path))) else None
  }

  /** What `RoutePattern::matches` returns for a path text. */
  function MatchPath(pattern: RoutePattern, text: string): Option<RouteParams> {
    MatchSegments(pattern.segments, PathSegments(text))
  }

  /** One more accepted segment before the first `**` extends the scan by one step. */
  lemma ScanStep(segs: seq<RouteSegment>, path: seq<string>, i: nat)
    requires i < |segs| && i < |path| && i <= FirstMulti(segs)
    requires segs[i] != WildcardMulti && Accepts(segs[i], path[i])
    requires AcceptsUpTo(segs, path, i)
    ensures i + 1 <= FirstMulti(segs) && AcceptsUpTo(segs, path, i + 1)
  {
  }

  /** `RoutePattern::matches`: walk pattern and path in lock step, collecting parameters. */
  method Matches(pattern: RoutePattern, text: string) returns (r: Option<RouteParams>)
    ensures r == MatchPath(pattern, text)
  {
    var t := Trim(text);
    t := StripPrefixChar(t, '/');
    var path := Segments(t);
    r := ScanMatch(pattern.segments, path);
  }

  /** The lock-step scan of `matches` over the path's segments. */
  method ScanMatch(segs: seq<RouteSegment>, path: seq<string>) returns (r: Option<RouteParams>)
    ensures r == MatchSegments(segs, path)
  {
    var params := EmptyParams;
    var patternIdx, pathIdx := 0, 0;
    while patternIdx < |segs| && pathIdx < |path|
      invariant patternIdx == pathIdx && patternIdx <= |segs| && pathIdx <= |path|
      invariant patternIdx <= FirstMulti(segs)
      invariant AcceptsUpTo(segs, path, patternIdx)
      invariant params == BindParams(segs, path, patternIdx)
    {
      match segs[patternIdx] {
        case Static(expected) =>
          if path[pathIdx] != expected {
            assert !Accepts(segs[patternIdx], path[patternIdx]);
            return None;
          }
          ScanStep(segs, path, patternIdx);
          pathIdx := pathIdx + 1;
        case Dynamic(name) =>
          ScanStep(segs, path, patternIdx);
          params := Add(params, name, path[pathIdx]);
          pathIdx := pathIdx + 1;
        case WildcardSingle =>
          ScanStep(segs, path, patternIdx);
          pathIdx := pathIdx + 1;
        case WildcardMulti =>
          return Some(params);
      }
      patternIdx := patternIdx + 1;
    }
    if patternIdx < |segs| {
      if patternIdx == |segs| - 1 && segs[patternIdx] == WildcardMulti {
        return Some(params);
      }
      return None;
    }
    if pathIdx < |path| {
      return None;
    }
    return Some(params);
  }

  /**
   * Without `**`, a pattern matches exactly the paths with as many segments
   * whose static segments agree; so `*` consumes exactly one segment.
   */
  lemma MatchingWithoutMulti(segs: seq<RouteSegment>, path: seq<string>)
    requires forall i :: 0 <= i < |segs| ==> segs[i] != WildcardMulti
    ensures Matching(segs, path) <==> |segs| == |path| && AcceptsUpTo(segs, path, |segs|)
  {
  }

  /**
   * A pattern whose last segment is `**` matches every path that has at least the
   * segments before it, those agreeing with the static ones; zero extra segments included.
   */
  lemma MatchingTrailingMulti(segs: seq<RouteSegment>, path: seq<string>)
    requires |segs| > 0 && segs[|segs| - 1] == WildcardMulti
    requires MultiOnlyLast(RoutePattern(segs))
    ensures Matching(segs, path) <==> |path| >= |segs| - 1 && AcceptsUpTo(segs, path, |segs| - 1)
  {
    assert FirstMulti(segs) == |segs| - 1;
  }

  /** The store built while matching keeps its invariant and holds one key per dynamic name. */
  lemma {:induction false} BindParamsKeys(segs: seq<RouteSegment>, path: seq<string>, n: nat)
    requires n <= |segs| && n <= |path|
    ensures BindParams(segs, path, n).Valid()
    ensures forall k :: k in ToMap(BindParams(segs, path, n)) <==> exists i :: 0 <= i < n && segs[i] == Dynamic(k)
    decreases n
  {
    if n > 0 {
      BindParamsKeys(segs, path, n - 1);
      var p := BindParams(segs, path, n - 1);
      if segs[n - 1].Dynamic? {
        AddedSpec(p, segs[n - 1].name, path[n - 1]);
      }
    }
  }

  /** A dynamic segment binds its name to its own path piece unless a later segment reuses the name. */
  lemma {:induction false} BindParamsValue(segs: seq<RouteSegment>, path: seq<string>, n: nat, i: nat)
    requires i < n <= |segs| && n <= |path|
    requires segs[i].Dynamic?
    requires forall j :: i < j < n ==> segs[j] != Dynamic(segs[i].name)
    ensures Get(BindParams(segs, path, n), segs[i].name) == Some(path[i])
    decreases n
  {
    var p := BindParams(segs, path, n - 1);
    BindParamsKeys(segs, path, n - 1);
    if i == n - 1 {
      AddedThenGet(p, segs[i].name, path[i], segs[i].name);
    } else {
      BindParamsValue(segs, path, n - 1, i);
      if segs[n - 1].Dynamic? {
        AddedThenGet(p, segs[n - 1].name, path[n - 1], segs[i].name);
      }
    }
  }

  /** No two dynamic segments share a name. */
  predicate DistinctNames(segs: seq<RouteSegment>) {
    forall i, j :: 0 <= i < j < |segs| && segs[i].Dynamic? && segs[j].Dynamic? ==> segs[i].name != segs[j].name
  }

  /**
   * For a pattern without wildcards: `matches` succeeds iff the path has as many
   * segments and every static segment equals its piece, and then each dynamic
   * name is bound to its own path piece.
   */
  lemma MatchWildcardFree(segs: seq<RouteSegment>, path: seq<string>)
    requires forall i :: 0 <= i < |segs| ==> segs[i].Static? || segs[i].Dynamic?
    requires DistinctNames(segs)
    ensures MatchSegments(segs, path).Some? <==> |segs| == |path| && AcceptsUpTo(segs, path, |segs|)
    ensures MatchSegments(segs, path).Some? ==>
      forall i :: 0 <= i < |segs| && segs[i].Dynamic? ==> Get(MatchSegments(segs, path).value, segs[i].name) == Some(path[i])
  {
    MatchingWithoutMulti(segs, path);
    if MatchSegments(segs, path).Some? {
      forall i | 0 <= i < |segs| && segs[i].Dynamic?
        ensures Get(MatchSegments(segs, path).value, segs[i].name) == Some(path[i])
      {
        BindParamsValue(segs, path, |segs|, i);
      }
    }
  }

  /* ------------------------------------------------------ prefix matching */

  /** The segments from `start` on, behind a leading `/`, or `""` when there are none. */
  function TailFrom(path: seq<string>, start: nat): (t: string)
    ensures t == "" || t[0] == '/'
  {
    if start >= |path| then "" else "/" + Join(path[start..], '/')
  }

  /** A tail splits back into exactly the segments it was built from. */
  lemma TailSegments(path: seq<string>, start: nat)
    requires forall i :: 0 <= i < |path| ==> path[i] != "" && '/' !in path[i]
    ensures Segments(TailFrom(path, start)) == if start >= |path| then [] else path[start..]
  {
    if start < |path| {
      SegmentsOfJoined(path[start..]);
    } else {
      assert Split("", '/') == [""];
    }
  }

  /**
   * What `matches_prefix_with_tail` returns: the parameters of the matched
   * prefix and the tail to hand to a child router. A `**` captures the rest, a
   * final `*` captures its own segment and everything after it, and otherwise
   * the tail is whatever follows the pattern.
   */
  function PrefixSegments(segs: seq<RouteSegment>, path: seq<string>): Option<(RouteParams, string)> {
    var n := ScanLength(segs, path);
    if !AcceptsUpTo(segs, path, n) then None
    else
      var params := BindParams(segs, path, n);
      if n < |segs| && n < |path| then
        if n + 1 == |segs| then Some((params, TailFrom(path, n)))
        else if n + 2 == |segs| && segs[n + 1] == WildcardMulti then Some((params, ""))
        else None
      else if |path| < |segs| then
        if |segs| == |path| + 1 && segs[|path|] == WildcardMulti then Some((params, "")) else None
      else if |segs| > 0 && segs[|segs| - 1] == WildcardSingle then Some((params, TailFrom(path, |segs| - 1)))
      else Some((params, TailFrom(path, |segs|)))
  }

  function PrefixPath(pattern: RoutePattern, text: string): Option<(RouteParams, string)> {
    PrefixSegments(pattern.segments, PathSegments(text))
  }

  /** `RoutePattern::matches_prefix_with_tail`. */
  method MatchesPrefixWithTail(pattern: RoutePattern, text: string) returns (r: Option<(RouteParams, string)>)
    ensures r == PrefixPath(pattern, text)
  {
    var t := Trim(text);
    t := StripPrefixChar(t, '/');
    var path := Segments(t);
    r := ScanPrefix(pattern.segments, path);
  }

  /** The lock-step scan of `matches_prefix_with_tail` over the path's segments. */
  method ScanPrefix(segs: seq<RouteSegment>, path: seq<string>) returns (r: Option<(RouteParams, string)>)
    ensures r == PrefixSegments(segs, path)
  {
    var params := EmptyParams;
    var patternIdx, pathIdx := 0, 0;
    var tailStartAt: Option<nat> := None;
    while patternIdx < |segs| && pathIdx < |path|
      invariant patternIdx == pathIdx && patternIdx <= |segs| && pathIdx <= |path|
      invariant patternIdx <= FirstMulti(segs)
      invariant AcceptsUpTo(segs, path, patternIdx)
      invariant params == BindParams(segs, path, patternIdx)
      invariant tailStartAt == if patternIdx == |segs| && patternIdx > 0 && segs[patternIdx - 1] == WildcardSingle then Some(patternIdx - 1) else None
    {
      match segs[patternIdx] {
        case Static(expected) =>
          if path[pathIdx] != expected {
            assert !Accepts(segs[patternIdx], path[patternIdx]);
            return None;
          }
          ScanStep(segs, path, patternIdx);
          pathIdx := pathIdx + 1;
        case Dynamic(name) =>
          ScanStep(segs, path, patternIdx);
          params := Add(params, name, path[pathIdx]);
          pathIdx := pathIdx + 1;
        case WildcardSingle =>
          ScanStep(segs, path, patternIdx);
          if patternIdx == |segs| - 1 {
            tailStartAt := Some(pathIdx);
          }
          pathIdx := pathIdx + 1;
        case WildcardMulti =>
          // `**` takes the rest of the path; the scan stops here.
          assert patternIdx == ScanLength(segs, path);
          r := PrefixTail(segs, path, patternIdx + 1, |path|, params, Some(pathIdx), true);
          return;
      }
      patternIdx := patternIdx + 1;
    }
    assert patternIdx == ScanLength(segs, path);
    r := PrefixTail(segs, path, patternIdx, pathIdx, params, tailStartAt, false);
  }

  /** The end of `matches_prefix_with_tail`, once the lock-step scan has stopped without a mismatch. */
  method PrefixTail(segs: seq<RouteSegment>, path: seq<string>, patternIdx: nat, pathIdx: nat, params: RouteParams,
                    tailStartAt: Option<nat>, ghost stoppedAtMulti: bool) returns (r: Option<(RouteParams, string)>)
    requires var n := ScanLength(segs, path); AcceptsUpTo(segs, path, n) && params == BindParams(segs, path, n)
    requires stoppedAtMulti ==> var n := ScanLength(segs, path);
      n < |segs| && n < |path| && patternIdx == n + 1 && pathIdx == |path| && tailStartAt == Some(n)
    requires !stoppedAtMulti ==>
      patternIdx == pathIdx == ScanLength(segs, path) && (patternIdx == |segs| || pathIdx == |path|) &&
      tailStartAt == (if patternIdx == |segs| && patternIdx > 0 && segs[patternIdx - 1] == WildcardSingle then Some(patternIdx - 1) else None)
    ensures r == PrefixSegments(segs, path)
  {
    var start := tailStartAt;
    if patternIdx < |segs| {
      if patternIdx == |segs| - 1 && segs[patternIdx] == WildcardMulti {
        start := Some(pathIdx);
      } else {
        return None;
      }
    }
    if start.None? && pathIdx < |path| {
      start := Some(pathIdx);
    }
    var tail := "";
    if start.Some? && start.value < |path| {
      tail := "/" + Join(path[start.value..], '/');
    }
    return Some((params, tail));
  }

  /**
   * A pattern without wildcards prefix-matches the paths that start with its
   * segments, and the tail is the rest of the path.
   */
  lemma PrefixWildcardFree(segs: seq<RouteSegment>, path: seq<string>)
    requires forall i :: 0 <= i < |segs| ==> segs[i].Static? || segs[i].Dynamic?
    ensures PrefixSegments(segs, path).Some? <==> |segs| <= |path| && AcceptsUpTo(segs, path, |segs|)
    ensures PrefixSegments(segs, path).Some? ==> PrefixSegments(segs, path).value.1 == TailFrom(path, |segs|)
  {
  }

  /**
   * A pattern ending in `*` or `**` whose other segments are plain captures that
   * wildcard's segment and everything after it.
   */
  lemma PrefixTrailingWildcard(segs: seq<RouteSegment>, path: seq<string>)
    requires |segs| > 0 && (segs[|segs| - 1] == WildcardSingle || segs[|segs| - 1] == WildcardMulti)
    requires forall i :: 0 <= i < |segs| - 1 ==> segs[i].Static? || segs[i].Dynamic?
    requires |path| >= |segs| && AcceptsUpTo(segs, path, |segs| - 1)
    ensures PrefixSegments(segs, path).Some?
    ensures PrefixSegments(segs, path).value.1 == TailFrom(path, |segs| - 1)
  {
    assert FirstMulti(segs) >= |segs| - 1;
  }

  /* ------------------------------------------------------------- priority */

  /** The cost of one segment: lower totals are tried first. */
  function Weight(seg: RouteSegment): nat {
    match seg
    case Static(_) => 1
    case Dynamic(_) => 100
    case WildcardSingle => 10000
    case WildcardMulti => 100000
  }

  function SumWeights(segs: seq<RouteSegment>): nat
    decreases |segs|
  {
    if |segs| == 0 then 0 else Weight(segs[0]) + SumWeights(segs[1..])
  }

  /** `RoutePattern::priority`. */
  function Priority(p: RoutePattern): nat {
    SumWeights(p.segments)
  }

  /** Segment-wise no heavier means no larger priority, and one strictly lighter segment means smaller. */
  lemma {:induction false} PriorityMonotone(a: seq<RouteSegment>, b: seq<RouteSegment>)
    requires |a| == |b|
    requires forall i :: 0 <= i < |a| ==> Weight(a[i]) <= Weight(b[i])
    ensures Priority(RoutePattern(a)) <= Priority(RoutePattern(b))
    ensures (exists i :: 0 <= i < |a| && Weight(a[i]) < Weight(b[i])) ==> Priority(RoutePattern(a)) < Priority(RoutePattern(b))
    decreases |a|
  {
    if |a| > 0 {
      PriorityMonotone(a[1..], b[1..]);
      if exists i :: 0 <= i < |a| && Weight(a[i]) < Weight(b[i]) {
        var i :| 0 <= i < |a| && Weight(a[i]) < Weight(b[i]);
        if i > 0 {
          assert Weight(a[1..][i - 1]) < Weight(b[1..][i - 1]);
        }
      }
    }
  }

  /**
   * Of two patterns that differ in one position only, the one with the more
   * specific segment there (static, then dynamic, then `*`, then `**`) comes first.
   */
  lemma PriorityOrdersSegmentKinds(prefix: seq<RouteSegment>, suffix: seq<RouteSegment>)
    ensures Priority(RoutePattern(prefix + [Static("s")] + suffix)) < Priority(RoutePattern(prefix + [Dynamic("d")] + suffix))
    ensures Priority(RoutePattern(prefix + [Dynamic("d")] + suffix)) < Priority(RoutePattern(prefix + [WildcardSingle] + suffix))
    ensures Priority(RoutePattern(prefix + [WildcardSingle] + suffix)) < Priority(RoutePattern(prefix + [WildcardMulti] + suffix))
  {
    var segs := [Static("s"), Dynamic("d"), WildcardSingle, WildcardMulti];
    forall k | 0 <= k < 3
      ensures Priority(RoutePattern(prefix + [segs[k]] + suffix)) < Priority(RoutePattern(prefix + [segs[k + 1]] + suffix))
    {
      var a, b := prefix + [segs[k]] + suffix, prefix + [segs[k + 1]] + suffix;
      assert Weight(a[|prefix|]) < Weight(b[|prefix|]);
      forall i | 0 <= i < |a| ensures Weight(a[i]) <= Weight(b[i]) {
        if i != |prefix| {
          assert a[i] == b[i];
        }
      }
      PriorityMonotone(a, b);
    }
    assert segs[0] == Static("s") && segs[1] == Dynamic("d") && segs[2] == WildcardSingle && segs[3] == WildcardMulti;
  }

  /* ----------------------------------------------------------- formatting */

  /** The text one segment contributes to a formatted path, if it can. */
  function Piece(seg: RouteSegment, params: RouteParams): Option<string> {
    match seg
    case Static(s) => Some(s)
    case Dynamic(name) => Get(params, name)
    case _ => None
  }

  /** How many leading segments can be formatted: up to the first wildcard or missing parameter. */
  function Formattable(segs: seq<RouteSegment>, params: RouteParams): (k: nat)
    ensures k <= |segs|
    ensures forall i :: 0 <= i < k ==> Piece(segs[i], params).Some?
    ensures k < |segs| ==> Piece(segs[k], params).None?
    decreases |segs|
  {
    if |segs| == 0 || Piece(segs[0], params).None? then 0
    else 1 + Formattable(segs[1..], params)
  }

  function Pieces(segs: seq<RouteSegment>, params: RouteParams, k: nat): (r: seq<string>)
    requires k <= |segs| && forall i :: 0 <= i < k ==> Piece(segs[i], params).Some?
    ensures |r| == k && forall i :: 0 <= i < k ==> r[i] == Piece(segs[i], params).value
  {
    seq(k, i requires 0 <= i < k && Piece(segs[i], params).Some? => Piece(segs[i], params).value)
  }

  /** `RoutePattern::format_path`: `None` as soon as a wildcard or a missing parameter is met. */
  function FormatPath(pattern: RoutePattern, params: RouteParams): (r: Option<string>)
    ensures r.Some? <==> forall i :: 0 <= i < |pattern.segments| ==> Piece(pattern.segments[i], params).Some?
  {
    var segs := pattern.segments;
    var k := Formattable(segs, params);
    if k < |segs| then None else Some("/" + Join(Pieces(segs, params, k), '/'))
  }

  /** `RoutePattern::format_base_path`: the pieces before the first wildcard or missing parameter, or `/`. */
  function FormatBasePath(pattern: RoutePattern, params: RouteParams): (r: string)
    ensures |r| > 0 && r[0] == '/'
  {
    var segs := pattern.segments;
    var k := Formattable(segs, params);
    if k == 0 then "/" else "/" + Join(Pieces(segs, params, k), '/')
  }

  /** Where the full path can be formatted, the base path is that same path. */
  lemma BasePathOfFormattable(pattern: RoutePattern, params: RouteParams)
    requires FormatPath(pattern, params).Some?
    ensures FormatBasePath(pattern, params) == FormatPath(pattern, params).value
  {
  }

  /** The base path is the full path of the pattern cut at its first unformattable segment. */
  lemma BasePathIsCutPattern(pattern: RoutePattern, params: RouteParams)
    ensures var k := Formattable(pattern.segments, params);
      FormatPath(RoutePattern(pattern.segments[..k]), params).Some? &&
      FormatBasePath(pattern, params) == FormatPath(RoutePattern(pattern.segments[..k]), params).value
  {
    var segs := pattern.segments;
    var k := Formattable(segs, params);
    var cut := segs[..k];
    assert Formattable(cut, params) == k by {
      FormattablePrefix(segs, params, k);
    }
    assert Pieces(cut, params, k) == Pieces(segs, params, k);
  }

  lemma {:induction false} FormattablePrefix(segs: seq<RouteSegment>, params: RouteParams, k: nat)
    requires k == Formattable(segs, params)
    ensures Formattable(segs[..k], params) == k
    decreases |segs|
  {
    if k > 0 {
      FormattablePrefix(segs[1..], params, k - 1);
      assert segs[..k][1..] == segs[1..][..k - 1];
    }
  }

  /**
   * Formatting inverts matching: for a wildcard-free pattern whose dynamic names
   * are distinct, the parameters a path's segments bind format back to that path.
   */
  lemma FormatInvertsMatch(segs: seq<RouteSegment>, path: seq<string>)
    requires forall i :: 0 <= i < |segs| ==> segs[i].Static? || segs[i].Dynamic?
    requires DistinctNames(segs)
    requires MatchSegments(segs, path).Some?
    ensures FormatPath(RoutePattern(segs), MatchSegments(segs, path).value) == Some("/" + Join(path, '/'))
  {
    MatchWildcardFree(segs, path);
    var params := MatchSegments(segs, path).value;
    forall i | 0 <= i < |segs| ensures Piece(segs[i], params) == Some(path[i]) {
    }
    assert Pieces(segs, params, |segs|) == path;
  }
}
