/**
 * Path normalization before route resolution (`normalize_path` in
 * `src/registry.rs`): a path or full URL is reduced to a rooted path without
 * query, hash or trailing slashes.
 */
module Normalize {
  import opened Wrappers
  import opened Text
  import opened Url

  /** Drops trailing `/` characters, but never the leading one. */
  function StripTrailingSlashes(p: string): (r: string)
    requires |p| > 0 && p[0] == '/'
    ensures 0 < |r| <= |p| && r[0] == '/' && r == p[..|r|]
    ensures r == "/" || r[|r| - 1] != '/'
    ensures forall i :: |r| <= i < |p| ==> p[i] == '/'
    ensures forall c :: c in r ==> c in p
    decreases |p|
  {
    if |p| > 1 && p[|p| - 1] == '/' then
      var r := StripTrailingSlashes(p[..|p| - 1]);
      assert p[..|p| - 1][..|r|] == p[..|r|];
      r
    else p
  }

  /** The trimmed input with scheme and host dropped and a leading `/` put in if missing. */
  function RootedInput(path: string): (p: string)
    requires Trim(path) != ""
    ensures |p| > 0 && p[0] == '/'
  {
    var p := DropSchemeAndHost(Trim(path));
    if |p| > 0 && p[0] == '/' then p else "/" + p
  }

  /** A rooted text keeps its leading `/` when cut at a `#` or a `?`. */
  lemma CutsKeepRoot(p: string)
    requires |p| > 0 && p[0] == '/'
    ensures |CutHash(p).0| > 0 && CutHash(p).0[0] == '/'
    ensures |CutQuery(p).0| > 0 && CutQuery(p).0[0] == '/'
  {
    assert p == CutHash(p).0 + CutHash(p).1;
    assert p == CutQuery(p).0 + CutQuery(p).1;
  }

  /** The part used for matching: query and hash cut off, trailing slashes dropped. */
  function MatchPart(p: string): (r: string)
    requires |p| > 0 && p[0] == '/'
    ensures |r| > 0 && r[0] == '/'
    ensures '#' !in r && '?' !in r
    ensures r == "/" || r[|r| - 1] != '/'
  {
    CutsKeepRoot(p);
    var beforeHash := CutHash(p).0;
    CutsKeepRoot(beforeHash);
    var beforeQuery := CutQuery(beforeHash).0;
    StripTrailingSlashes(beforeQuery)
  }

  /** What `normalize_path` returns. */
  function NormalizedPath(path: string): (r: string)
    ensures |r| > 0 && r[0] == '/'
    ensures '#' !in r && '?' !in r
    ensures r == "/" || r[|r| - 1] != '/'
  {
    if Trim(path) == "" then "/" else MatchPart(RootedInput(path))
  }

  /**
   * `normalize_path`: trim, drop scheme and host, root, cut hash and query, then
   * pop trailing slashes while more than one character is left.
   */
  method NormalizePath(path: string) returns (p: string)
    ensures p == NormalizedPath(path)
  {
    p := Trim(path);
    if p == "" {
      return "/";
    }
    p := DropSchemeAndHost(p);
    if !(|p| > 0 && p[0] == '/') {
      p := "/" + p;
    }
    assert p == RootedInput(path);
    ghost var rooted := p;
    match SplitOnce(p, '#') {
      case Some((beforeHash, _)) => p := beforeHash;
      case None =>
    }
    match SplitOnce(p, '?') {
      case Some((beforeQuery, _)) => p := beforeQuery;
      case None =>
    }
    assert p == CutQuery(CutHash(rooted).0).0;
    CutsKeepRoot(rooted);
    CutsKeepRoot(CutHash(rooted).0);
    while |p| > 1 && p[|p| - 1] == '/'
      invariant |p| > 0 && p[0] == '/'
      invariant StripTrailingSlashes(p) == MatchPart(rooted)
    {
      p := p[..|p| - 1];
    }
  }

  /** Empty or white-space input normalizes to the root. */
  lemma NormalizeBlank(path: string)
    requires Trim(path) == ""
    ensures NormalizedPath(path) == "/"
  {
  }

  /** A path already in normal form is returned as it is. */
  lemma NormalizeUnchanged(path: string)
    requires |path| > 0 && path[0] == '/' && !IsWhitespace(path[|path| - 1])
    requires '#' !in path && '?' !in path && FindStr(path, "://").None?
    requires path == "/" || path[|path| - 1] != '/'
    ensures NormalizedPath(path) == path
  {
    TrimmedIsFixed(path);
    DropSchemeOfPath(path);
    assert RootedInput(path) == path;
  }

  /** For a full URL, scheme and host go, and what follows the host is normalized. */
  lemma NormalizeFullUrl(path: string, scheme: string, host: string, rest: string)
    requires Trim(path) == scheme + "://" + host + "/" + rest
    requires FindStr(Trim(path), "://") == Some(|scheme|)
    requires '/' !in host
    ensures NormalizedPath(path) == MatchPart("/" + rest)
  {
    var t := Trim(path);
    var after := host + "/" + rest;
    assert t[|scheme| + 3..] == after;
    SplitOnceAt(host, '/', rest);
    assert DropSchemeAndHost(t) == "/" + rest;
  }

  /** A full URL with nothing after the host normalizes to the root. */
  lemma NormalizeBareHost(path: string, scheme: string, host: string)
    requires Trim(path) == scheme + "://" + host
    requires FindStr(Trim(path), "://") == Some(|scheme|)
    requires '/' !in host
    ensures NormalizedPath(path) == "/"
  {
    var t := Trim(path);
    assert t[|scheme| + 3..] == host;
    assert DropSchemeAndHost(t) == "/";
    assert CutHash("/") == ("/", "");
    assert CutQuery("/") == ("/", "");
  }

  /** Query and hash are cut off before the trailing slashes are dropped. */
  lemma MatchPartOfUrl(path: string, query: string, hash: string)
    requires |path| > 0 && path[0] == '/' && '?' !in path && '#' !in path && '#' !in query
    ensures MatchPart(path + ['?'] + query + ['#'] + hash) == StripTrailingSlashes(path)
  {
    var beforeHash := path + ['?'] + query;
    assert '#' !in beforeHash by {
      assert forall i :: 0 <= i < |beforeHash| ==> beforeHash[i] == if i < |path| then path[i] else if i == |path| then '?' else query[i - |path| - 1];
    }
    SplitOnceAt(beforeHash, '#', hash);
    SplitOnceAt(path, '?', query);
  }
}
