/**
 * URL handling of the router (`src/url.rs`): splitting an input into path,
 * query and hash, the query map, and the `application/x-www-form-urlencoded`
 * component codec (RFC 3986 section 2.1 percent-encoding of every byte outside
 * the unreserved set of section 2.3, with `+` for a space).
 */
module Url {
  import opened Wrappers
  import opened Text

  /* ------------------------------------------------------------ RouterUrl */

  /** A URL cut into its path (leading `/`), raw query (`?...` or empty) and raw hash (`#...` or empty). */
  datatype RouterUrl = RouterUrl(path: string, query: string, hash: string)

  /** For a full URL (`scheme://host/rest`), the path from the first `/` after the host on, or `/`. */
  function DropSchemeAndHost(s: string): (r: string)
  {
    match SplitOnceStr(s, "://")
    case None => s
    case Some((_, afterScheme)) =>
      match SplitOnce(afterScheme, '/')
      case Some((_, rest)) => "/" + rest
      case None => "/"
  }

  /** The text before the first `#` and the hash (with its `#`), or the whole text and no hash. */
  function CutHash(s: string): (r: (string, string))
    ensures r.0 + r.1 == s && '#' !in r.0
    ensures r.1 == "" || r.1[0] == '#'
  {
    match SplitOnce(s, '#')
    case Some((a, b)) => (a, "#" + b)
    case None => (s, "")
  }

  /** The text before the first `?` and the query (with its `?`), or the whole text and no query. */
  function CutQuery(s: string): (r: (string, string))
    ensures r.0 + r.1 == s && '?' !in r.0
    ensures r.1 == "" || r.1[0] == '?'
    ensures '#' !in s ==> '#' !in r.0 && '#' !in r.1
  {
    match SplitOnce(s, '?')
    case Some((a, b)) =>
      (a, "?" + b)
    case None => (s, "")
  }

  /** The trimmed path, `/` when empty, with a `/` put in front when it has none. */
  function RootedPath(rawPath: string): (path: string)
    requires '?' !in rawPath && '#' !in rawPath
    ensures |path| > 0 && path[0] == '/'
    ensures '?' !in path && '#' !in path
  {
    var path := Trim(rawPath);
    TrimIsInfix(rawPath);
    if path == "" then "/" else if path[0] != '/' then "/" + path else path
  }

  /** `RouterUrl::parse`. */
  function Parse(input: string): (u: RouterUrl)
    ensures |u.path| > 0 && u.path[0] == '/'
    ensures '?' !in u.path && '#' !in u.path
    ensures u.query == "" || (u.query[0] == '?' && '#' !in u.query)
    ensures u.hash == "" || u.hash[0] == '#'
  {
    var trimmed := Trim(input);
    if trimmed == "" then RouterUrl("/", "", "")
    else
      var (beforeHash, hash) := CutHash(Trim(DropSchemeAndHost(trimmed)));
      var (rawPath, query) := CutQuery(beforeHash);
      RouterUrl(RootedPath(rawPath), query, hash)
  }

  lemma TrimIsInfix(s: string)
    ensures forall c :: c in Trim(s) ==> c in s
  {
    TrimStartIsSuffix(s);
    TrimEndIsPrefix(TrimStart(s));
  }

  lemma TrimStartIsSuffix(s: string)
    ensures forall c :: c in TrimStart(s) ==> c in s
  {
    var a := TrimStart(s);
    assert forall i :: 0 <= i < |a| ==> a[i] == s[|s| - |a| + i];
  }

  lemma TrimEndIsPrefix(s: string)
    ensures forall c :: c in TrimEnd(s) ==> c in s
  {
    var b := TrimEnd(s);
    assert forall i :: 0 <= i < |b| ==> b[i] == s[i];
  }

  /** `Display for RouterUrl`: the three parts written one after the other. */
  function ToString(u: RouterUrl): string {
    u.path + u.query + u.hash
  }

  /** Empty or white-space input is the root path with no query and no hash. */
  lemma ParseBlank(input: string)
    requires Trim(input) == ""
    ensures Parse(input) == RouterUrl("/", "", "")
  {
  }

  /** A path-only input: nothing before the first `/` is dropped and no scheme is looked for. */
  lemma DropSchemeOfPath(s: string)
    requires FindStr(s, "://").None?
    ensures DropSchemeAndHost(s) == s
  {
  }

  /** The hash is split off before the query, so a `?` after the `#` stays in the hash. */
  lemma ParseHashBeforeQuery(path: string, afterHash: string)
    requires '#' !in path && '?' !in path
    requires |path| > 0 && path[0] == '/' && !IsWhitespace(path[|path| - 1])
    requires FindStr(path + "#" + afterHash, "://").None?
    requires |afterHash| > 0 ==> !IsWhitespace(afterHash[|afterHash| - 1])
    ensures Parse(path + "#" + afterHash) == RouterUrl(path, "", "#" + afterHash)
  {
    var s := path + "#" + afterHash;
    assert s[0] == '/' && s[|s| - 1] == if |afterHash| > 0 then afterHash[|afterHash| - 1] else '#';
    TrimmedIsFixed(s);
    DropSchemeOfPath(s);
    SplitOnceAt(path, '#', afterHash);
    TrimmedIsFixed(path);
  }

  /** With a scheme but no `/` after the host, everything is dropped: the path is `/`. */
  lemma ParseSchemeWithoutPath(input: string, scheme: string, host: string)
    requires Trim(input) == scheme + "://" + host
    requires FindStr(scheme + "://" + host, "://") == Some(|scheme|)
    requires '/' !in host
    ensures Parse(input) == RouterUrl("/", "", "")
  {
    var t := scheme + "://" + host;
    var split := SplitOnceStr(t, "://");
    assert split.Some? && |split.value.0| == |scheme|;
    assert split.value.0 == t[..|scheme|] == scheme;
    assert split.value.1 == t[|scheme| + 3..] == host;
    assert SplitOnce(host, '/').None?;
    assert DropSchemeAndHost(t) == "/";
    TrimmedIsFixed("/");
    assert CutHash("/") == ("/", "");
    assert CutQuery("/") == ("/", "");
  }

  /** An already normal `path?query#hash`: what `Display` writes out and `parse` reads back. */
  predicate IsNormal(u: RouterUrl) {
    && |u.path| > 0 && u.path[0] == '/' && '?' !in u.path && '#' !in u.path
    && !IsWhitespace(u.path[|u.path| - 1])
    && (u.query == "" || (u.query[0] == '?' && '#' !in u.query))
    && (u.hash == "" || u.hash[0] == '#')
    && !IsWhitespace(ToString(u)[|ToString(u)| - 1])
    && FindStr(ToString(u), "://").None?
  }

  lemma CutHashOfJoined(beforeHash: string, hash: string)
    requires '#' !in beforeHash
    requires hash == "" || hash[0] == '#'
    ensures CutHash(beforeHash + hash) == (beforeHash, hash)
  {
    if hash != "" {
      assert beforeHash + hash == beforeHash + ['#'] + hash[1..];
      SplitOnceAt(beforeHash, '#', hash[1..]);
    } else {
      assert beforeHash + hash == beforeHash;
    }
  }

  lemma CutQueryOfJoined(path: string, query: string)
    requires '?' !in path
    requires query == "" || query[0] == '?'
    ensures CutQuery(path + query) == (path, query)
  {
    if query != "" {
      assert path + query == path + ['?'] + query[1..];
      SplitOnceAt(path, '?', query[1..]);
    } else {
      assert path + query == path;
    }
  }

  /** Parsing what `Display` wrote gives back the same parts. */
  lemma ParseToString(u: RouterUrl)
    requires IsNormal(u)
    ensures Parse(ToString(u)) == u
  {
    var s := ToString(u);
    NormalIsTrimmed(u);
    DropSchemeOfPath(s);
    CutsOfNormal(u);
    NormalPathIsRooted(u);
  }

  lemma NormalIsTrimmed(u: RouterUrl)
    requires IsNormal(u)
    ensures Trim(ToString(u)) == ToString(u)
  {
    assert ToString(u)[0] == '/';
    TrimmedIsFixed(ToString(u));
  }

  lemma CutsOfNormal(u: RouterUrl)
    requires IsNormal(u)
    ensures CutHash(ToString(u)) == (u.path + u.query, u.hash)
    ensures CutQuery(u.path + u.query) == (u.path, u.query)
  {
    CutHashOfJoined(u.path + u.query, u.hash);
    CutQueryOfJoined(u.path, u.query);
  }

  lemma NormalPathIsRooted(u: RouterUrl)
    requires IsNormal(u)
    ensures Trim(u.path) == u.path && RootedPath(u.path) == u.path
  {
    TrimmedIsFixed(u.path);
  }

  /* ---------------------------------------------------------------- bytes */

  type byte = b: int | 0 <= b < 256

  /** The UTF-8 encoding of one Unicode scalar value (RFC 3629): six bits per continuation byte. */
  function Utf8Char(c: char): (r: seq<byte>)
    ensures 1 <= |r| <= 4
  {
    var cp := c as int;
    var q1, b3 := cp / 64, cp % 64;
    var q2, b2 := q1 / 64, q1 % 64;
    var q3, b1 := q2 / 64, q2 % 64;
    if cp < 0x80 then [cp]
    else if cp < 0x800 then [0xC0 + q1, 0x80 + b3]
    else if cp < 0x10000 then [0xE0 + q2, 0x80 + b2, 0x80 + b3]
    else [0xF0 + q3, 0x80 + b1, 0x80 + b2, 0x80 + b3]
  }

  /** `str::as_bytes`. */
  function Utf8Encode(s: string): (r: seq<byte>)
    ensures |r| >= |s|
    decreases |s|
  {
    if |s| == 0 then [] else Utf8Char(s[0]) + Utf8Encode(s[1..])
  }

  predicate IsContinuation(b: byte) {
    0x80 <= b <= 0xBF
  }

  /** The scalar value at the front of `bs` and its length in bytes, if the bytes there are well formed. */
  function Utf8DecodeOne(bs: seq<byte>): (r: Option<(char, nat)>)
    ensures r.Some? ==> 1 <= r.value.1 <= |bs| && r.value.1 <= 4
  {
    if |bs| == 0 then None
    else
      var b0: int := bs[0];
      var b1: int := if |bs| >= 2 then bs[1] else 0;
      var b2: int := if |bs| >= 3 then bs[2] else 0;
      var b3: int := if |bs| >= 4 then bs[3] else 0;
      if b0 < 0x80 then Some((b0 as char, 1))
      else if 0xC2 <= b0 <= 0xDF then
        if |bs| >= 2 && IsContinuation(bs[1]) then
          Some((((b0 - 0xC0) * 64 + (b1 - 0x80)) as char, 2))
        else None
      else if 0xE0 <= b0 <= 0xEF then
        if |bs| >= 3 && IsContinuation(bs[1]) && IsContinuation(bs[2])
          && (b0 != 0xE0 || bs[1] >= 0xA0) && (b0 != 0xED || bs[1] <= 0x9F) then
          Some((((b0 - 0xE0) * 4096 + (b1 - 0x80) * 64 + (b2 - 0x80)) as char, 3))
        else None
      else if 0xF0 <= b0 <= 0xF4 then
        if |bs| >= 4 && IsContinuation(bs[1]) && IsContinuation(bs[2]) && IsContinuation(bs[3])
          && (b0 != 0xF0 || bs[1] >= 0x90) && (b0 != 0xF4 || bs[1] <= 0x8F) then
          Some((((b0 - 0xF0) * 262144 + (b1 - 0x80) * 4096 + (b2 - 0x80) * 64 + (b3 - 0x80)) as char, 4))
        else None
      else None
  }

  /** `String::from_utf8`: the text if the bytes are well-formed UTF-8. */
  function Utf8Decode(bs: seq<byte>): Option<string>
    decreases |bs|
  {
    if |bs| == 0 then Some("")
    else match Utf8DecodeOne(bs)
      case None => None
      case Some((c, n)) =>
        match Utf8Decode(bs[n..])
        case None => None
        case Some(rest) => Some([c] + rest)
  }

  lemma Utf8CharDecodes(c: char, rest: seq<byte>)
    ensures Utf8DecodeOne(Utf8Char(c) + rest) == Some((c, |Utf8Char(c)|))
  {
    var cp := c as int;
    var q1, b3 := cp / 64, cp % 64;
    var q2, b2 := q1 / 64, q1 % 64;
    var q3, b1 := q2 / 64, q2 % 64;
    assert cp == q1 * 64 + b3 && q1 == q2 * 64 + b2 && q2 == q3 * 64 + b1;
    var bs := Utf8Char(c) + rest;
    if cp < 0x80 {
    } else if cp < 0x800 {
      assert bs[0] == 0xC0 + q1 && bs[1] == 0x80 + b3;
    } else if cp < 0x10000 {
      assert q2 < 16;
      assert bs[0] == 0xE0 + q2 && bs[1] == 0x80 + b2 && bs[2] == 0x80 + b3;
    } else {
      assert q3 <= 4;
      assert bs[0] == 0xF0 + q3 && bs[1] == 0x80 + b1 && bs[2] == 0x80 + b2 && bs[3] == 0x80 + b3;
    }
  }

  /** Decoding the UTF-8 encoding of a string gives the string back. */
  lemma {:induction false} Utf8RoundTrip(s: string)
    ensures Utf8Decode(Utf8Encode(s)) == Some(s)
    decreases |s|
  {
    if |s| > 0 {
      Utf8RoundTrip(s[1..]);
      Utf8CharDecodes(s[0], Utf8Encode(s[1..]));
      assert (Utf8Char(s[0]) + Utf8Encode(s[1..]))[|Utf8Char(s[0])|..] == Utf8Encode(s[1..]);
      assert [s[0]] + s[1..] == s;
    }
  }

  /** A string of ASCII characters: one byte each, the character's code. */
  predicate IsAscii(s: string) {
    forall i :: 0 <= i < |s| ==> s[i] as int < 0x80
  }

  /** The encoding of a concatenation is the concatenation of the encodings. */
  lemma {:induction false} Utf8EncodeConcat(a: string, b: string)
    ensures Utf8Encode(a + b) == Utf8Encode(a) + Utf8Encode(b)
    decreases |a|
  {
    if |a| > 0 {
      assert (a + b)[1..] == a[1..] + b;
      Utf8EncodeConcat(a[1..], b);
      assert Utf8Encode(a + b) == Utf8Char(a[0]) + Utf8Encode(a[1..] + b);
    } else {
      assert a + b == b;
    }
  }

  /** ASCII text is encoded one byte per character, the byte being the character's code. */
  lemma {:induction false} Utf8EncodeAscii(s: string)
    requires IsAscii(s)
    ensures |Utf8Encode(s)| == |s|
    ensures forall i :: 0 <= i < |s| ==> Utf8Encode(s)[i] == s[i] as int
    decreases |s|
  {
    if |s| > 0 {
      Utf8EncodeAscii(s[1..]);
    }
  }

  /* ---------------------------------------------------------- hex digits */

  /** `hex_val`: the value of an ASCII hex digit of either case. */
  function HexVal(b: byte): (r: Option<byte>)
    ensures r.Some? ==> r.value < 16
  {
    if '0' as int <= b <= '9' as int then Some(b - '0' as int)
    else if 'a' as int <= b <= 'f' as int then Some(b - 'a' as int + 10)
    else if 'A' as int <= b <= 'F' as int then Some(b - 'A' as int + 10)
    else None
  }

  /** `hex_char`: the upper-case hex digit of a nibble, `'0'` for anything larger. */
  function HexChar(n: byte): (c: char)
    ensures c as int < 0x80
    ensures n < 16 ==> HexVal(c as int) == Some(n)
  {
    if n <= 9 then ('0' as int + n) as char
    else if n <= 15 then ('A' as int + (n - 10)) as char
    else '0'
  }

  /* ----------------------------------------------------- the form codec */

  /** RFC 3986 section 2.3 unreserved characters: ALPHA, DIGIT, `-`, `.`, `_`, `~`. */
  predicate IsUnreserved(b: byte) {
    ('A' as int <= b <= 'Z' as int) || ('a' as int <= b <= 'z' as int) || ('0' as int <= b <= '9' as int)
    || b == '-' as int || b == '.' as int || b == '_' as int || b == '~' as int
  }

  /** A character `encode_www_form_component` may write: unreserved, `+` or `%`. */
  predicate IsFormChar(c: char) {
    c as int < 0x80 && (IsUnreserved(c as int) || c == '+' || c == '%')
  }

  predicate IsFormText(s: string) {
    forall i :: 0 <= i < |s| ==> IsFormChar(s[i])
  }

  lemma FormTextExcludes(s: string)
    requires IsFormText(s)
    ensures '=' !in s && '&' !in s && '?' !in s && '#' !in s
    ensures |s| > 0 ==> !IsWhitespace(s[|s| - 1])
  {
  }

  /** The characters one input byte is written as. */
  function EncodeByte(b: byte): (r: string)
    ensures IsAscii(r) && 1 <= |r| <= 3
  {
    if IsUnreserved(b) then [b as char]
    else if b == ' ' as int then "+"
    else ['%', HexChar(b / 16), HexChar(b % 16)]
  }

  function EncodeBytes(bs: seq<byte>): (r: string)
    ensures IsAscii(r) && |r| >= |bs|
    decreases |bs|
  {
    if |bs| == 0 then "" else EncodeByte(bs[0]) + EncodeBytes(bs[1..])
  }

  /** Only unreserved characters, `+` and `%` come out of the encoder. */
  lemma {:induction false} EncodedIsFormText(bs: seq<byte>)
    ensures IsFormText(EncodeBytes(bs))
    decreases |bs|
  {
    if |bs| > 0 {
      EncodedIsFormText(bs[1..]);
      var e, rest := EncodeByte(bs[0]), EncodeBytes(bs[1..]);
      assert IsFormText(e);
      assert forall i :: |e| <= i < |e + rest| ==> (e + rest)[i] == rest[i - |e|];
    }
  }

  /** What `encode_www_form_component` returns. */
  function EncodeComponentSpec(s: string): string {
    EncodeBytes(Utf8Encode(s))
  }

  /** The byte string the decoding loop builds: `+` is a space, `%HH` a byte, a bad escape is dropped. */
  function DecodeBytes(bs: seq<byte>): seq<byte>
    decreases |bs|
  {
    if |bs| == 0 then []
    else if bs[0] == '+' as int then [' ' as int] + DecodeBytes(bs[1..])
    else if bs[0] == '%' as int then
      if |bs| >= 3 && HexVal(bs[1]).Some? && HexVal(bs[2]).Some? then
        [HexVal(bs[1]).value * 16 + HexVal(bs[2]).value] + DecodeBytes(bs[3..])
      else if |bs| >= 3 then DecodeBytes(bs[3..])
      else []
    else [bs[0]] + DecodeBytes(bs[1..])
  }

  /** What `decode_www_form_component` returns: the decoded text, or the input if that is not UTF-8. */
  function DecodeComponentSpec(s: string): string {
    match Utf8Decode(DecodeBytes(Utf8Encode(s)))
    case Some(t) => t
    case None => s
  }

  /** The characters written for one byte decode back to that byte, whatever follows. */
  lemma DecodeEncodedByte(b: byte, tail: seq<byte>)
    ensures DecodeBytes(Utf8Encode(EncodeByte(b)) + tail) == [b] + DecodeBytes(tail)
  {
    var e := EncodeByte(b);
    Utf8EncodeAscii(e);
    if IsUnreserved(b) {
      assert Utf8Encode(e) == [b];
      assert ([b] + tail)[1..] == tail;
    } else if b == ' ' as int {
      assert Utf8Encode(e) == ['+' as int];
      assert (['+' as int] + tail)[1..] == tail;
    } else {
      var hi, lo := HexChar(b / 16), HexChar(b % 16);
      assert Utf8Encode(e) == ['%' as int, hi as int, lo as int];
      assert (['%' as int, hi as int, lo as int] + tail)[3..] == tail;
      assert HexVal(hi as int) == Some(b / 16) && HexVal(lo as int) == Some(b % 16);
    }
  }

  lemma {:induction false} DecodeEncodedBytes(bs: seq<byte>)
    ensures DecodeBytes(Utf8Encode(EncodeBytes(bs))) == bs
    decreases |bs|
  {
    if |bs| > 0 {
      var e := EncodeByte(bs[0]);
      var rest := EncodeBytes(bs[1..]);
      Utf8EncodeConcat(e, rest);
      DecodeEncodedByte(bs[0], Utf8Encode(rest));
      DecodeEncodedBytes(bs[1..]);
      assert [bs[0]] + bs[1..] == bs;
    }
  }

  /** Decoding undoes encoding, for every string. */
  lemma DecodeEncodeRoundTrip(s: string)
    ensures DecodeComponentSpec(EncodeComponentSpec(s)) == s
  {
    DecodeEncodedBytes(Utf8Encode(s));
    Utf8RoundTrip(s);
  }

  /** `encode_www_form_component`: one pass over the bytes of the input. */
  method EncodeComponent(input: string) returns (out: string)
    ensures out == EncodeComponentSpec(input)
  {
    out := EncodeByteLoop(Utf8Encode(input));
  }

  /** The loop of `encode_www_form_component` over the bytes of its input. */
  method EncodeByteLoop(bytes: seq<byte>) returns (out: string)
    ensures out == EncodeBytes(bytes)
  {
    out := "";
    var i := 0;
    while i < |bytes|
      invariant i <= |bytes|
      invariant out == EncodeBytes(bytes[..i])
    {
      EncodeBytesAppend(bytes[..i], bytes[i]);
      assert bytes[..i + 1] == bytes[..i] + [bytes[i]];
      var b := bytes[i];
      if IsUnreserved(b) {
        out := out + [b as char];
      } else if b == ' ' as int {
        out := out + "+";
      } else {
        out := out + ['%', HexChar(b / 16), HexChar(b % 16)];
      }
      i := i + 1;
    }
    assert bytes[..i] == bytes;
  }

  lemma {:induction false} EncodeBytesAppend(bs: seq<byte>, b: byte)
    ensures EncodeBytes(bs + [b]) == EncodeBytes(bs) + EncodeByte(b)
    decreases |bs|
  {
    if |bs| > 0 {
      assert (bs + [b])[1..] == bs[1..] + [b];
      EncodeBytesAppend(bs[1..], b);
    }
  }

  /** `decode_www_form_component`: one pass over the bytes, then a UTF-8 check with the input as fallback. */
  method DecodeComponent(input: string) returns (out: string)
    ensures out == DecodeComponentSpec(input)
  {
    var bytes := DecodeByteLoop(Utf8Encode(input));
    match Utf8Decode(bytes) {
      case Some(t) => out := t;
      case None => out := input;
    }
  }

  /** The loop of `decode_www_form_component` over the bytes of its input. */
  method DecodeByteLoop(src: seq<byte>) returns (bytes: seq<byte>)
    ensures bytes == DecodeBytes(src)
  {
    bytes := [];
    var i := 0;
    while i < |src|
      invariant i <= |src|
      invariant bytes + DecodeBytes(src[i..]) == DecodeBytes(src)
    {
      DecodeProgress(src, i, bytes);
      ghost var before, step, next := bytes, DecodeStep(src, i), NextIndex(src, i);
      var b := src[i];
      if b == '+' as int {
        bytes := bytes + [' ' as int];
        i := i + 1;
      } else if b == '%' as int {
        // the two bytes after `%`; an escape cut short by the end of the input is dropped
        if i + 2 < |src| {
          var hi, lo := src[i + 1], src[i + 2];
          if HexVal(hi).Some? && HexVal(lo).Some? {
            bytes := bytes + [HexVal(hi).value * 16 + HexVal(lo).value];
          }
          i := i + 3;
        } else {
          i := |src|;
        }
      } else {
        bytes := bytes + [b];
        i := i + 1;
      }
      assert bytes == before + step && i == next;
    }
    assert src[i..] == [];
  }

  /** Where the decoding loop goes on after the byte at `i`. */
  function NextIndex(src: seq<byte>, i: nat): (j: nat)
    requires i < |src|
    ensures i < j <= |src|
  {
    if src[i] == '%' as int then (if i + 2 < |src| then i + 3 else |src|) else i + 1
  }

  /** What the decoding loop emits for the byte at `i`. */
  function DecodeStep(src: seq<byte>, i: nat): seq<byte>
    requires i < |src|
  {
    if src[i] == '+' as int then [' ' as int]
    else if src[i] == '%' as int then
      if i + 2 < |src| && HexVal(src[i + 1]).Some? && HexVal(src[i + 2]).Some? then
        [HexVal(src[i + 1]).value * 16 + HexVal(src[i + 2]).value]
      else []
    else [src[i]]
  }

  /** The bytes emitted so far, followed by the step at `i`, still lead to the whole decoding. */
  lemma DecodeProgress(src: seq<byte>, i: nat, before: seq<byte>)
    requires i < |src| && before + DecodeBytes(src[i..]) == DecodeBytes(src)
    ensures (before + DecodeStep(src, i)) + DecodeBytes(src[NextIndex(src, i)..]) == DecodeBytes(src)
  {
    DecodeBytesUnfold(src, i);
    var step, rest := DecodeStep(src, i), DecodeBytes(src[NextIndex(src, i)..]);
    assert before + (step + rest) == (before + step) + rest;
  }

  lemma DecodeBytesUnfold(src: seq<byte>, i: nat)
    requires i < |src|
    ensures DecodeBytes(src[i..]) == DecodeStep(src, i) + DecodeBytes(src[NextIndex(src, i)..])
  {
    var rest := src[i..];
    if src[i] == '%' as int && i + 2 < |src| {
      assert rest[3..] == src[i + 3..];
    } else if src[i] != '%' as int {
      assert rest[1..] == src[i + 1..];
    }
  }

  /* ---------------------------------------------------------------- query */

  /** The query without surrounding white space and without its leading `?`. */
  function QueryBody(query: string): string {
    var q := Trim(query);
    if |q| > 0 && q[0] == '?' then q[1..] else q
  }

  /** The `&`-separated pairs `parse_query_map` looks at: none for an empty query. */
  function QueryPairs(query: string): seq<string> {
    var q := QueryBody(query);
    if q == "" then [] else Split(q, '&')
  }

  /** The key and value one pair contributes: nothing for an empty pair or an empty decoded key. */
  function PairEntry(pair: string): (r: Option<(string, string)>)
    ensures r.Some? ==> r.value.0 != ""
  {
    if pair == "" then None
    else
      var (k, v) := match SplitOnce(pair, '=') case Some(kv) => kv case None => (pair, "");
      var key := DecodeComponentSpec(k);
      if key == "" then None else Some((key, DecodeComponentSpec(v)))
  }

  /** The entry of every pair, in order. */
  function Entries(pairs: seq<string>): (es: seq<Option<(string, string)>>)
    ensures |es| == |pairs|
    decreases |pairs|
  {
    if |pairs| == 0 then [] else Entries(pairs[..|pairs| - 1]) + [PairEntry(pairs[|pairs| - 1])]
  }

  /** The map built by inserting the entries in order. */
  function MapOfEntries(es: seq<Option<(string, string)>>): map<string, string>
    decreases |es|
  {
    if |es| == 0 then map[]
    else
      var m := MapOfEntries(es[..|es| - 1]);
      match es[|es| - 1]
      case None => m
      case Some((k, v)) => m[k := v]
  }

  /** What `parse_query_map` returns. */
  function QueryMap(query: string): map<string, string> {
    MapOfEntries(Entries(QueryPairs(query)))
  }

  /** The entry at `i` has the key `k`. */
  predicate GivesKey(es: seq<Option<(string, string)>>, i: int, k: string) {
    0 <= i < |es| && es[i].Some? && es[i].value.0 == k
  }

  /** The last entry with the key `k`, searching from the end. */
  function LastGiving(es: seq<Option<(string, string)>>, k: string): (r: Option<nat>)
    ensures r.Some? ==> GivesKey(es, r.value, k) && forall j :: r.value < j < |es| ==> !GivesKey(es, j, k)
    ensures r.None? ==> forall j :: 0 <= j < |es| ==> !GivesKey(es, j, k)
    decreases |es|
  {
    if |es| == 0 then None
    else if GivesKey(es, |es| - 1, k) then Some(|es| - 1)
    else
      var init := es[..|es| - 1];
      assert forall j :: 0 <= j < |init| ==> GivesKey(init, j, k) == GivesKey(es, j, k);
      LastGiving(init, k)
  }

  /** A key is in the parsed map exactly when some pair gives it, and then the last such pair's value wins. */
  lemma {:induction false} QueryMapLastWins(es: seq<Option<(string, string)>>, k: string)
    ensures k in MapOfEntries(es) <==> LastGiving(es, k).Some?
    ensures k in MapOfEntries(es) ==> MapOfEntries(es)[k] == es[LastGiving(es, k).value].value.1
    decreases |es|
  {
    if |es| > 0 {
      QueryMapLastWins(es[..|es| - 1], k);
    }
  }

  /** No pair contributes an empty key, so the parsed map never holds one. */
  lemma {:induction false} NoEmptyKey(pairs: seq<string>)
    ensures "" !in MapOfEntries(Entries(pairs))
    decreases |pairs|
  {
    if |pairs| > 0 {
      var init := pairs[..|pairs| - 1];
      var es := Entries(pairs);
      assert es[..|es| - 1] == Entries(init);
      assert es[|es| - 1] == PairEntry(pairs[|pairs| - 1]);
      NoEmptyKey(init);
    }
  }

  /** `parse_query_map` never yields the empty key. */
  lemma QueryMapNoEmptyKey(query: string)
    ensures "" !in QueryMap(query)
  {
    NoEmptyKey(QueryPairs(query));
  }

  /** `parse_query_map`: split at `&`, skip empty pairs and empty keys, insert each decoded pair. */
  method ParseQueryMap(query: string) returns (out: map<string, string>)
    ensures out == QueryMap(query)
  {
    var q := Trim(query);
    if |q| > 0 && q[0] == '?' {
      q := q[1..];
    }
    if q == "" {
      return map[];
    }
    out := InsertPairs(Split(q, '&'));
  }

  /** One pass of the loop of `parse_query_map`: split at the first `=`, decode both sides, skip an empty key. */
  method ParsePair(pair: string) returns (entry: Option<(string, string)>)
    ensures entry == PairEntry(pair)
  {
    if pair == "" {
      return None;
    }
    var k, v := pair, "";
    match SplitOnce(pair, '=') {
      case Some((a, b)) => k, v := a, b;
      case None =>
    }
    var key := DecodeComponent(k);
    if key == "" {
      return None;
    }
    var val := DecodeComponent(v);
    entry := Some((key, val));
  }

  /** One more pair appends its entry. */
  lemma EntriesStep(pairs: seq<string>, i: nat)
    requires i < |pairs|
    ensures Entries(pairs[..i + 1]) == Entries(pairs[..i]) + [PairEntry(pairs[i])]
  {
    assert pairs[..i + 1][..i] == pairs[..i];
  }

  /** One more entry inserts its pair, if it has one. */
  lemma MapOfEntriesStep(es: seq<Option<(string, string)>>, entry: Option<(string, string)>)
    ensures MapOfEntries(es + [entry]) == if entry.Some? then MapOfEntries(es)[entry.value.0 := entry.value.1] else MapOfEntries(es)
  {
    assert (es + [entry])[..|es|] == es;
  }

  /** The loop of `parse_query_map`: each non-empty pair with a non-empty decoded key is inserted. */
  method InsertPairs(pairs: seq<string>) returns (out: map<string, string>)
    ensures out == MapOfEntries(Entries(pairs))
  {
    out := map[];
    ghost var es: seq<Option<(string, string)>> := [];
    var i := 0;
    while i < |pairs|
      invariant i <= |pairs|
      invariant es == Entries(pairs[..i])
      invariant out == MapOfEntries(es)
    {
      var entry := ParsePair(pairs[i]);
      EntriesStep(pairs, i);
      MapOfEntriesStep(es, entry);
      if entry.Some? {
        out := out[entry.value.0 := entry.value.1];
      }
      es := es + [entry];
      i := i + 1;
    }
    assert pairs[..i] == pairs;
  }

  /* ------------------------------------------------------- query building */

  /** `x` comes first in `s` in the order of Rust's `String`. */
  ghost predicate IsLeast(x: string, s: set<string>) {
    x in s && forall y :: y in s ==> LexLe(x, y)
  }

  lemma LeastExists(s: set<string>)
    requires s != {}
    ensures exists x :: IsLeast(x, s)
    decreases |s|
  {
    var y :| y in s;
    if s - {y} == {} {
      assert s == {y};
      assert LexLe(y, y) by { LexLeTotal(y, y); }
      assert IsLeast(y, s);
    } else {
      LeastExists(s - {y});
      var z :| IsLeast(z, s - {y});
      LexLeTotal(y, z);
      if LexLe(y, z) {
        forall w | w in s ensures LexLe(y, w) {
          if w == y { LexLeTotal(y, y); } else { LexLeTransitive(y, z, w); }
        }
        assert IsLeast(y, s);
      } else {
        assert IsLeast(z, s);
      }
    }
  }

  lemma LeastUnique(x: string, y: string, s: set<string>)
    requires IsLeast(x, s) && IsLeast(y, s)
    ensures x == y
  {
    LexLeAntisymmetric(x, y);
  }

  /** The keys of a map in the order `Vec::sort` puts them in. */
  ghost function SortedKeys(s: set<string>): (keys: seq<string>)
    ensures |keys| == |s|
    ensures forall k :: k in keys <==> k in s
    decreases |s|
  {
    if s == {} then []
    else
      LeastExists(s);
      var x :| IsLeast(x, s);
      [x] + SortedKeys(s - {x})
  }

  /** Keys in strictly ascending order. */
  predicate StrictlyAscending(keys: seq<string>) {
    forall i, j :: 0 <= i < j < |keys| ==> LexLe(keys[i], keys[j]) && keys[i] != keys[j]
  }

  lemma {:induction false} SortedKeysAscending(s: set<string>)
    ensures StrictlyAscending(SortedKeys(s))
    decreases |s|
  {
    if s != {} {
      LeastExists(s);
      var x :| IsLeast(x, s);
      SortedKeysOfLeast(s, x);
      var rest := SortedKeys(s - {x});
      SortedKeysAscending(s - {x});
      forall j | 0 <= j < |rest| ensures LexLe(x, rest[j]) && x != rest[j] {
        assert rest[j] in s - {x};
      }
      AscendingCons(x, rest);
    }
  }

  /** A key below every key of an ascending sequence can go in front of it. */
  lemma AscendingCons(x: string, rest: seq<string>)
    requires StrictlyAscending(rest)
    requires forall j :: 0 <= j < |rest| ==> LexLe(x, rest[j]) && x != rest[j]
    ensures StrictlyAscending([x] + rest)
  {
    var keys := [x] + rest;
    forall i, j | 0 <= i < j < |keys| ensures LexLe(keys[i], keys[j]) && keys[i] != keys[j] {
      assert keys[j] == rest[j - 1];
      if i > 0 {
        assert keys[i] == rest[i - 1];
      }
    }
  }

  lemma SortedKeysOfLeast(s: set<string>, x: string)
    requires IsLeast(x, s)
    ensures SortedKeys(s) == [x] + SortedKeys(s - {x})
  {
    LeastExists(s);
    var y :| IsLeast(y, s) && SortedKeys(s) == [y] + SortedKeys(s - {y});
    LeastUnique(x, y, s);
  }

  /** Picks the least key of a non-empty set: one pass comparing with the best so far. */
  method Least(s: set<string>) returns (x: string)
    requires s != {}
    ensures IsLeast(x, s)
  {
    x :| x in s;
    LexLeTotal(x, x);
    var todo := s - {x};
    while todo != {}
      invariant todo <= s && x in s
      invariant forall y :: y in s - todo ==> LexLe(x, y)
      decreases |todo|
    {
      var y :| y in todo;
      if !LexLe(x, y) {
        LexLeTotal(x, y);
        forall z | z in s - todo ensures LexLe(y, z) {
          LexLeTransitive(y, x, z);
        }
        LexLeTotal(y, y);
        x := y;
      }
      todo := todo - {y};
    }
  }

  /** `keys.sort()`: the keys in ascending order, taken out least first. */
  method SortKeys(s: set<string>) returns (keys: seq<string>)
    ensures keys == SortedKeys(s)
  {
    keys := [];
    var rest := s;
    while rest != {}
      invariant keys + SortedKeys(rest) == SortedKeys(s)
      decreases |rest|
    {
      var x := Least(rest);
      SortedKeysOfLeast(rest, x);
      ConcatAssoc(keys, [x], SortedKeys(rest - {x}));
      keys := keys + [x];
      rest := rest - {x};
    }
  }

  /** One `key=value` item of the built query; the `=value` part only for a non-empty value. */
  function Item(k: string, v: string): string {
    EncodeComponentSpec(k) + (if v == "" then "" else "=" + EncodeComponentSpec(v))
  }

  function ItemsOf(keys: seq<string>, m: map<string, string>): (items: seq<string>)
    requires forall i :: 0 <= i < |keys| ==> keys[i] in m
    ensures |items| == |keys|
    decreases |keys|
  {
    if |keys| == 0 then [] else ItemsOf(keys[..|keys| - 1], m) + [Item(keys[|keys| - 1], m[keys[|keys| - 1]])]
  }

  lemma {:induction false} ItemsOfAt(keys: seq<string>, m: map<string, string>, i: nat)
    requires forall i :: 0 <= i < |keys| ==> keys[i] in m
    requires i < |keys|
    ensures ItemsOf(keys, m)[i] == Item(keys[i], m[keys[i]])
    decreases |keys|
  {
    if i < |keys| - 1 {
      ItemsOfAt(keys[..|keys| - 1], m, i);
    }
  }

  /** What `build_query_string` returns: empty for an empty map, else `?` and the sorted items joined by `&`. */
  ghost function BuildQuery(m: map<string, string>): string {
    if |m| == 0 then "" else "?" + Join(ItemsOf(SortedKeys(m.Keys), m), '&')
  }

  lemma ItemsOfStep(keys: seq<string>, m: map<string, string>, i: nat)
    requires forall i :: 0 <= i < |keys| ==> keys[i] in m
    requires i < |keys|
    ensures ItemsOf(keys[..i + 1], m) == ItemsOf(keys[..i], m) + [Item(keys[i], m[keys[i]])]
  {
    assert keys[..i + 1][..i] == keys[..i];
  }

  /** One more item: after an `&` unless it is the first. */
  lemma AppendItemStep(items: seq<string>, item: string)
    ensures |items| > 0 ==> "?" + Join(items, '&') + "&" + item == "?" + Join(items + [item], '&')
    ensures |items| == 0 ==> "?" + item == "?" + Join(items + [item], '&')
  {
    JoinAppend(items, item, '&');
    if |items| > 0 {
      var j := Join(items, '&');
      var joined := Join(items + [item], '&');
      assert joined == j + ['&'] + item;
      ConcatAssoc("?" + j, "&", item);
      ConcatAssoc("?", j, "&");
      ConcatAssoc("?", j + "&", item);
    }
  }

  /** `build_query_string`. */
  method BuildQueryString(m: map<string, string>) returns (out: string)
    ensures out == BuildQuery(m)
  {
    if |m| == 0 {
      return "";
    }
    var keys := SortKeys(m.Keys);
    out := AppendItems(m, keys);
  }

  /** The encoded key, then `=` and the encoded value unless the value is empty. */
  method EncodeItem(k: string, v: string) returns (item: string)
    ensures item == Item(k, v)
  {
    item := EncodeComponent(k);
    if v != "" {
      var ev := EncodeComponent(v);
      item := item + "=" + ev;
    }
  }

  /** The loop of `build_query_string`: `?`, then the items of the keys in order, separated by `&`. */
  method AppendItems(m: map<string, string>, keys: seq<string>) returns (out: string)
    requires forall j :: 0 <= j < |keys| ==> keys[j] in m
    ensures out == "?" + Join(ItemsOf(keys, m), '&')
  {
    out := "?";
    var i := 0;
    while i < |keys|
      invariant i <= |keys|
      invariant out == "?" + Join(ItemsOf(keys[..i], m), '&')
    {
      var k := keys[i];
      var v := m[k];
      ItemsOfStep(keys, m, i);
      AppendItemStep(ItemsOf(keys[..i], m), Item(k, v));
      if i > 0 {
        out := out + "&";
      }
      var item := EncodeItem(k, v);
      out := out + item;
      i := i + 1;
    }
    assert keys[..i] == keys;
  }

  /* --------------------------------------------------------- round trip */

  lemma DecodeEmpty()
    ensures DecodeComponentSpec("") == ""
  {
  }

  lemma ItemIsPair(k: string, v: string)
    requires k != ""
    ensures PairEntry(Item(k, v)) == Some((k, v))
  {
    var ek := EncodeComponentSpec(k);
    EncodedIsFormText(Utf8Encode(k));
    FormTextExcludes(ek);
    DecodeEncodeRoundTrip(k);
    if v == "" {
      assert Item(k, v) == ek;
      DecodeEmpty();
    } else {
      assert Item(k, v) == ek + ['='] + EncodeComponentSpec(v);
      SplitOnceAt(ek, '=', EncodeComponentSpec(v));
      DecodeEncodeRoundTrip(v);
    }
  }

  lemma ItemShape(k: string, v: string)
    requires k != ""
    ensures Item(k, v) != "" && '&' !in Item(k, v)
    ensures !IsWhitespace(Item(k, v)[|Item(k, v)| - 1])
  {
    var ek := EncodeComponentSpec(k);
    EncodedIsFormText(Utf8Encode(k));
    FormTextExcludes(ek);
    if v != "" {
      var ev := EncodeComponentSpec(v);
      EncodedIsFormText(Utf8Encode(v));
      FormTextExcludes(ev);
      assert Item(k, v) == ek + "=" + ev;
    }
  }

  /** The entries `(k, m[k])` for the keys in order. */
  function KeyEntries(keys: seq<string>, m: map<string, string>): (es: seq<Option<(string, string)>>)
    requires forall i :: 0 <= i < |keys| ==> keys[i] in m
    ensures |es| == |keys|
    decreases |keys|
  {
    if |keys| == 0 then [] else KeyEntries(keys[..|keys| - 1], m) + [Some((keys[|keys| - 1], m[keys[|keys| - 1]]))]
  }

  /** Every built item parses back to its key and value. */
  lemma {:induction false} EntriesOfItems(keys: seq<string>, m: map<string, string>)
    requires forall i :: 0 <= i < |keys| ==> keys[i] in m && keys[i] != ""
    ensures Entries(ItemsOf(keys, m)) == KeyEntries(keys, m)
    decreases |keys|
  {
    if |keys| > 0 {
      var init := keys[..|keys| - 1];
      var last := keys[|keys| - 1];
      EntriesOfItems(init, m);
      var items := ItemsOf(keys, m);
      assert items[..|items| - 1] == ItemsOf(init, m);
      ItemIsPair(last, m[last]);
    }
  }

  /** Inserting the entries for `keys` builds `m` restricted to those keys. */
  lemma {:induction false} MapOfKeyEntries(keys: seq<string>, m: map<string, string>)
    requires forall i :: 0 <= i < |keys| ==> keys[i] in m
    ensures forall k :: k in MapOfEntries(KeyEntries(keys, m)) <==> k in keys
    ensures forall k :: k in MapOfEntries(KeyEntries(keys, m)) ==> k in m && MapOfEntries(KeyEntries(keys, m))[k] == m[k]
    decreases |keys|
  {
    if |keys| > 0 {
      var init := keys[..|keys| - 1];
      var last := keys[|keys| - 1];
      MapOfKeyEntries(init, m);
      var es := KeyEntries(keys, m);
      assert es[..|es| - 1] == KeyEntries(init, m);
      assert keys == init + [last];
      RestrictStep(MapOfEntries(KeyEntries(init, m)), init, last, m);
    }
  }

  /** Inserting the next key's value extends a copy of `m` restricted to the keys so far. */
  lemma RestrictStep(before: map<string, string>, init: seq<string>, last: string, m: map<string, string>)
    requires last in m
    requires forall k :: k in before <==> k in init
    requires forall k :: k in before ==> k in m && before[k] == m[k]
    ensures forall k :: k in before[last := m[last]] <==> k in init + [last]
    ensures forall k :: k in before[last := m[last]] ==> k in m && before[last := m[last]][k] == m[k]
  {
    var keys := init + [last];
    forall k
      ensures k in keys <==> k in init || k == last
    {
      if k in keys && k != last {
        var i :| 0 <= i < |keys| && keys[i] == k;
        assert init[i] == k;
      }
      if k in init {
        var i :| 0 <= i < |init| && init[i] == k;
        assert keys[i] == k;
      }
    }
  }

  /** Items that are non-empty, free of `&` and end in a character that is not white space. */
  predicate ItemsSafe(items: seq<string>) {
    forall i :: 0 <= i < |items| ==> items[i] != "" && '&' !in items[i] && !IsWhitespace(items[i][|items[i]| - 1])
  }

  lemma ItemsOfSafe(keys: seq<string>, m: map<string, string>)
    requires forall i :: 0 <= i < |keys| ==> keys[i] in m && keys[i] != ""
    ensures ItemsSafe(ItemsOf(keys, m))
  {
    var items := ItemsOf(keys, m);
    forall i | 0 <= i < |items|
      ensures items[i] != "" && '&' !in items[i] && !IsWhitespace(items[i][|items[i]| - 1])
    {
      ItemsOfAt(keys, m, i);
      ItemShape(keys[i], m[keys[i]]);
    }
  }

  /** A query made of safe items splits back into them. */
  lemma QueryPairsOfJoined(items: seq<string>)
    requires |items| > 0 && ItemsSafe(items)
    ensures QueryPairs("?" + Join(items, '&')) == items
  {
    JoinLastChar(items, '&');
    var q := "?" + Join(items, '&');
    TrimmedIsFixed(q);
    assert QueryBody(q) == Join(items, '&');
    SplitJoin(items, '&');
  }

  /** The built query splits back into its items. */
  lemma BuiltQueryPairs(m: map<string, string>)
    requires "" !in m && |m| > 0
    ensures QueryPairs(BuildQuery(m)) == ItemsOf(SortedKeys(m.Keys), m)
  {
    var keys := SortedKeys(m.Keys);
    ItemsOfSafe(keys, m);
    QueryPairsOfJoined(ItemsOf(keys, m));
  }

  /** Parsing a built query gives back the map, as long as no key is empty (an empty key is skipped). */
  lemma ParseBuiltQuery(m: map<string, string>)
    requires "" !in m
    ensures QueryMap(BuildQuery(m)) == m
  {
    if |m| > 0 {
      var keys := SortedKeys(m.Keys);
      BuiltQueryPairs(m);
      EntriesOfItems(keys, m);
      AllKeyEntries(keys, m);
    }
  }

  /** Inserting the entries for every key of `m` builds `m`. */
  lemma AllKeyEntries(keys: seq<string>, m: map<string, string>)
    requires forall k :: k in keys <==> k in m
    ensures MapOfEntries(KeyEntries(keys, m)) == m
  {
    MapOfKeyEntries(keys, m);
    var r := MapOfEntries(KeyEntries(keys, m));
    assert r.Keys == m.Keys;
  }
}
