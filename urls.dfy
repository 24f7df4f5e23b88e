/** The part of Python's `urllib.parse.urlparse` the engine depends on:
    splitting a URL into scheme, network location, path, parameters, query
    and fragment, and `os.path.basename` on the path. Joining (`urljoin`) is
    not modelled here; callers take it as a function parameter. */
module Urls {
  import opened Text

  datatype UrlParts = UrlParts(
    scheme: string, netloc: string, path: string, params: string, query: string, fragment: string)

  predicate IsAsciiAlpha(c: char) { 'a' <= c <= 'z' || 'A' <= c <= 'Z' }

  predicate IsSchemeChar(c: char) {
    IsAsciiAlpha(c) || '0' <= c <= '9' || c == '+' || c == '-' || c == '.'
  }

  /** The URL opens with `letters:` (an ASCII letter, then scheme characters,
      then the first colon), which is how `urlsplit` recognises a scheme. */
  predicate HasScheme(url: string) {
    var i := Find(url, ':');
    i > 0 && IsAsciiAlpha(url[0]) && forall k :: 0 <= k < i ==> IsSchemeChar(url[k])
  }

  /** The schemes for which `urlparse` cuts `;params` off the last path
      segment. */
  const UsesParams: set<string> :=
    {"", "ftp", "hdl", "prospero", "http", "imap", "https", "shttp", "rtsp", "rtsps", "rtspu",
     "sip", "sips", "mms", "sftp", "tel"}

  /** Split `s` at the first `c`: the text before it and the text after it,
      or `s` and the empty string when `c` does not occur. */
  function CutAt(s: string, c: char): (r: (string, string))
    ensures c !in r.0
    ensures c in s ==> s == r.0 + [c] + r.1
    ensures c !in s ==> r == (s, "")
  {
    var k := Find(s, c);
    if k == -1 then (s, "") else (s[..k], s[k + 1..])
  }

  /** The index of the first `/`, `?` or `#` at or after position 2, or |s|. */
  function NetlocEnd(s: string, i: nat): (r: nat)
    requires i <= |s|
    ensures i <= r <= |s|
    ensures forall k :: i <= k < r ==> s[k] !in "/?#"
    ensures r < |s| ==> s[r] in "/?#"
    decreases |s| - i
  {
    if i == |s| || s[i] in "/?#" then i else NetlocEnd(s, i + 1)
  }

  /** `urlparse(url)` without the input sanitising of recent Python releases. */
  function Parse(url: string): (r: UrlParts)
    ensures r.scheme != [] <==> HasScheme(url)
    ensures '?' !in r.path && '#' !in r.path && '#' !in r.query
    ensures r.netloc != [] ==> StartsWith(url, "//") || HasScheme(url)
  {
    var i := Find(url, ':');
    var scheme := if HasScheme(url) then Lower(url[..i]) else "";
    var rest := if HasScheme(url) then url[i + 1..] else url;
    var hasNet := StartsWith(rest, "//");
    var e := if hasNet then NetlocEnd(rest, 2) else 0;
    var netloc := if hasNet then rest[2..e] else "";
    var rest2 := rest[e..];
    var (beforeFrag, fragment) := CutAt(rest2, '#');
    var (path0, query) := CutAt(beforeFrag, '?');
    var (path, params) := if scheme in UsesParams then SplitParams(path0) else (path0, "");
    UrlParts(scheme, netloc, path, params, query, fragment)
  }

  /** `_splitparams`: the first `;` after the last `/` ends the path. */
  function SplitParams(p: string): (r: (string, string))
    ensures |r.0| <= |p| && r.0 == p[..|r.0|]
  {
    var start := RFind(p, '/') + 1;
    var k := Find(p[start..], ';');
    if k == -1 then (p, "") else (p[..start + k], p[start + k + 1..])
  }

  /** `os.path.basename`: the text after the last `/`. */
  function Basename(p: string): (r: string)
    ensures '/' !in r
    ensures EndsWith(p, r)
    ensures r == p <==> '/' !in p
  {
    p[RFind(p, '/') + 1..]
  }
}
