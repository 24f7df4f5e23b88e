/** Naming and path helpers of `app/core/utils.py`: the directory slug, the
    unique output directory, the base-root check, the relative-URL test and
    the MIME-type-to-extension table. */
module Utils {
  import opened Text
  import Urls

  // ---------------------------------------------------------------- slugify

  /** `.encode("ascii", "ignore")`: characters outside ASCII are dropped. */
  function AsciiOnly(s: string): (r: string)
    ensures forall i :: 0 <= i < |r| ==> r[i] < '\U{80}'
    ensures forall i :: 0 <= i < |s| && s[i] < '\U{80}' ==> s[i] in r
  {
    if s == [] then [] else (if s[0] < '\U{80}' then [s[0]] else []) + AsciiOnly(s[1..])
  }

  /** `re.sub(pattern + "+", [c], s)` for a character class `cs`: every maximal
      run of characters from `cs` becomes the single character `c`. */
  function CollapseRuns(s: string, cs: set<char>, c: char): (r: string)
    ensures forall i :: 0 <= i < |r| ==> r[i] == c || (r[i] in s && r[i] !in cs)
    ensures r == [] <==> s == []
    ensures r != [] ==> (r[0] == c <==> s[0] in cs || s[0] == c)
  {
    if s == [] then []
    else if s[0] in cs then
      (if |s| > 1 && s[1] in cs then CollapseRuns(s[1..], cs, c) else [c] + CollapseRuns(s[1..], cs, c))
    else [s[0]] + CollapseRuns(s[1..], cs, c)
  }

  /** A word character of `re` for ASCII text (`\w`). */
  predicate IsWordChar(c: char) {
    'a' <= c <= 'z' || 'A' <= c <= 'Z' || '0' <= c <= '9' || c == '_'
  }

  /** `re.sub(r"[^\w\s-]", "", s)`. */
  function KeepWordSpaceDash(s: string): (r: string)
    ensures forall i :: 0 <= i < |r| ==> IsWordChar(r[i]) || IsSpace(r[i]) || r[i] == '-'
    ensures forall i :: 0 <= i < |r| ==> r[i] in s
  {
    if s == [] then []
    else
      var keep := IsWordChar(s[0]) || IsSpace(s[0]) || s[0] == '-';
      (if keep then [s[0]] else []) + KeepWordSpaceDash(s[1..])
  }

  const SpaceOrDash: set<char> := Whitespace + {'-'}

  /** The characters a slug may contain. */
  predicate IsSlugChar(c: char) {
    'a' <= c <= 'z' || '0' <= c <= '9' || c == '_' || c == '-'
  }

  /** `slugify(value)` on the ASCII path: non-ASCII characters are dropped,
      runs of slashes and backslashes become `-`, the text is lower-cased,
      everything but word characters, whitespace and `-` is removed, runs of
      whitespace and `-` become one `-`, outer dashes are stripped, and an
      empty outcome becomes `"site"`. */
  function Slugify(value: string): (r: string)
    ensures r != []
  {
    var s3 := StripChars(Collapsed(value), {'-'});
    if s3 == [] then "site" else s3
  }

  /** The slug before its outer dashes are stripped. */
  function Collapsed(value: string): string {
    var s1 := CollapseRuns(AsciiOnly(value), {'\\', '/'}, '-');
    CollapseRuns(KeepWordSpaceDash(Lower(s1)), SpaceOrDash, '-')
  }

  /** Dashes at positions `i` and `i + 1`. */
  predicate DashPair(s: string, i: nat)
    requires i + 1 < |s|
  {
    s[i] == '-' && s[i + 1] == '-'
  }

  /** No `--` anywhere in `s`. */
  predicate NoDoubleDash(s: string) {
    forall i: nat :: i + 1 < |s| ==> !DashPair(s, i)
  }

  /** Collapsing the runs of a class that contains `c` leaves no two `c` in a row. */
  lemma {:induction false} CollapseNoDouble(s: string, cs: set<char>)
    requires '-' in cs
    ensures NoDoubleDash(CollapseRuns(s, cs, '-'))
    decreases |s|
  {
    if s != [] {
      var tail := CollapseRuns(s[1..], cs, '-');
      CollapseNoDouble(s[1..], cs);
      if s[0] in cs && !(|s| > 1 && s[1] in cs) {
        var r := CollapseRuns(s, cs, '-');
        assert r == "-" + tail;
        assert tail == [] || tail[0] != '-';
        forall i: nat | i + 1 < |r| ensures !DashPair(r, i) {
          if i > 0 {
            assert r[i] == tail[i - 1] && r[i + 1] == tail[i];
            assert !DashPair(tail, i - 1);
          }
        }
      } else if s[0] !in cs {
        var r := CollapseRuns(s, cs, '-');
        assert r == [s[0]] + tail;
        forall i: nat | i + 1 < |r| ensures !DashPair(r, i) {
          if i > 0 {
            assert r[i] == tail[i - 1] && r[i + 1] == tail[i];
            assert !DashPair(tail, i - 1);
          }
        }
      }
    }
  }

  /** Stripping the outer dashes keeps a string free of `--`. */
  lemma StripKeepsNoDouble(s: string)
    requires NoDoubleDash(s)
    ensures NoDoubleDash(StripChars(s, {'-'}))
  {
    var r := StripChars(s, {'-'});
    var d := StripIsSlice(s, {'-'});
    forall i: nat | i + 1 < |r| ensures !DashPair(r, i) {
      assert r[i] == s[d..d + |r|][i] == s[d + i];
      assert r[i + 1] == s[d..d + |r|][i + 1] == s[d + i + 1];
      assert !DashPair(s, d + i);
    }
  }

  predicate AllSlugChars(s: string) {
    forall i :: 0 <= i < |s| ==> IsSlugChar(s[i])
  }

  /** After lower-casing, filtering and collapsing, only slug characters are left. */
  lemma CollapsedIsSlug(s1: string)
    ensures AllSlugChars(CollapseRuns(KeepWordSpaceDash(Lower(s1)), SpaceOrDash, '-'))
  {
    var lowered := Lower(s1);
    assert NoUpper(lowered) by {
      forall i | 0 <= i < |lowered| ensures !IsUpper(lowered[i]) {
        assert lowered[i] == LowerChar(s1[i]);
      }
    }
    KeepSlugOrSpace(lowered);
    CollapseSlug(KeepWordSpaceDash(lowered));
  }

  /** Every character is a slug character or whitespace. */
  predicate SlugOrSpace(s: string) {
    forall i :: 0 <= i < |s| ==> IsSlugChar(s[i]) || IsSpace(s[i])
  }

  lemma {:induction false} KeepSlugOrSpace(s: string)
    requires NoUpper(s)
    ensures SlugOrSpace(KeepWordSpaceDash(s))
  {
    if s != [] {
      assert !IsUpper(s[0]);
      assert NoUpper(s[1..]) by {
        forall i | 0 <= i < |s[1..]| ensures !IsUpper(s[1..][i]) {
          assert s[1..][i] == s[i + 1];
        }
      }
      KeepSlugOrSpace(s[1..]);
    }
  }

  lemma {:induction false} CollapseSlug(s: string)
    requires SlugOrSpace(s)
    ensures AllSlugChars(CollapseRuns(s, SpaceOrDash, '-'))
  {
    if s != [] {
      assert SlugOrSpace(s[1..]) by {
        forall i | 0 <= i < |s[1..]| ensures IsSlugChar(s[1..][i]) || IsSpace(s[1..][i]) {
          assert s[1..][i] == s[i + 1];
        }
      }
      CollapseSlug(s[1..]);
      assert IsSlugChar(s[0]) || s[0] in SpaceOrDash;
    }
  }

  /** Stripping the outer dashes keeps only slug characters and leaves no dash
      at either end. */
  lemma StripKeepsSlug(c: string)
    requires AllSlugChars(c)
    ensures var r := StripChars(c, {'-'});
      AllSlugChars(r) && (r == [] || (r[0] != '-' && r[|r| - 1] != '-'))
  {
    var r := StripChars(c, {'-'});
    var d := StripIsSlice(c, {'-'});
    StripEnds(c, {'-'});
    forall i | 0 <= i < |r| ensures IsSlugChar(r[i]) {
      assert r[i] == c[d..d + |r|][i] == c[d + i];
    }
  }

  /** What a slug looks like: only `[a-z0-9_-]`, never empty, no dash at
      either end and no `--`. */
  lemma SlugShape(value: string)
    ensures var r := Slugify(value);
      r != [] && AllSlugChars(r) && r[0] != '-' && r[|r| - 1] != '-' && NoDoubleDash(r)
  {
    var s1 := CollapseRuns(AsciiOnly(value), {'\\', '/'}, '-');
    var c := Collapsed(value);
    CollapsedIsSlug(s1);
    CollapseNoDouble(KeepWordSpaceDash(Lower(s1)), SpaceOrDash);
    SlugOf(c);
  }

  /** The last step of `slugify`: strip the outer dashes, fall back to
      `"site"`. */
  lemma SlugOf(c: string)
    requires AllSlugChars(c) && NoDoubleDash(c)
    ensures var s3 := StripChars(c, {'-'});
      var r := if s3 == [] then "site" else s3;
      r != [] && AllSlugChars(r) && r[0] != '-' && r[|r| - 1] != '-' && NoDoubleDash(r)
  {
    if StripChars(c, {'-'}) == [] {
      SiteIsSlug();
    } else {
      StripKeepsSlug(c);
      StripKeepsNoDouble(c);
    }
  }

  lemma SiteIsSlug()
    ensures AllSlugChars("site") && NoDoubleDash("site")
  {
    forall i: nat | i + 1 < |"site"| ensures !DashPair("site", i) {
      assert "site"[i] != '-';
    }
  }

  // ------------------------------------------------------ ensure_unique_dir

  /** The `k`-th name `ensure_unique_dir` tries: `name` itself first, then
      `name-2`, `name-3`, and so on. */
  function Attempt(name: string, k: nat): string
    requires k >= 1
  {
    if k == 1 then name else name + "-" + NatToString(k)
  }

  lemma AttemptInjective(name: string, a: nat, b: nat)
    requires 1 <= a && 1 <= b && a != b
    ensures Attempt(name, a) != Attempt(name, b)
  {
    if a != 1 && b != 1 && Attempt(name, a) == Attempt(name, b) {
      var sa, sb := NatToString(a), NatToString(b);
      assert Attempt(name, a)[|name| + 1..] == sa;
      assert Attempt(name, b)[|name| + 1..] == sb;
      NatToStringInjective(a, b);
    }
  }

  /** `name-k` is the first free numbered name: `name` and every `name-j`
      with 2 <= j < k are taken. */
  ghost predicate FirstFree(existing: set<string>, name: string, k: nat) {
    2 <= k && forall j :: 2 <= j < k ==> Attempt(name, j) in existing
  }

  /** `ensure_unique_dir(base, name)` over the set of names already present in
      `base`: the first free name among `name`, `name-2`, `name-3`, ..., which
      the call then creates. */
  method EnsureUniqueDir(existing: set<string>, name: string) returns (dir: string, after: set<string>)
    ensures dir !in existing
    ensures after == existing + {dir}
    ensures dir == name || (name in existing && exists k :: FirstFree(existing, name, k) && dir == Attempt(name, k))
  {
    var candidate := name;
    var i := 2;
    ghost var unseen := existing;
    while candidate in existing
      invariant i >= 2
      invariant candidate == Attempt(name, i - 1)
      invariant forall j :: 1 <= j < i - 1 ==> Attempt(name, j) in existing
      invariant unseen <= existing
      invariant forall j :: j >= i - 1 && Attempt(name, j) in existing ==> Attempt(name, j) in unseen
      decreases unseen
    {
      ghost var prev := i - 1;
      unseen := unseen - {candidate};
      candidate := name + "-" + NatToString(i);
      i := i + 1;
      forall j | j >= i - 1 && Attempt(name, j) in existing ensures Attempt(name, j) in unseen {
        AttemptInjective(name, j, prev);
      }
    }
    dir := candidate;
    after := existing + {dir};
    if dir != name {
      assert Attempt(name, 1) in existing;
    }
  }

  // --------------------------------------------------------------- safe_join

  datatype Result<+T> = Ok(value: T) | Escapes

  /** `safe_join(base, target)`: both paths are resolved (`resolve` stands for
      `Path.resolve`) and the resolved target is returned when its text starts
      with the resolved base's text; otherwise the call fails. */
  function SafeJoin(resolve: string -> string, base: string, target: string): (r: Result<string>)
    ensures r.Ok? <==> StartsWith(resolve(target), resolve(base))
    ensures r.Ok? ==> r.value == resolve(target)
  {
    var b := resolve(base);
    var t := resolve(target);
    if StartsWith(t, b) then Ok(t) else Escapes
  }

  /** Every target that resolves below the resolved base is accepted, as
      exactly that path. */
  lemma SafeJoinInside(resolve: string -> string, base: string, target: string, rest: string)
    requires resolve(target) == resolve(base) + rest
    ensures SafeJoin(resolve, base, target) == Ok(resolve(base) + rest)
  {
    assert (resolve(base) + rest)[..|resolve(base)|] == resolve(base);
  }

  /** The test is on text, not on path components: a sibling whose name
      extends the base's last component is let through. */
  lemma SafeJoinSiblingPasses()
    ensures SafeJoin(p => p, "/a/b", "/a/bc") == Ok("/a/bc")
  {
    assert "/a/bc"[..4] == "/a/b";
  }

  // --------------------------------------------------------- is_relative_url

  /** `is_relative_url(url)`: no scheme, no network location and not
      scheme-relative. */
  function IsRelativeUrl(url: string): (b: bool)
    ensures b <==> !Urls.HasScheme(url) && !StartsWith(url, "//")
  {
    var p := Urls.Parse(url);
    p.scheme == [] && p.netloc == [] && !StartsWith(url, "//")
  }

  // ----------------------------------------------- guess_extension_from_mime

  const MimeExtensions: map<string, string> := map[
    "text/css" := ".css",
    "text/javascript" := ".js",
    "application/javascript" := ".js",
    "application/x-javascript" := ".js",
    "image/jpeg" := ".jpg",
    "image/png" := ".png",
    "image/gif" := ".gif",
    "image/webp" := ".webp",
    "image/svg+xml" := ".svg",
    "video/mp4" := ".mp4",
    "video/webm" := ".webm",
    "font/woff" := ".woff",
    "font/woff2" := ".woff2",
    "font/ttf" := ".ttf",
    "font/otf" := ".otf",
    "application/font-woff" := ".woff"
  ]

  /** The media type proper: the text before the first `;`, stripped. */
  function MediaType(mime: string): string {
    Strip(Before(mime, ';'))
  }

  /** `guess_extension_from_mime(mime)`: the table's extension for the media
      type, or `""` for a missing or empty header or an unknown type. */
  function GuessExtensionFromMime(mime: Option<string>): (ext: string)
    ensures mime == None || mime == Some("") ==> ext == ""
    ensures mime.Some? && MediaType(mime.value) in MimeExtensions ==>
      ext == MimeExtensions[MediaType(mime.value)]
    ensures mime.Some? && MediaType(mime.value) !in MimeExtensions ==> ext == ""
    ensures ext == "" || ext in MimeExtensions.Values
  {
    match mime
    case None => ""
    case Some(m) =>
      if m == "" then ""
      else var t := MediaType(m); if t in MimeExtensions then MimeExtensions[t] else ""
  }

  predicate ExtensionLike(e: string) {
    |e| >= 2 && e[0] == '.' && '.' !in e[1..] && '/' !in e
  }

  /** Every extension in the table is a dot followed by a name without
      further dots or slashes. */
  lemma TableExtensionsShape()
    ensures forall t :: t in MimeExtensions ==> ExtensionLike(MimeExtensions[t])
  {
    forall t | t in MimeExtensions ensures ExtensionLike(MimeExtensions[t]) {
      var e := MimeExtensions[t];
      assert e == ".css" || e == ".js" || e == ".jpg" || e == ".png" || e == ".gif" ||
        e == ".webp" || e == ".svg" || e == ".mp4" || e == ".webm" || e == ".woff" ||
        e == ".woff2" || e == ".ttf" || e == ".otf";
    }
  }

  lemma ExtensionShape(mime: Option<string>)
    ensures var e := GuessExtensionFromMime(mime); e == "" || ExtensionLike(e)
  {
    TableExtensionsShape();
  }

  /** Parameters after `;` do not change the outcome. */
  lemma {:induction false} MimeParametersIgnored(t: string, params: string)
    requires ';' !in t && t != ""
    ensures GuessExtensionFromMime(Some(t + ";" + params)) == GuessExtensionFromMime(Some(t))
  {
    var m := t + ";" + params;
    assert m[|t|] == ';';
    assert Find(m, ';') == |t| by {
      FindPrefix(t, ";" + params, ';');
    }
    assert m[..|t|] == t;
    assert Before(t, ';') == t;
  }

  lemma {:induction false} FindPrefix(a: string, b: string, c: char)
    requires c !in a && b != [] && b[0] == c
    ensures Find(a + b, c) == |a|
    decreases |a|
  {
    if a != [] {
      assert (a + b)[1..] == a[1..] + b;
      FindPrefix(a[1..], b, c);
    }
  }

  /** Whitespace around the media type does not change the outcome. */
  lemma MimeWhitespaceIgnored(t: string, pre: string, post: string)
    requires ';' !in t && ';' !in pre && ';' !in post
    requires forall i :: 0 <= i < |pre| ==> IsSpace(pre[i])
    requires forall i :: 0 <= i < |post| ==> IsSpace(post[i])
    requires t != [] && !IsSpace(t[0]) && !IsSpace(t[|t| - 1])
    ensures GuessExtensionFromMime(Some(pre + t + post)) == GuessExtensionFromMime(Some(t))
  {
    var m := pre + t + post;
    assert Before(m, ';') == m;
    assert Before(t, ';') == t;
    StripPadding(pre, t, post);
    StripEnds(t, Whitespace);
    StripOfClean(t);
  }

  lemma StripOfClean(t: string)
    requires t != [] && !IsSpace(t[0]) && !IsSpace(t[|t| - 1])
    ensures Strip(t) == t
  {
  }

  lemma {:induction false} StripPadding(pre: string, t: string, post: string)
    requires forall i :: 0 <= i < |pre| ==> IsSpace(pre[i])
    requires forall i :: 0 <= i < |post| ==> IsSpace(post[i])
    requires t != [] && !IsSpace(t[0]) && !IsSpace(t[|t| - 1])
    ensures Strip(pre + t + post) == t
  {
    assert pre + t + post == pre + (t + post);
    LeftPadding(pre, t + post);
    RightPadding(t, post);
    StripVia(pre + t + post, t + post, t, Whitespace);
  }

  lemma {:induction false} LeftPadding(pre: string, rest: string)
    requires forall i :: 0 <= i < |pre| ==> IsSpace(pre[i])
    requires rest != [] && !IsSpace(rest[0])
    ensures TrimLeft(pre + rest, Whitespace) == rest
    decreases |pre|
  {
    if pre != [] {
      assert (pre + rest)[1..] == pre[1..] + rest;
      LeftPadding(pre[1..], rest);
    }
  }

  lemma {:induction false} RightPadding(t: string, post: string)
    requires forall i :: 0 <= i < |post| ==> IsSpace(post[i])
    requires t != [] && !IsSpace(t[|t| - 1])
    ensures TrimRight(t + post, Whitespace) == t
    decreases |post|
  {
    if post != [] {
      assert (t + post)[..|t + post| - 1] == t + post[..|post| - 1];
      RightPadding(t, post[..|post| - 1]);
    }
  }
}
