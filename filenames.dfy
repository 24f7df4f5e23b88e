/** Output names for downloaded assets (`normalize_filename`) and the font
    test used by the stylesheet pass (`is_font_url`). SHA-1 is not modelled:
    the first eight hex digits of the query's digest come from a function
    parameter `digest`. */
module Filenames {
  import opened Text
  import opened Urls
  import Utils
  import opened Assets

  predicate IsHexDigit(c: char) { '0' <= c <= '9' || 'a' <= c <= 'f' }

  /** `hexdigest()[:8]`: eight lower-case hexadecimal digits. */
  type Digest8 = s: string | |s| == 8 && forall i :: 0 <= i < |s| ==> IsHexDigit(s[i])
    witness "00000000"

  /** The name before query disambiguation: the path's basename, `"file"` when
      that is empty, with the extension `ext` appended when it has no dot. */
  function Stem(path: string, ext: string): string {
    var base := Basename(path);
    var name := if base == "" then "file" else base;
    if '.' !in name then name + ext else name
  }

  /** `name.rsplit(".", 1)` for a name containing a dot. */
  function SplitLastDot(name: string): (r: (string, string))
    requires '.' in name
    ensures name == r.0 + "." + r.1 && '.' !in r.1
  {
    var k := RFind(name, '.');
    assert name == name[..k] + "." + name[k + 1..];
    (name[..k], name[k + 1..])
  }

  /** The file name for a URL with the given path and query, where `ext` is the
      extension the content type maps to. */
  function NameFor(path: string, query: string, ext: string, digest: string -> Digest8): string {
    var name := Stem(path, ext);
    if query == "" then name
    else
      var h := digest(query);
      if '.' in name then (var (b, e) := SplitLastDot(name); b + "-" + h + "." + e)
      else name + "-" + h
  }

  /** `normalize_filename(url, content_type)`. */
  function NormalizeFilename(url: Url, contentType: Option<string>, digest: string -> Digest8): string {
    var p := Parse(url);
    NameFor(p.path, p.query, Utils.GuessExtensionFromMime(contentType), digest)
  }

  /** The relative path `_dl` writes an asset of category `kind` to. */
  function RelPath(kind: Category, url: Url, contentType: Option<string>, digest: string -> Digest8): string {
    Folder(kind) + "/" + NormalizeFilename(url, contentType, digest)
  }

  /** How the stem is formed: an empty basename becomes `"file"`, and the
      extension is added only to a name without a dot. */
  lemma StemShape(path: string, ext: string)
    ensures var base := Basename(path);
      var name := if base == "" then "file" else base;
      (base == "" ==> Stem(path, ext) == "file" + ext) &&
      ('.' in name ==> Stem(path, ext) == name) &&
      ('.' !in name ==> Stem(path, ext) == name + ext)
  {
  }

  /** Without a query the name is the stem unchanged; with one, the eight-digit
      digest of the query is put before the last extension, or appended after a
      dash when there is no extension. */
  lemma QueryDisambiguation(path: string, query: string, ext: string, digest: string -> Digest8)
    ensures var name := Stem(path, ext);
      var r := NameFor(path, query, ext, digest);
      (query == "" ==> r == name) &&
      (query != "" && '.' !in name ==> r == name + "-" + digest(query)) &&
      (query != "" && '.' in name ==>
        exists b, e :: name == b + "." + e && '.' !in e && r == b + "-" + digest(query) + "." + e)
  {
    var name := Stem(path, ext);
    if query != "" && '.' in name {
      var (b, e) := SplitLastDot(name);
      var r := NameFor(path, query, ext, digest);
      assert r == b + "-" + digest(query) + "." + e;
      assert name == b + "." + e && '.' !in e;
    }
  }

  /** The same properties, for the name derived from a URL and its content
      type: an empty basename becomes `"file"`, the MIME extension is added
      only when the basename has no dot, and only a non-empty query changes
      the stem. */
  lemma NormalizeFilenameShape(url: Url, contentType: Option<string>, digest: string -> Digest8)
    ensures var p := Parse(url);
      var base := Basename(p.path);
      var ext := Utils.GuessExtensionFromMime(contentType);
      var r := NormalizeFilename(url, contentType, digest);
      (p.query == "" && base == "" ==> r == "file" + ext) &&
      (p.query == "" && '.' in base ==> r == base) &&
      (p.query == "" && base != "" && '.' !in base ==> r == base + ext) &&
      (p.query != "" ==> r != Stem(p.path, ext))
  {
    var p := Parse(url);
    var ext := Utils.GuessExtensionFromMime(contentType);
    StemShape(p.path, ext);
    QueryDisambiguation(p.path, p.query, ext, digest);
    var name := Stem(p.path, ext);
    if p.query != "" && '.' in name {
      var (b, e) := SplitLastDot(name);
      assert |NameFor(p.path, p.query, ext, digest)| == |name| + 9;
    }
  }

  lemma NoSlashIn(s: string, t: string)
    requires '/' !in s && '/' !in t
    ensures '/' !in s + t
  {
    assert forall i :: 0 <= i < |s + t| ==> (s + t)[i] == if i < |s| then s[i] else t[i - |s|];
  }

  /** A derived name is one non-empty path component: it never contains `/`,
      provided the extension has none. */
  lemma NameIsComponent(path: string, query: string, ext: string, digest: string -> Digest8)
    requires '/' !in ext
    ensures var r := NameFor(path, query, ext, digest); r != [] && '/' !in r
  {
    var stem := Stem(path, ext);
    StemIsComponent(path, ext);
    if query != "" {
      var h := digest(query);
      DigestNoSlash(h);
      if '.' in stem {
        var (b, e) := SplitLastDot(stem);
        DotPartsNoSlash(stem);
        NoSlashIn(b, "-");
        NoSlashIn(b + "-", h);
        NoSlashIn(b + "-" + h, ".");
        NoSlashIn(b + "-" + h + ".", e);
      } else {
        NoSlashIn(stem, "-");
        NoSlashIn(stem + "-", h);
      }
    }
  }

  lemma StemIsComponent(path: string, ext: string)
    requires '/' !in ext
    ensures Stem(path, ext) != [] && '/' !in Stem(path, ext)
  {
    var base := Basename(path);
    var name := if base == "" then "file" else base;
    NoSlashIn(name, ext);
  }

  lemma DigestNoSlash(h: Digest8)
    ensures '/' !in h
  {
    assert forall i :: 0 <= i < |h| ==> IsHexDigit(h[i]);
  }

  lemma DotPartsNoSlash(name: string)
    requires '.' in name && '/' !in name
    ensures '/' !in SplitLastDot(name).0 && '/' !in SplitLastDot(name).1
  {
    var (b, e) := SplitLastDot(name);
    assert forall i :: 0 <= i < |b| ==> b[i] == name[i];
    assert forall i :: 0 <= i < |e| ==> e[i] == name[|b| + 1 + i];
  }

  lemma FilenameIsComponent(url: Url, contentType: Option<string>, digest: string -> Digest8)
    ensures var r := NormalizeFilename(url, contentType, digest); r != [] && '/' !in r
  {
    Utils.ExtensionShape(contentType);
    var p := Parse(url);
    NameIsComponent(p.path, p.query, Utils.GuessExtensionFromMime(contentType), digest);
  }

  /** The query digest adds exactly nine characters (a dash and eight digits). */
  lemma NameLength(path: string, query: string, ext: string, digest: string -> Digest8)
    ensures |NameFor(path, query, ext, digest)| == |Stem(path, ext)| + (if query == "" then 0 else 9)
  {
    var name := Stem(path, ext);
    if query != "" && '.' in name {
      var (b, e) := SplitLastDot(name);
      assert |name| == |b| + 1 + |e|;
    }
  }

  /** Where the digest sits in a disambiguated name. */
  function DigestOffset(path: string, ext: string): nat {
    var name := Stem(path, ext);
    if '.' in name then |SplitLastDot(name).0| + 1 else |name| + 1
  }

  lemma DigestAt(path: string, query: string, ext: string, digest: string -> Digest8)
    requires query != ""
    ensures var r := NameFor(path, query, ext, digest); var k := DigestOffset(path, ext);
      k + 8 <= |r| && r[k..k + 8] == digest(query)
  {
    var name := Stem(path, ext);
    if '.' in name {
      DigestBeforeExtension(name, digest(query));
    } else {
      var r := name + "-" + digest(query);
      assert r[|name| + 1..] == digest(query);
    }
  }

  lemma DigestBeforeExtension(name: string, h: Digest8)
    requires '.' in name
    ensures var (b, e) := SplitLastDot(name); var r := b + "-" + h + "." + e;
      r[|b| + 1..|b| + 9] == h
  {
  }

  /** Two URLs with the same path and content type collide only when both
      have a query and the digests of their queries collide; a URL with a
      query never collides with the same URL without one. */
  lemma QueryCollision(path: string, q1: string, q2: string, ext: string, digest: string -> Digest8)
    requires NameFor(path, q1, ext, digest) == NameFor(path, q2, ext, digest)
    ensures q1 == "" <==> q2 == ""
    ensures q1 != "" ==> digest(q1) == digest(q2)
  {
    NameLength(path, q1, ext, digest);
    NameLength(path, q2, ext, digest);
    if q1 != "" && q2 != "" {
      DigestAt(path, q1, ext, digest);
      DigestAt(path, q2, ext, digest);
    }
  }

  const FontExtensions: seq<string> := [".woff", ".woff2", ".ttf", ".otf", ".eot"]

  /** `is_font_url(url)`: the lower-cased URL ends in a font extension. */
  function IsFontUrl(url: Url): bool
  {
    var lower := Lower(url);
    exists i | 0 <= i < |FontExtensions| :: EndsWith(lower, FontExtensions[i])
  }

  /** The test ignores letter case. */
  lemma FontTestIgnoresCase(url: Url)
    ensures IsFontUrl(Lower(url)) == IsFontUrl(url)
  {
    assert Lower(Lower(url)) == Lower(url);
  }

  /** A font URL that carries a query string is not recognised as a font. */
  lemma FontWithQueryIsNotFont()
    ensures !IsFontUrl("f.woff?1")
  {
    var lower := Lower("f.woff?1");
    assert lower[|lower| - 1] == LowerChar('1') == '1';
    forall i | 0 <= i < |FontExtensions| ensures !EndsWith(lower, FontExtensions[i]) {
      LastCharDiffers(lower, FontExtensions[i]);
    }
  }

  /** A string does not end with a suffix whose last character differs. */
  lemma LastCharDiffers(s: string, suffix: string)
    requires s != [] && suffix != [] && s[|s| - 1] != suffix[|suffix| - 1]
    ensures !EndsWith(s, suffix)
  {
    if |suffix| <= |s| {
      assert s[|s| - |suffix|..][|suffix| - 1] == s[|s| - 1];
    }
  }
}
