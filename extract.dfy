/** `collect_assets(soup, base_url)`: the asset URLs a page refers to, by
    category. The page is the sequence of its elements in document order;
    `resolve` stands for `urljoin(base_url, ·)`. The source makes six passes
    over the page, one per kind of element; each pass is a `Pass` here, with
    the URLs one element contributes to it. */
module Extract {
  import opened Text
  import opened Assets
  import opened Document

  /** A `<source>` inside `<video>`/`<audio>`, or one whose `type` is a video
      type, is a video source; any other `<source>` is a picture source. */
  predicate IsVideoSource(t: Tag) {
    t.name == "source" &&
    (Lower(t.parent) in {"video", "audio"} || StartsWith(Lower(AttrOr(t, "type")), "video/"))
  }

  /** The image URLs of a `srcset` value: the first token of each candidate. */
  function SrcsetUrls(srcset: string, resolve: Url -> Url): (r: set<Url>)
    ensures forall u :: u in r <==>
      exists c | c in Candidates(srcset) :: u == resolve(CandidateUrl(c))
  {
    var cs := Candidates(srcset);
    set i | 0 <= i < |cs| :: resolve(CandidateUrl(cs[i]))
  }

  /** The filter of the stylesheet pass: `any(r == "stylesheet")`, or `preload`
      with `as="style"`, on the lower-cased `rel` tokens (`[""]` when absent). */
  predicate IsStylesheetLink(t: Tag) {
    var rels := LowerAll(if t.rel == [] then [""] else t.rel);
    t.name == "link" && HasValue(t, "href") &&
    ("stylesheet" in rels || ("preload" in rels && Lower(AttrOr(t, "as")) == "style"))
  }

  /** The filter of the icon pass: an icon or manifest link that is neither a
      stylesheet, a preload nor a resource hint. */
  predicate IsIconLink(t: Tag) {
    var rels := LowerAll(t.rel);
    t.name == "link" && HasValue(t, "href") &&
    !("stylesheet" in rels || "preload" in rels) &&
    !("preconnect" in rels || "dns-prefetch" in rels || "prefetch" in rels ||
      "prerender" in rels || "modulepreload" in rels) &&
    ("icon" in rels || "shortcut icon" in rels || "apple-touch-icon" in rels || "manifest" in rels)
  }

  /** The six passes of the extractor, pass 1 split into its two outcomes. */
  datatype Pass = Pictures | SourceVideos | Scripts | Styles | Media | Icons | Frames

  /** The URLs one element contributes in one pass. */
  function Contribution(p: Pass, t: Tag, resolve: Url -> Url): set<Url> {
    match p
    case Pictures =>
      if t.name !in {"img", "source"} || IsVideoSource(t) then {}
      else
        (if "src" in t.attrs then {resolve(t.attrs["src"])} else {}) +
        (if "srcset" in t.attrs then SrcsetUrls(t.attrs["srcset"], resolve) else {})
    case SourceVideos =>
      if IsVideoSource(t) && "src" in t.attrs then {resolve(t.attrs["src"])} else {}
    case Scripts =>
      if t.name == "script" && HasValue(t, "src") then {resolve(t.attrs["src"])} else {}
    case Styles =>
      if IsStylesheetLink(t) then {resolve(t.attrs["href"])} else {}
    case Media =>
      if t.name in {"video", "track"} && HasValue(t, "src") then {resolve(t.attrs["src"])} else {}
    case Icons =>
      if IsIconLink(t) then {resolve(t.attrs["href"])} else {}
    case Frames =>
      if t.name == "iframe" && HasValue(t, "src") then {resolve(t.attrs["src"])} else {}
  }

  /** The union of the contributions of all elements of `doc` to pass `p`. */
  function Gathered(doc: seq<Tag>, p: Pass, resolve: Url -> Url): set<Url> {
    if doc == [] then {}
    else Gathered(doc[..|doc| - 1], p, resolve) + Contribution(p, doc[|doc| - 1], resolve)
  }

  /** One pass over the page: `for tag in soup.find_all(...): assets[k].add(...)`. */
  method Gather(doc: seq<Tag>, p: Pass, resolve: Url -> Url) returns (r: set<Url>)
    ensures r == Gathered(doc, p, resolve)
  {
    r := {};
    var i := 0;
    while i < |doc|
      invariant 0 <= i <= |doc|
      invariant r == Gathered(doc[..i], p, resolve)
    {
      assert doc[..i + 1][..i] == doc[..i];
      r := r + Contribution(p, doc[i], resolve);
      i := i + 1;
    }
    assert doc[..|doc|] == doc;
  }

  /** The asset dictionary with the given category sets. */
  function Assemble(img: set<Url>, js: set<Url>, css: set<Url>, video: set<Url>, other: set<Url>): (a: AssetSet)
    ensures Total(a) && a[Fonts] == {}
    ensures a[Img] == img && a[Js] == js && a[Css] == css && a[Video] == video && a[Other] == other
  {
    var a: AssetSet := map[Img := img, Js := js, Css := css, Video := video, Fonts := {}, Other := other];
    TotalBySix(a);
    a
  }

  /** What the extractor returns for a page. */
  function Collected(doc: seq<Tag>, resolve: Url -> Url): (a: AssetSet)
    ensures Total(a) && a[Fonts] == {}
  {
    Assemble(
      Gathered(doc, Pictures, resolve),
      Gathered(doc, Scripts, resolve),
      Gathered(doc, Styles, resolve),
      Gathered(doc, SourceVideos, resolve) + Gathered(doc, Media, resolve),
      Gathered(doc, Icons, resolve) + Gathered(doc, Frames, resolve))
  }

  /** `collect_assets`: the six passes in the source's order. */
  method CollectAssets(doc: seq<Tag>, resolve: Url -> Url) returns (assets: AssetSet)
    ensures assets == Collected(doc, resolve)
    ensures Total(assets) && assets[Fonts] == {}
  {
    var img := Gather(doc, Pictures, resolve);
    var sourceVideo := Gather(doc, SourceVideos, resolve);
    var js := Gather(doc, Scripts, resolve);
    var css := Gather(doc, Styles, resolve);
    var media := Gather(doc, Media, resolve);
    var icons := Gather(doc, Icons, resolve);
    var frames := Gather(doc, Frames, resolve);
    assets := Assemble(img, js, css, sourceVideo + media, icons + frames);
  }

  /** The URLs one element contributes, by category. */
  function TagAssets(t: Tag, resolve: Url -> Url): (a: AssetSet)
    ensures Total(a) && a[Fonts] == {}
  {
    Collected([t], resolve)
  }

  /** Which passes feed which category. */
  lemma TagAssetsByPass(t: Tag, resolve: Url -> Url)
    ensures var a := TagAssets(t, resolve);
      a[Img] == Contribution(Pictures, t, resolve) &&
      a[Js] == Contribution(Scripts, t, resolve) &&
      a[Css] == Contribution(Styles, t, resolve) &&
      a[Video] == Contribution(SourceVideos, t, resolve) + Contribution(Media, t, resolve) &&
      a[Other] == Contribution(Icons, t, resolve) + Contribution(Frames, t, resolve)
  {
    forall p: Pass {
      SingleGathered(t, p, resolve);
    }
  }

  /** The category a pass fills. */
  function PassCategory(p: Pass): Category {
    match p
    case Pictures => Img
    case SourceVideos => Video
    case Scripts => Js
    case Styles => Css
    case Media => Video
    case Icons => Other
    case Frames => Other
  }

  /** What an element contributes to a pass is among its assets of the
      category that pass fills. */
  lemma ContributionCollected(t: Tag, p: Pass, resolve: Url -> Url, u: Url)
    requires u in Contribution(p, t, resolve)
    ensures u in TagAssets(t, resolve)[PassCategory(p)]
  {
    TagAssetsByPass(t, resolve);
  }

  /** A URL is gathered in a pass exactly when some element contributes it. */
  lemma GatheredMembers(doc: seq<Tag>, p: Pass, resolve: Url -> Url, u: Url)
    ensures u in Gathered(doc, p, resolve) <==>
      exists i | 0 <= i < |doc| :: u in Contribution(p, doc[i], resolve)
  {
    var f := (t: Tag) => Contribution(p, t, resolve);
    GatheredIsUnion(doc, p, resolve);
    UnionMembers(doc, f, u);
    assert forall i | 0 <= i < |doc| :: f(doc[i]) == Contribution(p, doc[i], resolve);
  }

  /** The union of `f` over the elements of `doc`. */
  function Union(doc: seq<Tag>, f: Tag -> set<Url>): set<Url> {
    if doc == [] then {} else Union(doc[..|doc| - 1], f) + f(doc[|doc| - 1])
  }

  lemma {:induction false} GatheredIsUnion(doc: seq<Tag>, p: Pass, resolve: Url -> Url)
    ensures Gathered(doc, p, resolve) == Union(doc, (t: Tag) => Contribution(p, t, resolve))
  {
    if doc != [] {
      GatheredIsUnion(doc[..|doc| - 1], p, resolve);
    }
  }

  lemma {:induction false} UnionMembers(doc: seq<Tag>, f: Tag -> set<Url>, u: Url)
    ensures u in Union(doc, f) <==> exists i | 0 <= i < |doc| :: u in f(doc[i])
  {
    if doc != [] {
      var n := |doc| - 1;
      var front := doc[..n];
      UnionMembers(front, f, u);
      if u in Union(front, f) {
        var i :| 0 <= i < |front| && u in f(front[i]);
        assert doc[i] == front[i];
      }
      if exists i | 0 <= i < |doc| :: u in f(doc[i]) {
        var i :| 0 <= i < |doc| && u in f(doc[i]);
        if i < n {
          assert front[i] == doc[i];
        }
      }
    }
  }

  lemma SingleGathered(t: Tag, p: Pass, resolve: Url -> Url)
    ensures Gathered([t], p, resolve) == Contribution(p, t, resolve)
  {
    assert [t][..0] == [];
  }

  /** A URL is in a category of the page exactly when some element of the
      page contributes it to that category: the six passes lose nothing and
      invent nothing. */
  lemma CollectedMembers(doc: seq<Tag>, resolve: Url -> Url, c: Category, u: Url)
    ensures u in Collected(doc, resolve)[c] <==>
      exists i | 0 <= i < |doc| :: u in TagAssets(doc[i], resolve)[c]
  {
    forall p: Pass {
      GatheredMembers(doc, p, resolve, u);
    }
    forall i | 0 <= i < |doc|
      ensures var a := TagAssets(doc[i], resolve);
        a[Img] == Contribution(Pictures, doc[i], resolve) &&
        a[Js] == Contribution(Scripts, doc[i], resolve) &&
        a[Css] == Contribution(Styles, doc[i], resolve) &&
        a[Video] == Contribution(SourceVideos, doc[i], resolve) + Contribution(Media, doc[i], resolve) &&
        a[Other] == Contribution(Icons, doc[i], resolve) + Contribution(Frames, doc[i], resolve)
    {
      TagAssetsByPass(doc[i], resolve);
    }
  }

  /** Every URL one element contributes was joined against the page URL. */
  lemma TagResolved(t: Tag, resolve: Url -> Url, c: Category, u: Url)
    requires u in TagAssets(t, resolve)[c]
    ensures exists x :: u == resolve(x)
  {
    TagAssetsByPass(t, resolve);
    if "srcset" in t.attrs && u in SrcsetUrls(t.attrs["srcset"], resolve) {
      var cand :| cand in Candidates(t.attrs["srcset"]) && u == resolve(CandidateUrl(cand));
    }
  }

  /** Every URL the extractor reports was joined against the page URL. */
  lemma AllResolved(doc: seq<Tag>, resolve: Url -> Url, c: Category, u: Url)
    requires u in Collected(doc, resolve)[c]
    ensures exists x :: u == resolve(x)
  {
    CollectedMembers(doc, resolve, c, u);
    var i :| 0 <= i < |doc| && u in TagAssets(doc[i], resolve)[c];
    TagResolved(doc[i], resolve, c, u);
  }

  /** Reordering the page changes nothing. */
  lemma OrderIrrelevant(d1: seq<Tag>, d2: seq<Tag>, resolve: Url -> Url)
    requires multiset(d1) == multiset(d2)
    ensures Collected(d1, resolve) == Collected(d2, resolve)
  {
    var a1 := Collected(d1, resolve);
    var a2 := Collected(d2, resolve);
    forall c: Category, u: Url
      ensures u in a1[c] <==> u in a2[c]
    {
      CollectedMembers(d1, resolve, c, u);
      CollectedMembers(d2, resolve, c, u);
      if u in a1[c] {
        var i :| 0 <= i < |d1| && u in TagAssets(d1[i], resolve)[c];
        assert d1[i] in multiset(d2);
        var j :| 0 <= j < |d2| && d2[j] == d1[i];
      }
      if u in a2[c] {
        var j :| 0 <= j < |d2| && u in TagAssets(d2[j], resolve)[c];
        assert d2[j] in multiset(d1);
        var i :| 0 <= i < |d1| && d1[i] == d2[j];
      }
    }
    forall c: Category ensures a1[c] == a2[c] {
    }
    TotalBySix(a1);
  }

  // ------------------------------------------------ what one element yields

  /** A video `<source>` contributes its `src` (if any) to the video
      category and nothing else; its `srcset` is ignored. */
  lemma VideoSourceIsVideo(t: Tag, resolve: Url -> Url)
    requires IsVideoSource(t)
    ensures var a := TagAssets(t, resolve);
      a[Video] == (if "src" in t.attrs then {resolve(t.attrs["src"])} else {}) &&
      a[Img] == {} && a[Js] == {} && a[Css] == {} && a[Other] == {}
  {
    TagAssetsByPass(t, resolve);
  }

  /** An `<img>` or a picture `<source>` contributes its `src` and the first
      token of every `srcset` candidate to the image category, and nothing
      else. */
  lemma PictureIsImage(t: Tag, resolve: Url -> Url, u: Url)
    requires t.name == "img" || (t.name == "source" && !IsVideoSource(t))
    ensures var a := TagAssets(t, resolve);
      a[Video] == {} && a[Js] == {} && a[Css] == {} && a[Other] == {} &&
      (u in a[Img] <==>
        ("src" in t.attrs && u == resolve(t.attrs["src"])) ||
        ("srcset" in t.attrs &&
          exists c | c in Candidates(t.attrs["srcset"]) :: u == resolve(CandidateUrl(c))))
  {
    TagAssetsByPass(t, resolve);
  }

  /** A stylesheet link (or a style preload) goes to the CSS category only;
      no link ever lands in both CSS and other. */
  lemma LinkCategories(t: Tag, resolve: Url -> Url)
    requires t.name == "link"
    ensures var a := TagAssets(t, resolve);
      a[Img] == {} && a[Js] == {} && a[Video] == {} &&
      (IsStylesheetLink(t) ==> a[Css] == {resolve(t.attrs["href"])} && a[Other] == {}) &&
      (a[Css] == {} || a[Other] == {})
  {
    TagAssetsByPass(t, resolve);
    StylesheetIsNotIcon(t);
  }

  lemma StylesheetIsNotIcon(t: Tag)
    ensures !(IsStylesheetLink(t) && IsIconLink(t))
  {
    assert Lower("") == "";
  }

  /** A preload of anything but a stylesheet, and every resource hint, is not
      downloaded at all. */
  lemma HintsDropped(t: Tag, resolve: Url -> Url)
    requires t.name == "link"
    requires var rels := LowerAll(t.rel);
      ("preload" in rels && Lower(AttrOr(t, "as")) != "style" && "stylesheet" !in rels) ||
      (("preconnect" in rels || "dns-prefetch" in rels || "prefetch" in rels ||
        "prerender" in rels || "modulepreload" in rels) && "stylesheet" !in rels && "preload" !in rels)
    ensures forall c: Category :: TagAssets(t, resolve)[c] == {}
  {
    assert t.rel != [];
    assert !IsStylesheetLink(t) && !IsIconLink(t);
    forall p: Pass ensures Contribution(p, t, resolve) == {} {
      match p
      case Pictures =>
      case SourceVideos =>
      case Scripts =>
      case Styles =>
      case Media =>
      case Icons =>
      case Frames =>
    }
    Silent(t, resolve);
  }

  /** An element that contributes to no pass has no assets. */
  lemma Silent(t: Tag, resolve: Url -> Url)
    requires forall p: Pass :: Contribution(p, t, resolve) == {}
    ensures forall c: Category :: TagAssets(t, resolve)[c] == {}
  {
    TagAssetsByPass(t, resolve);
    forall c: Category ensures TagAssets(t, resolve)[c] == {} {
      match c
      case Img =>
      case Js =>
      case Css =>
      case Video =>
      case Fonts =>
      case Other =>
    }
  }

  /** An element of any other kind contributes nothing. */
  lemma OtherElementsIgnored(t: Tag, resolve: Url -> Url)
    requires t.name !in {"img", "source", "script", "link", "video", "track", "iframe"}
    ensures forall c: Category :: TagAssets(t, resolve)[c] == {}
  {
    TagAssetsByPass(t, resolve);
    forall c: Category ensures TagAssets(t, resolve)[c] == {} {
      match c
      case Img =>
      case Js =>
      case Css =>
      case Video =>
      case Fonts =>
      case Other =>
    }
  }

  /** Pass 1 tests for the attribute's presence, the other passes for a
      non-empty value: an empty `src` on an image stands for the page URL
      itself, on a script it is skipped. */
  lemma EmptySourceAttribute(t: Tag, resolve: Url -> Url)
    requires "src" in t.attrs && t.attrs["src"] == ""
    ensures t.name == "img" ==> resolve("") in TagAssets(t, resolve)[Img]
    ensures t.name == "script" ==> TagAssets(t, resolve)[Js] == {}
  {
    TagAssetsByPass(t, resolve);
  }
}
