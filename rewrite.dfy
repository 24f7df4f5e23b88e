/** `rewrite_html_paths(soup, base_url, mapping_by_type)`: the references of
    the page's elements are replaced, in place, by the local paths the
    downloads recorded. The page is an array of elements; `resolve` stands
    for `urljoin(base_url, ·)`. The source makes five passes, each over the
    elements of a few tag names; each pass is a `Step` here. */
module Rewrite {
  import opened Text
  import opened Assets
  import opened Document
  import Extract

  /** `rel = table.get(absu); if rel:` — the recorded local path of a URL,
      when there is one and it is not empty. */
  function Lookup(table: map<Url, string>, u: Url): (r: Option<string>)
    ensures r.Some? <==> u in table && table[u] != ""
    ensures r.Some? ==> r.value == table[u]
  {
    if u in table && table[u] != "" then Some(table[u]) else None
  }

  /** The value a reference `v` is rewritten to: its local path if the
      resolved URL has one, else `v` itself. */
  function Localized(table: map<Url, string>, resolve: Url -> Url, v: string): string {
    match Lookup(table, resolve(v))
    case Some(p) => p
    case None => v
  }

  /** The element with attribute `a` localized against `table`. */
  function Localize(t: Tag, a: string, resolve: Url -> Url, table: map<Url, string>): (r: Tag)
    requires a in t.attrs
    ensures r.name == t.name && r.parent == t.parent && r.rel == t.rel
    ensures r.attrs == t.attrs[a := Localized(table, resolve, t.attrs[a])]
  {
    t.(attrs := t.attrs[a := Localized(table, resolve, t.attrs[a])])
  }

  // ------------------------------------------------------------------ srcset

  /** One candidate with its URL token localized (`comps[0] = rel`) and its
      tokens re-joined by single spaces. */
  function RewriteCandidate(c: string, resolve: Url -> Url, table: map<Url, string>): string
    requires IsCandidate(c)
  {
    var comps := Words(c);
    Join([Localized(table, resolve, comps[0])] + comps[1..], " ")
  }

  /** `new_parts`: the candidates rewritten one by one, in order. */
  function RewriteCandidates(cs: seq<string>, resolve: Url -> Url, table: map<Url, string>): (r: seq<string>)
    requires forall i :: 0 <= i < |cs| ==> IsCandidate(cs[i])
    ensures |r| == |cs|
  {
    if cs == [] then []
    else RewriteCandidates(cs[..|cs| - 1], resolve, table) + [RewriteCandidate(cs[|cs| - 1], resolve, table)]
  }

  lemma {:induction false} RewriteCandidatesAt(cs: seq<string>, i: nat, resolve: Url -> Url, table: map<Url, string>)
    requires forall j :: 0 <= j < |cs| ==> IsCandidate(cs[j])
    requires i < |cs|
    ensures RewriteCandidates(cs, resolve, table)[i] == RewriteCandidate(cs[i], resolve, table)
  {
    var n := |cs| - 1;
    if i < n {
      RewriteCandidatesAt(cs[..n], i, resolve, table);
    }
  }

  /** The new `srcset` value, or `None` when it has no candidate and is left
      as it is (`if new_parts:`). */
  function RewriteSrcset(s: string, resolve: Url -> Url, table: map<Url, string>): (r: Option<string>)
    ensures r.None? <==> Candidates(s) == []
  {
    var parts := Candidates(s);
    if parts == [] then None else Some(Join(RewriteCandidates(parts, resolve, table), ", "))
  }

  // ------------------------------------------------------------------ passes

  /** The five passes of the rewriter. */
  datatype Step = Images | Scripts | Links | Videos | Frames

  /** Which link pass the rewriter runs: the one the source writes, or the
      corrected one that consults the table the extractor filed the link
      under (see README, Findings). */
  datatype Version = AsWritten | Corrected

  /** The test the source's link pass makes to pick the stylesheet table:
      a `rel` token equal to `stylesheet`, ignoring case. */
  predicate HasStylesheetRel(t: Tag) {
    "stylesheet" in LowerAll(if t.rel == [] then [""] else t.rel)
  }

  /** Pass 1 on an `<img>` or `<source>`: `src` when present, then `srcset`. */
  function ImageStep(t: Tag, resolve: Url -> Url, table: map<Url, string>): Tag {
    var t1 := if "src" in t.attrs then Localize(t, "src", resolve, table) else t;
    if "srcset" in t1.attrs then
      match RewriteSrcset(t1.attrs["srcset"], resolve, table)
      case Some(v) => t1.(attrs := t1.attrs["srcset" := v])
      case None => t1
    else t1
  }

  /** Pass 3 exactly as the source writes it: only a `rel="stylesheet"` link
      is looked up among the stylesheets; every other link, a style preload
      included, among the other assets. */
  function LinkStepAsWritten(t: Tag, resolve: Url -> Url, mapping: Mapping): Tag
    requires Total(mapping)
  {
    if !HasValue(t, "href") then t
    else Localize(t, "href", resolve, if HasStylesheetRel(t) then mapping[Css] else mapping[Other])
  }

  /** Pass 3 as the extractor classifies links: the stylesheet table for
      every link the extractor counted as a stylesheet (style preloads
      included), the other table for the rest. */
  function LinkStep(t: Tag, resolve: Url -> Url, mapping: Mapping): Tag
    requires Total(mapping)
  {
    if !HasValue(t, "href") then t
    else Localize(t, "href", resolve, if Extract.IsStylesheetLink(t) then mapping[Css] else mapping[Other])
  }

  /** What one pass does to one element. */
  function Apply(v: Version, p: Step, t: Tag, resolve: Url -> Url, mapping: Mapping): Tag
    requires Total(mapping)
  {
    match p
    case Images =>
      if t.name in {"img", "source"} then ImageStep(t, resolve, mapping[Img]) else t
    case Scripts =>
      if t.name == "script" && HasValue(t, "src") then Localize(t, "src", resolve, mapping[Js]) else t
    case Links =>
      if t.name != "link" then t
      else if v == AsWritten then LinkStepAsWritten(t, resolve, mapping)
      else LinkStep(t, resolve, mapping)
    case Videos =>
      if t.name in {"video", "source", "track"} && HasValue(t, "src")
      then Localize(t, "src", resolve, mapping[Video]) else t
    case Frames =>
      if t.name == "iframe" && HasValue(t, "src") then Localize(t, "src", resolve, mapping[Other]) else t
  }

  /** All five passes, in order, on one element. */
  function RewriteTag(v: Version, t: Tag, resolve: Url -> Url, mapping: Mapping): Tag
    requires Total(mapping)
  {
    LaterSteps(v, Apply(v, Images, t, resolve, mapping), resolve, mapping)
  }

  /** Passes 2 to 5. */
  function LaterSteps(v: Version, t1: Tag, resolve: Url -> Url, mapping: Mapping): Tag
    requires Total(mapping)
  {
    var t2 := Apply(v, Scripts, t1, resolve, mapping);
    var t3 := Apply(v, Links, t2, resolve, mapping);
    var t4 := Apply(v, Videos, t3, resolve, mapping);
    Apply(v, Frames, t4, resolve, mapping)
  }

  /** One pass over the page, element by element, in place. */
  method ForEachTag(tags: array<Tag>, f: Tag -> Tag)
    modifies tags
    ensures forall i | 0 <= i < tags.Length :: tags[i] == f(old(tags[i]))
  {
    var i := 0;
    while i < tags.Length
      invariant 0 <= i <= tags.Length
      invariant forall j | 0 <= j < i :: tags[j] == f(old(tags[j]))
      invariant forall j | i <= j < tags.Length :: tags[j] == old(tags[j])
    {
      tags[i] := f(tags[i]);
      i := i + 1;
    }
  }

  /** `rewrite_html_paths`: the five passes over the page. */
  method RewriteHtmlPaths(v: Version, tags: array<Tag>, resolve: Url -> Url, mapping: Mapping)
    requires Total(mapping)
    modifies tags
    ensures forall i | 0 <= i < tags.Length :: tags[i] == RewriteTag(v, old(tags[i]), resolve, mapping)
  {
    ghost var t0 := tags[..];
    ImagePass(v, tags, resolve, mapping);
    ghost var t1 := tags[..];
    ForEachTag(tags, t => Apply(v, Scripts, t, resolve, mapping));
    ghost var t2 := tags[..];
    ForEachTag(tags, t => Apply(v, Links, t, resolve, mapping));
    ghost var t3 := tags[..];
    ForEachTag(tags, t => Apply(v, Videos, t, resolve, mapping));
    ghost var t4 := tags[..];
    ForEachTag(tags, t => Apply(v, Frames, t, resolve, mapping));
    forall i | 0 <= i < tags.Length
      ensures tags[i] == RewriteTag(v, t0[i], resolve, mapping)
    {
      assert t1[i] == Apply(v, Images, t0[i], resolve, mapping);
      assert t2[i] == Apply(v, Scripts, t1[i], resolve, mapping);
      assert t3[i] == Apply(v, Links, t2[i], resolve, mapping);
      assert t4[i] == Apply(v, Videos, t3[i], resolve, mapping);
    }
  }

  /** Pass 1 over the page, in place. */
  method ImagePass(v: Version, tags: array<Tag>, resolve: Url -> Url, mapping: Mapping)
    requires Total(mapping)
    modifies tags
    ensures forall i | 0 <= i < tags.Length :: tags[i] == Apply(v, Images, old(tags[i]), resolve, mapping)
  {
    var i := 0;
    while i < tags.Length
      invariant 0 <= i <= tags.Length
      invariant forall j | 0 <= j < i :: tags[j] == Apply(v, Images, old(tags[j]), resolve, mapping)
      invariant forall j | i <= j < tags.Length :: tags[j] == old(tags[j])
    {
      var t := tags[i];
      ApplyImages(v, t, resolve, mapping);
      if t.name in {"img", "source"} {
        t := ImageTag(t, resolve, mapping[Img]);
      }
      ghost var want := Apply(v, Images, tags[i], resolve, mapping);
      assert t == want;
      label before:
      tags[i] := t;
      assert forall j | 0 <= j < tags.Length && j != i :: tags[j] == old@before(tags[j]);
      i := i + 1;
    }
  }

  lemma ApplyImages(v: Version, t: Tag, resolve: Url -> Url, mapping: Mapping)
    requires Total(mapping)
    ensures Apply(v, Images, t, resolve, mapping) ==
      if t.name in {"img", "source"} then ImageStep(t, resolve, mapping[Img]) else t
  {
  }

  /** Pass 1 on one `<img>` or `<source>`: its `src`, then its `srcset`. */
  method ImageTag(t: Tag, resolve: Url -> Url, table: map<Url, string>) returns (r: Tag)
    ensures r == ImageStep(t, resolve, table)
  {
    r := t;
    if "src" in r.attrs {
      r := Localize(r, "src", resolve, table);
    }
    if "srcset" in r.attrs {
      var v := NewSrcset(r.attrs["srcset"], resolve, table);
      if v.Some? {
        r := r.(attrs := r.attrs["srcset" := v.value]);
      }
    }
  }

  /** One candidate: `comps = p.split()`, `comps[0] = rel` when the URL
      has a local path, `" ".join(comps)`. */
  method RewriteOne(p: string, resolve: Url -> Url, table: map<Url, string>) returns (q: string)
    requires IsCandidate(p)
    ensures q == RewriteCandidate(p, resolve, table)
  {
    var comps := Words(p);
    var rel := Lookup(table, resolve(comps[0]));
    Head(comps, if rel.Some? then rel.value else comps[0]);
    if rel.Some? {
      comps := comps[0 := rel.value];
    }
    q := Join(comps, " ");
  }

  lemma RewriteCandidatesSnoc(cs: seq<string>, i: nat, resolve: Url -> Url, table: map<Url, string>)
    requires i < |cs| && forall j :: 0 <= j < |cs| ==> IsCandidate(cs[j])
    ensures RewriteCandidates(cs[..i + 1], resolve, table) ==
      RewriteCandidates(cs[..i], resolve, table) + [RewriteCandidate(cs[i], resolve, table)]
  {
    assert cs[..i + 1][..i] == cs[..i];
  }

  lemma Head<T>(s: seq<T>, x: T)
    requires s != []
    ensures s[0 := x] == [x] + s[1..] && s == [s[0]] + s[1..]
  {
  }

  /** The `srcset` branch of pass 1: the candidates, rewritten one by one,
      joined by `", "`; no new value when there is no candidate. */
  method NewSrcset(s: string, resolve: Url -> Url, table: map<Url, string>) returns (r: Option<string>)
    ensures r == RewriteSrcset(s, resolve, table)
  {
    var parts := Candidates(s);
    var newParts := RewriteParts(parts, resolve, table);
    if newParts == [] {
      r := None;
    } else {
      r := Some(Join(newParts, ", "));
    }
  }

  /** `for p in parts: ... new_parts.append(" ".join(comps))`. */
  method RewriteParts(parts: seq<string>, resolve: Url -> Url, table: map<Url, string>) returns (newParts: seq<string>)
    requires forall j :: 0 <= j < |parts| ==> IsCandidate(parts[j])
    ensures newParts == RewriteCandidates(parts, resolve, table)
  {
    newParts := [];
    for i := 0 to |parts|
      invariant newParts == RewriteCandidates(parts[..i], resolve, table)
    {
      var part := RewriteOne(parts[i], resolve, table);
      RewriteCandidatesSnoc(parts, i, resolve, table);
      newParts := newParts + [part];
    }
    assert parts[..|parts|] == parts;
  }

  // ------------------------------------------------------------- srcset facts

  /** Every recorded local path is a single token without a comma. The
      downloader does not guarantee this: a name taken from a URL path can
      hold a comma. The `srcset` facts below assume it. */
  predicate PathsAreTokens(table: map<Url, string>) {
    forall u | u in table :: ',' !in table[u] && forall j :: 0 <= j < |table[u]| ==> !IsSpace(table[u][j])
  }

  /** A rewritten candidate is still a candidate: its URL token is the local
      path (or the original token) and its descriptors are kept, in order. */
  lemma CandidateRewritten(c: string, resolve: Url -> Url, table: map<Url, string>)
    requires IsCandidate(c) && ',' !in c && PathsAreTokens(table)
    ensures var r := RewriteCandidate(c, resolve, table);
      IsCandidate(r) && ',' !in r &&
      Words(r) == [Localized(table, resolve, CandidateUrl(c))] + Words(c)[1..]
  {
    var comps := Words(c);
    var ws := [Localized(table, resolve, comps[0])] + comps[1..];
    WordsAvoid(c, ',');
    assert forall i :: 0 <= i < |ws| ==>
      ',' !in ws[i] && ws[i] != [] && forall j :: 0 <= j < |ws[i]| ==> !IsSpace(ws[i][j]);
    WordsJoin(ws);
    JoinWordsTight(ws);
    JoinAvoids(ws, " ", ',');
  }

  /** Rewriting a `srcset` keeps its candidates: as many as before, each with
      its URL localized and its width or density descriptors unchanged. */
  lemma SrcsetRewritten(s: string, resolve: Url -> Url, table: map<Url, string>)
    requires Candidates(s) != [] && PathsAreTokens(table)
    ensures RewriteSrcset(s, resolve, table).Some?
    ensures var before := Candidates(s);
      var after := Candidates(RewriteSrcset(s, resolve, table).value);
      |after| == |before| &&
      forall i :: 0 <= i < |after| ==>
        CandidateUrl(after[i]) == Localized(table, resolve, CandidateUrl(before[i])) &&
        Words(after[i])[1..] == Words(before[i])[1..]
  {
    var cs := Candidates(s);
    CandidatesAvoidComma(s);
    var rs := RewriteCandidates(cs, resolve, table);
    forall i | 0 <= i < |cs|
      ensures IsCandidate(rs[i]) && ',' !in rs[i]
      ensures Words(rs[i]) == [Localized(table, resolve, CandidateUrl(cs[i]))] + Words(cs[i])[1..]
    {
      RewriteCandidatesAt(cs, i, resolve, table);
      CandidateRewritten(cs[i], resolve, table);
    }
    CandidatesJoin(rs);
  }

  // ------------------------------------------------------------ element shape

  /** `r` is `t` with at most its `src`, `srcset` and `href` values changed:
      the same name, parent, `rel` tokens and attribute names, and the same
      value for every other attribute. */
  predicate SameShape(r: Tag, t: Tag) {
    r.name == t.name && r.parent == t.parent && r.rel == t.rel && r.attrs.Keys == t.attrs.Keys &&
    forall a | a in t.attrs && a !in {"src", "srcset", "href"} :: r.attrs[a] == t.attrs[a]
  }

  /** A pass changes only `src`, `srcset` or `href`, and adds or removes no
      attribute. */
  lemma ApplyShape(v: Version, p: Step, t: Tag, resolve: Url -> Url, mapping: Mapping)
    requires Total(mapping)
    ensures SameShape(Apply(v, p, t, resolve, mapping), t)
  {
  }

  lemma ImageStepSrcset(t: Tag, resolve: Url -> Url, table: map<Url, string>)
    requires "srcset" in t.attrs && Candidates(t.attrs["srcset"]) != []
    ensures "srcset" in ImageStep(t, resolve, table).attrs
    ensures ImageStep(t, resolve, table).attrs["srcset"] == RewriteSrcset(t.attrs["srcset"], resolve, table).value
  {
    var v := RewriteSrcset(t.attrs["srcset"], resolve, table);
    assert v.Some?;
    if "src" in t.attrs {
      var t1 := Localize(t, "src", resolve, table);
      assert t1.attrs["srcset"] == t.attrs["srcset"];
      assert ImageStep(t, resolve, table) == t1.(attrs := t1.attrs["srcset" := v.value]);
    } else {
      assert ImageStep(t, resolve, table) == t.(attrs := t.attrs["srcset" := v.value]);
    }
  }

  /** Only the image pass touches `srcset`. */
  lemma ApplyKeepsSrcset(v: Version, p: Step, t: Tag, resolve: Url -> Url, mapping: Mapping)
    requires Total(mapping) && p != Images && "srcset" in t.attrs
    ensures Apply(v, p, t, resolve, mapping).attrs["srcset"] == t.attrs["srcset"]
  {
  }

  /** The rewriter changes only references: tag names, parents, `rel` tokens
      and every attribute other than `src`, `srcset` and `href` are kept, and
      no attribute is added or removed. */
  lemma RewriteShape(v: Version, t: Tag, resolve: Url -> Url, mapping: Mapping)
    requires Total(mapping)
    ensures SameShape(RewriteTag(v, t, resolve, mapping), t)
  {
    var t1 := Apply(v, Images, t, resolve, mapping);
    var t2 := Apply(v, Scripts, t1, resolve, mapping);
    var t3 := Apply(v, Links, t2, resolve, mapping);
    var t4 := Apply(v, Videos, t3, resolve, mapping);
    ApplyShape(v, Images, t, resolve, mapping);
    ApplyShape(v, Scripts, t1, resolve, mapping);
    ApplyShape(v, Links, t2, resolve, mapping);
    ApplyShape(v, Videos, t3, resolve, mapping);
    ApplyShape(v, Frames, t4, resolve, mapping);
  }

  // ----------------------------------------------- agreement with extraction

  /** The extractor collects attribute `a` of `t` (non-empty) as a URL of
      category `c`. */
  predicate Carries(t: Tag, a: string, c: Category) {
    a in t.attrs && t.attrs[a] != "" &&
    ((a == "src" && c == Img && (t.name == "img" || (t.name == "source" && !Extract.IsVideoSource(t)))) ||
     (a == "src" && c == Video && (Extract.IsVideoSource(t) || t.name in {"video", "track"})) ||
     (a == "src" && c == Js && t.name == "script") ||
     (a == "href" && c == Css && Extract.IsStylesheetLink(t)) ||
     (a == "href" && c == Other && Extract.IsIconLink(t)) ||
     (a == "src" && c == Other && t.name == "iframe"))
  }

  /** A `<source>` is looked up twice, first among the images and then among
      the videos; the second lookup must not hit a path the first produced
      (for a picture source) or the first must not hit at all (for a video
      source). */
  predicate NoCrossHit(t: Tag, resolve: Url -> Url, mapping: Mapping)
    requires Total(mapping)
  {
    t.name == "source" && "src" in t.attrs ==>
      if Extract.IsVideoSource(t) then Lookup(mapping[Img], resolve(t.attrs["src"])).None?
      else Lookup(mapping[Video], resolve(Localized(mapping[Img], resolve, t.attrs["src"]))).None?
  }

  lemma ImageAgreement(v: Version, t: Tag, a: string, c: Category, resolve: Url -> Url, mapping: Mapping)
    requires Total(mapping) && Carries(t, a, c) && t.name == "img"
    ensures var r := RewriteTag(v, t, resolve, mapping);
      a in r.attrs && r.attrs[a] == Localized(mapping[c], resolve, t.attrs[a])
  {
    assert a == "src" && c == Img;
  }

  lemma SourceAgreement(v: Version, t: Tag, a: string, c: Category, resolve: Url -> Url, mapping: Mapping)
    requires Total(mapping) && Carries(t, a, c) && t.name == "source" && NoCrossHit(t, resolve, mapping)
    ensures var r := RewriteTag(v, t, resolve, mapping);
      a in r.attrs && r.attrs[a] == Localized(mapping[c], resolve, t.attrs[a])
  {
    assert a == "src";
    if Extract.IsVideoSource(t) {
      VideoSourceAgreement(v, t, resolve, mapping);
    } else {
      PictureSourceAgreement(v, t, resolve, mapping);
    }
  }

  lemma PictureSourceAgreement(v: Version, t: Tag, resolve: Url -> Url, mapping: Mapping)
    requires Total(mapping) && t.name == "source" && !Extract.IsVideoSource(t) && HasValue(t, "src")
    requires NoCrossHit(t, resolve, mapping)
    ensures var r := RewriteTag(v, t, resolve, mapping);
      "src" in r.attrs && r.attrs["src"] == Localized(mapping[Img], resolve, t.attrs["src"])
  {
    var t1 := Apply(v, Images, t, resolve, mapping);
    assert t1.attrs["src"] == Localized(mapping[Img], resolve, t.attrs["src"]);
  }

  lemma VideoSourceAgreement(v: Version, t: Tag, resolve: Url -> Url, mapping: Mapping)
    requires Total(mapping) && Extract.IsVideoSource(t) && HasValue(t, "src")
    requires NoCrossHit(t, resolve, mapping)
    ensures var r := RewriteTag(v, t, resolve, mapping);
      "src" in r.attrs && r.attrs["src"] == Localized(mapping[Video], resolve, t.attrs["src"])
  {
    var t1 := Apply(v, Images, t, resolve, mapping);
    assert t1.attrs["src"] == t.attrs["src"];
  }

  lemma SingleStepAgreement(v: Version, t: Tag, a: string, c: Category, resolve: Url -> Url, mapping: Mapping)
    requires Total(mapping) && Carries(t, a, c) && t.name in {"script", "link", "video", "track", "iframe"}
    ensures var r := RewriteTag(v, t, resolve, mapping);
      a in r.attrs && r.attrs[a] == Localized(mapping[TableOf(v, t, a, c)], resolve, t.attrs[a])
  {
  }

  lemma CarriedIsCollected(t: Tag, a: string, c: Category, resolve: Url -> Url)
    requires Carries(t, a, c)
    ensures resolve(t.attrs[a]) in Extract.TagAssets(t, resolve)[c]
  {
    var u := resolve(t.attrs[a]);
    match c
    case Img => Extract.ContributionCollected(t, Extract.Pictures, resolve, u);
    case Js => Extract.ContributionCollected(t, Extract.Scripts, resolve, u);
    case Css => Extract.ContributionCollected(t, Extract.Styles, resolve, u);
    case Video =>
      if Extract.IsVideoSource(t) {
        Extract.ContributionCollected(t, Extract.SourceVideos, resolve, u);
      } else {
        Extract.ContributionCollected(t, Extract.Media, resolve, u);
      }
    case Fonts =>
    case Other =>
      if a == "src" {
        Extract.ContributionCollected(t, Extract.Frames, resolve, u);
      } else {
        Extract.ContributionCollected(t, Extract.Icons, resolve, u);
      }
  }

  /** A link the extractor files as a stylesheet although it has no
      `stylesheet` token: `<link rel="preload" as="style">`. */
  predicate IsStylePreload(t: Tag) {
    Extract.IsStylesheetLink(t) && !HasStylesheetRel(t)
  }

  /** The table the rewriter consults for attribute `a` of `t`, collected in
      category `c`: that category, except that the link pass as written
      looks a style preload up among the other assets. */
  function TableOf(v: Version, t: Tag, a: string, c: Category): Category {
    if v == AsWritten && a == "href" && IsStylePreload(t) then Other else c
  }

  /** Every reference the extractor collects is the one the rewriter looks up,
      in the category it was collected in (but for a style preload under the
      link pass as written), and it is replaced by the recorded local path
      when there is one and kept as the remote reference otherwise. */
  lemma Agreement(v: Version, t: Tag, a: string, c: Category, resolve: Url -> Url, mapping: Mapping)
    requires Total(mapping) && Carries(t, a, c) && NoCrossHit(t, resolve, mapping)
    ensures resolve(t.attrs[a]) in Extract.TagAssets(t, resolve)[c]
    ensures var r := RewriteTag(v, t, resolve, mapping);
      a in r.attrs && r.attrs[a] == Localized(mapping[TableOf(v, t, a, c)], resolve, t.attrs[a])
  {
    CarriedIsCollected(t, a, c, resolve);
    if t.name == "img" {
      ImageAgreement(v, t, a, c, resolve, mapping);
    } else if t.name == "source" {
      SourceAgreement(v, t, a, c, resolve, mapping);
    } else {
      SingleStepAgreement(v, t, a, c, resolve, mapping);
    }
  }

  /** With nothing downloaded every reference stays remote. */
  lemma NothingMapped(v: Version, t: Tag, a: string, c: Category, resolve: Url -> Url)
    requires Carries(t, a, c)
    ensures var r := RewriteTag(v, t, resolve, EmptyMapping());
      a in r.attrs && r.attrs[a] == t.attrs[a]
  {
    Agreement(v, t, a, c, resolve, EmptyMapping());
  }

  /** As written, a style preload keeps its remote `href` unless the same URL
      also happens to have been saved among the other assets. */
  lemma StylePreloadStaysRemote(t: Tag, resolve: Url -> Url, mapping: Mapping)
    requires Total(mapping) && IsStylePreload(t)
    requires Lookup(mapping[Other], resolve(t.attrs["href"])).None?
    ensures var r := RewriteTag(AsWritten, t, resolve, mapping);
      "href" in r.attrs && r.attrs["href"] == t.attrs["href"]
  {
    Agreement(AsWritten, t, "href", Css, resolve, mapping);
  }

  /** The two link passes differ on style preloads only. */
  lemma VersionsAgree(t: Tag, resolve: Url -> Url, mapping: Mapping)
    requires Total(mapping) && !IsStylePreload(t)
    ensures RewriteTag(AsWritten, t, resolve, mapping) == RewriteTag(Corrected, t, resolve, mapping)
  {
    var t2 := Apply(Corrected, Scripts, Apply(Corrected, Images, t, resolve, mapping), resolve, mapping);
    assert t2 == Apply(AsWritten, Scripts, Apply(AsWritten, Images, t, resolve, mapping), resolve, mapping);
    if t.name == "link" {
      assert t2 == t;
      assert Apply(AsWritten, Links, t2, resolve, mapping) == Apply(Corrected, Links, t2, resolve, mapping);
    }
  }

  /** On an `<img>` or `<source>` whose `srcset` has candidates, the
      rewritten element carries the rewritten `srcset` (whose candidates
      `SrcsetRewritten` describes); the other passes leave it alone. */
  lemma SrcsetAfterRewrite(v: Version, t: Tag, resolve: Url -> Url, mapping: Mapping)
    requires Total(mapping) && t.name in {"img", "source"} && "srcset" in t.attrs
    requires Candidates(t.attrs["srcset"]) != []
    ensures "srcset" in RewriteTag(v, t, resolve, mapping).attrs
    ensures RewriteTag(v, t, resolve, mapping).attrs["srcset"] ==
      RewriteSrcset(t.attrs["srcset"], resolve, mapping[Img]).value
  {
    var t1 := Apply(v, Images, t, resolve, mapping);
    ImageStepSrcset(t, resolve, mapping[Img]);
    LaterStepsKeepSrcset(v, t1, resolve, mapping);
  }

  lemma LaterStepsKeepSrcset(v: Version, t1: Tag, resolve: Url -> Url, mapping: Mapping)
    requires Total(mapping) && t1.name in {"img", "source"} && "srcset" in t1.attrs
    ensures "srcset" in LaterSteps(v, t1, resolve, mapping).attrs
    ensures LaterSteps(v, t1, resolve, mapping).attrs["srcset"] == t1.attrs["srcset"]
  {
    var t2 := Apply(v, Scripts, t1, resolve, mapping);
    ApplyKeepsSrcset(v, Scripts, t1, resolve, mapping);
    var t3 := Apply(v, Links, t2, resolve, mapping);
    ApplyKeepsSrcset(v, Links, t2, resolve, mapping);
    var t4 := Apply(v, Videos, t3, resolve, mapping);
    ApplyKeepsSrcset(v, Videos, t3, resolve, mapping);
    ApplyKeepsSrcset(v, Frames, t4, resolve, mapping);
  }

  // ------------------------------------------- style preloads (see README)

  /** As written, the link pass looks a style preload up among the other
      assets, although the extractor filed it, and the downloader recorded
      it, as a stylesheet: the page keeps the remote reference. */
  lemma StylePreloadMissedAsWritten()
    ensures var t := PreloadTag();
      var resolve := ExampleResolve();
      var m := PreloadMapping();
      Total(m) &&
      Extract.TagAssets(t, resolve)[Css] == {"https://e.com/a.css"} &&
      LinkStepAsWritten(t, resolve, m).attrs["href"] == "https://e.com/a.css" &&
      LinkStep(t, resolve, m).attrs["href"] == "css/a.css"
  {
    PreloadFiledAsStylesheet();
    PreloadLinkSteps();
  }

  /** `<link rel="preload" as="style" href="https://e.com/a.css">`. */
  function PreloadTag(): Tag {
    Tag("link", "head", map["href" := "https://e.com/a.css", "as" := "style"], ["preload"])
  }

  /** `urljoin` of an absolute `href`: the `href` itself. */
  function ExampleResolve(): Url -> Url {
    (u: Url) => u
  }

  /** The downloader's record after saving that stylesheet. */
  function PreloadMapping(): (m: Mapping)
    ensures Total(m)
  {
    TotalBySix(EmptyMapping()[Css := map["https://e.com/a.css" := "css/a.css"]]);
    EmptyMapping()[Css := map["https://e.com/a.css" := "css/a.css"]]
  }

  lemma PreloadFiledAsStylesheet()
    ensures Extract.IsStylesheetLink(PreloadTag()) && !HasStylesheetRel(PreloadTag())
    ensures Extract.TagAssets(PreloadTag(), ExampleResolve())[Css] == {"https://e.com/a.css"}
  {
    PreloadIsStyle();
    Extract.LinkCategories(PreloadTag(), ExampleResolve());
  }

  lemma PreloadIsStyle()
    ensures Extract.IsStylesheetLink(PreloadTag()) && !HasStylesheetRel(PreloadTag())
  {
    PreloadRels();
    PreloadAs();
  }

  lemma PreloadRels()
    ensures LowerAll(PreloadTag().rel) == ["preload"]
  {
    assert Lower("preload") == "preload";
  }

  lemma PreloadAs()
    ensures Lower(AttrOr(PreloadTag(), "as")) == "style"
  {
    assert AttrOr(PreloadTag(), "as") == "style";
    assert Lower("style") == "style";
  }

  lemma PreloadLinkSteps()
    requires Extract.IsStylesheetLink(PreloadTag()) && !HasStylesheetRel(PreloadTag())
    ensures LinkStepAsWritten(PreloadTag(), ExampleResolve(), PreloadMapping()).attrs["href"] == "https://e.com/a.css"
    ensures LinkStep(PreloadTag(), ExampleResolve(), PreloadMapping()).attrs["href"] == "css/a.css"
  {
    var m := PreloadMapping();
    assert Lookup(m[Other], ExampleResolve()("https://e.com/a.css")).None?;
    assert Lookup(m[Css], ExampleResolve()("https://e.com/a.css")) == Some("css/a.css");
  }

  /** The link pass as corrected: a link's `href` is looked up in exactly the
      category the extractor filed it under. */
  lemma LinkAgreement(t: Tag, c: Category, resolve: Url -> Url, mapping: Mapping)
    requires Total(mapping) && t.name == "link" && Carries(t, "href", c)
    ensures resolve(t.attrs["href"]) in Extract.TagAssets(t, resolve)[c]
    ensures LinkStep(t, resolve, mapping).attrs["href"] == Localized(mapping[c], resolve, t.attrs["href"])
  {
    CarriedIsCollected(t, "href", c, resolve);
    Extract.StylesheetIsNotIcon(t);
  }
}
