/** `process_css_files`: each downloaded stylesheet is read back, its
    references are collected (every `@import` and every `url(...)` in a
    property value, naively), the non-`data:` references are downloaded
    under `img/` or `fonts/`, and each one that was saved is replaced in the
    stylesheet text by its local path, which is then written back. The CSS
    parser, text decoding and encoding, and `urljoin` are inputs; the
    download of a reference is the same stream copy as a page asset. */
module Stylesheets {
  import opened Text
  import opened Assets
  import Utils
  import Filenames
  import opened Transfer

  /** A top-level rule as the CSS parser reports it: an `@import` with its
      href (`""` when it has none), a style rule with its property values,
      or anything else. */
  datatype Rule = Import(href: string) | Style(values: seq<string>) | OtherRule

  const Quotes: set<char> := {'"', '\''}

  // -------------------------------------------------------------- collection

  /** The reference in one piece after a `url(`: the text before its first
      `)` with quotes stripped, when it has a `)`. */
  function PieceRef(part: string): seq<string> {
    var end := Find(part, ')');
    if end == -1 then [] else [StripChars(part[..end], Quotes)]
  }

  function PieceRefs(parts: seq<string>): seq<string> {
    if parts == [] then [] else PieceRefs(parts[..|parts| - 1]) + PieceRef(parts[|parts| - 1])
  }

  /** The references in one property value. */
  function ValueRefs(v: string): seq<string> {
    if Contains(v, "url(") then PieceRefs(Split(v, "url(")[1..]) else []
  }

  function ValuesRefs(vs: seq<string>): seq<string> {
    if vs == [] then [] else ValuesRefs(vs[..|vs| - 1]) + ValueRefs(vs[|vs| - 1])
  }

  function RuleRefs(rule: Rule): seq<string> {
    match rule
    case Import(h) => if h != "" then [h] else []
    case Style(vs) => ValuesRefs(vs)
    case OtherRule => []
  }

  /** The references of a sheet, rule by rule. */
  function SheetRefs(sheet: seq<Rule>): seq<string> {
    if sheet == [] then [] else SheetRefs(sheet[..|sheet| - 1]) + RuleRefs(sheet[|sheet| - 1])
  }

  /** `refs[:limit_refs]`. */
  function Limit(refs: seq<string>, limit: Option<nat>): (r: seq<string>)
    ensures limit.None? ==> r == refs
    ensures limit.Some? ==> |r| == Min(limit.value, |refs|)
    ensures r == refs[..|r|]
  {
    if limit.None? then refs else refs[..Min(limit.value, |refs|)]
  }

  function Min(a: nat, b: nat): nat { if a <= b then a else b }

  // ---------------------------------------------------------------- counting

  /** The pieces that contain a `)`, the first one included. */
  function ClosedPieces(parts: seq<string>): nat {
    if parts == [] then 0 else ClosedPieces(parts[..|parts| - 1]) + (if ')' in parts[|parts| - 1] then 1 else 0)
  }

  function ValueCount(v: string): nat {
    if Contains(v, "url(") then ClosedPieces(Split(v, "url(")) else 0
  }

  function ValuesCount(vs: seq<string>): nat {
    if vs == [] then 0 else ValuesCount(vs[..|vs| - 1]) + ValueCount(vs[|vs| - 1])
  }

  /** An `@import` counts even without an href. */
  function RuleCount(rule: Rule): nat {
    match rule
    case Import(_) => 1
    case Style(vs) => ValuesCount(vs)
    case OtherRule => 0
  }

  function SheetCount(sheet: seq<Rule>): nat {
    if sheet == [] then 0 else SheetCount(sheet[..|sheet| - 1]) + RuleCount(sheet[|sheet| - 1])
  }

  /** `min(count_in_css, limit_refs)` when there is a limit. */
  function Cap(n: nat, limit: Option<nat>): nat {
    if limit.None? then n else Min(n, limit.value)
  }

  /** The "Collect refs" loops followed by the truncation. */
  method CollectRefs(sheet: seq<Rule>, limit: Option<nat>) returns (refs: seq<string>)
    ensures refs == Limit(SheetRefs(sheet), limit)
  {
    refs := [];
    for i := 0 to |sheet|
      invariant refs == SheetRefs(sheet[..i])
    {
      assert sheet[..i + 1][..i] == sheet[..i];
      match sheet[i]
      case Import(h) =>
        if h != "" {
          refs := refs + [h];
        }
      case Style(vs) =>
        ghost var before := refs;
        for j := 0 to |vs|
          invariant refs == before + ValuesRefs(vs[..j])
        {
          assert vs[..j + 1][..j] == vs[..j];
          Associative(before, ValuesRefs(vs[..j]), ValueRefs(vs[j]));
          refs := refs + ValueRefs(vs[j]);
        }
        assert vs[..|vs|] == vs;
      case OtherRule =>
    }
    assert sheet[..|sheet|] == sheet;
    if limit.Some? {
      refs := refs[..Min(limit.value, |refs|)];
    }
  }

  /** The "Count refs in this CSS" loops. */
  method CountRefs(sheet: seq<Rule>) returns (n: nat)
    ensures n == SheetCount(sheet)
  {
    n := 0;
    for i := 0 to |sheet|
      invariant n == SheetCount(sheet[..i])
    {
      assert sheet[..i + 1][..i] == sheet[..i];
      match sheet[i]
      case Import(_) =>
        n := n + 1;
      case Style(vs) =>
        ghost var before := n;
        for j := 0 to |vs|
          invariant n == before + ValuesCount(vs[..j])
        {
          assert vs[..j + 1][..j] == vs[..j];
          n := n + ValueCount(vs[j]);
        }
        assert vs[..|vs|] == vs;
      case OtherRule =>
    }
    assert sheet[..|sheet|] == sheet;
  }

  // ----------------------------------------------------------- one reference

  /** The font policy: a font is saved under `fonts/` only when the reference
      was relative, and is not saved at all otherwise; anything else is
      saved under `img/`. */
  function Target(abs: Url, ref: string, contentType: Option<string>, name: Namer): Option<string> {
    if Filenames.IsFontUrl(abs) then
      if Utils.IsRelativeUrl(ref) then Some(Folder(Fonts) + "/" + name(abs, contentType)) else None
    else Some(Folder(Img) + "/" + name(abs, contentType))
  }

  /** The files and callback events `download_ref` acts on. */
  datatype World = World(files: map<string, seq<Byte>>, events: seq<AssetEvent>)

  /** `download_ref(ref)` once joined to `abs`: the new world and the local
      path when the reference was saved. */
  function Download(w: World, abs: Url, ref: string, f: Fetch, name: Namer): (World, Option<string>) {
    if f.cancelledBefore then (w, None)
    else
      match f.response
      case Unreachable => (World(w.files, w.events + [Error(Css, abs, None)]), None)
      case HttpError(_) => (World(w.files, w.events + [Error(Css, abs, None)]), None)
      case Body(ct, len, cs, breaks) =>
        var started := w.events + [Start(Css, abs, len)];
        match Target(abs, ref, ct, name)
        case None => (World(w.files, started), None)
        case Some(path) =>
          var files := Stored(w.files, path, cs);
          var events := started + ProgressOf(Css, abs, cs[..CancelPoint(cs)], len);
          if CancelPoint(cs) < |cs| then (World(files, events + [Cancelled(Css, abs)]), None)
          else if breaks then (World(files, events + [Error(Css, abs, None)]), None)
          else (World(files, events + [Done(Css, abs, path)]), Some(path))
  }

  method DownloadRef(files0: map<string, seq<Byte>>, events0: seq<AssetEvent>, abs: Url, ref: string, f: Fetch, name: Namer)
    returns (files: map<string, seq<Byte>>, events: seq<AssetEvent>, rel: Option<string>)
    ensures (World(files, events), rel) == Download(World(files0, events0), abs, ref, f, name)
  {
    files, events, rel := files0, events0, None;
    if !f.cancelledBefore {
      match f.response
      case Unreachable =>
        events := events + [Error(Css, abs, None)];
      case HttpError(_) =>
        events := events + [Error(Css, abs, None)];
      case Body(ct, len, cs, breaks) =>
        events := events + [Start(Css, abs, len)];
        var target := Target(abs, ref, ct, name);
        if target.Some? {
          files, events := Copy(files, events, Css, abs, target.value, cs, len);
          if CancelPoint(cs) < |cs| {
            events := events + [Cancelled(Css, abs)];
          } else if breaks {
            events := events + [Error(Css, abs, None)];
          } else {
            events := events + [Done(Css, abs, target.value)];
            rel := target;
          }
        }
    }
  }

  // ------------------------------------------------------- the loop over refs

  /** The state of the pass: the current stylesheet text, the world, the
      progress reports and `completed_refs`. */
  datatype Pass = Pass(text: string, world: World, progress: seq<ProgressEvent>, done: nat)

  /** The inputs the pass does not compute: `urljoin`, `normalize_filename`,
      the CSS parser, and the text decoding and encoding of a file. */
  datatype Services = Services(join: (Url, string) -> Url, name: Namer, parse: string -> seq<Rule>,
                               decode: seq<Byte> -> string, encode: string -> seq<Byte>)

  /** A reference that is downloaded and then replaced on success. */
  function Fetched(s: Pass, cssUrl: Url, ref: string, total: nat, fetch: Url -> Fetch, sv: Services): Pass {
    var abs := sv.join(cssUrl, ref);
    var (w, rel) := Download(s.world, abs, ref, fetch(abs), sv.name);
    var text := if rel.Some? then Replace(s.text, ref, rel.value) else s.text;
    var done := s.done + 1;
    Pass(text, w, s.progress + (if total > 0 then [ProgressEvent(done, total, "css-assets")] else []), done)
  }

  /** Which loop over refs is run: the one the source writes, or the
      corrected one that also passes over the empty reference (see README,
      Findings). */
  datatype Version = AsWritten | Corrected

  /** The references the loop passes over: `data:` URIs, and, once
      corrected, the empty reference, which the loop as written downloads
      and replaces. */
  predicate Passed(v: Version, ref: string) {
    (v == Corrected && ref == "") || StartsWith(ref, "data:")
  }

  /** One reference of the loop over refs. */
  function AfterRef(v: Version, s: Pass, cssUrl: Url, ref: string, total: nat, fetch: Url -> Fetch, sv: Services): Pass {
    if Passed(v, ref) then s else Fetched(s, cssUrl, ref, total, fetch, sv)
  }

  function AfterRefs(v: Version, s: Pass, cssUrl: Url, refs: seq<string>, total: nat, fetch: Url -> Fetch, sv: Services): Pass {
    if refs == [] then s
    else AfterRef(v, AfterRefs(v, s, cssUrl, refs[..|refs| - 1], total, fetch, sv), cssUrl, refs[|refs| - 1], total, fetch, sv)
  }

  /** The loop over the references of one stylesheet. */
  method ProcessRefs(v: Version, s: Pass, cssUrl: Url, refs: seq<string>, total: nat, fetch: Url -> Fetch, sv: Services)
    returns (r: Pass)
    ensures r == AfterRefs(v, s, cssUrl, refs, total, fetch, sv)
  {
    r := s;
    for i := 0 to |refs|
      invariant r == AfterRefs(v, s, cssUrl, refs[..i], total, fetch, sv)
    {
      assert refs[..i + 1][..i] == refs[..i];
      r := ProcessRef(v, r, cssUrl, refs[i], total, fetch, sv);
    }
    assert refs[..|refs|] == refs;
  }

  lemma FetchedIs(s: Pass, cssUrl: Url, ref: string, total: nat, fetch: Url -> Fetch, sv: Services,
                  files: map<string, seq<Byte>>, events: seq<AssetEvent>, rel: Option<string>)
    requires Download(s.world, sv.join(cssUrl, ref), ref, fetch(sv.join(cssUrl, ref)), sv.name) == (World(files, events), rel)
    ensures Fetched(s, cssUrl, ref, total, fetch, sv) ==
      Pass(if rel.Some? then Replace(s.text, ref, rel.value) else s.text, World(files, events),
           s.progress + (if total > 0 then [ProgressEvent(s.done + 1, total, "css-assets")] else []), s.done + 1)
  {
  }

  lemma FetchedText(s: Pass, cssUrl: Url, ref: string, total: nat, fetch: Url -> Fetch, sv: Services)
    ensures var rel := Download(s.world, sv.join(cssUrl, ref), ref, fetch(sv.join(cssUrl, ref)), sv.name).1;
      Fetched(s, cssUrl, ref, total, fetch, sv).text == if rel.Some? then Replace(s.text, ref, rel.value) else s.text
  {
  }

  /** One turn of the loop: skip a passed reference, else download it,
      replace it on success, and count and report it. */
  method ProcessRef(v: Version, s: Pass, cssUrl: Url, ref: string, total: nat, fetch: Url -> Fetch, sv: Services)
    returns (r: Pass)
    ensures r == AfterRef(v, s, cssUrl, ref, total, fetch, sv)
  {
    if Passed(v, ref) {
      return s;
    }
    var abs := sv.join(cssUrl, ref);
    var files, events, rel := DownloadRef(s.world.files, s.world.events, abs, ref, fetch(abs), sv.name);
    assert s.world == World(s.world.files, s.world.events);
    assert Download(s.world, abs, ref, fetch(abs), sv.name) == (World(files, events), rel);
    var text := if rel.Some? then Replace(s.text, ref, rel.value) else s.text;
    FetchedIs(s, cssUrl, ref, total, fetch, sv, files, events, rel);
    var done := s.done + 1;
    var progress := s.progress + (if total > 0 then [ProgressEvent(done, total, "css-assets")] else []);
    r := Pass(text, World(files, events), progress, done);
  }

  // ------------------------------------------------------ the loop over sheets

  /** An entry of the stylesheet mapping, in its iteration order, with what
      `cancel_cb()` answers before it is processed. */
  datatype Item = Item(url: Url, rel: string, cancelBefore: bool)

  /** The items processed before the loop is cancelled. */
  function StopPoint(items: seq<Item>): (k: nat)
    ensures k <= |items|
    ensures forall j :: 0 <= j < k ==> !items[j].cancelBefore
    ensures k < |items| ==> items[k].cancelBefore
  {
    if items == [] then 0 else if items[0].cancelBefore then 0 else 1 + StopPoint(items[1..])
  }

  /** One stylesheet: read it (an unreadable one is skipped), collect and
      process its references, write the new text back. */
  function AfterSheet(v: Version, s: Pass, item: Item, limit: Option<nat>, total: nat, fetch: Url -> Fetch, sv: Services): Pass {
    if item.rel !in s.world.files then s
    else
      var text := sv.decode(s.world.files[item.rel]);
      var refs := Limit(SheetRefs(sv.parse(text)), limit);
      var r := AfterRefs(v, s.(text := text), item.url, refs, total, fetch, sv);
      r.(world := r.world.(files := r.world.files[item.rel := sv.encode(r.text)]))
  }

  function AfterSheets(v: Version, s: Pass, items: seq<Item>, limit: Option<nat>, total: nat, fetch: Url -> Fetch, sv: Services): Pass {
    if items == [] then s
    else AfterSheet(v, AfterSheets(v, s, items[..|items| - 1], limit, total, fetch, sv), items[|items| - 1], limit, total, fetch, sv)
  }

  /** The first pass: the references of every readable stylesheet, each
      count capped at the limit. */
  function PreCount(files: map<string, seq<Byte>>, items: seq<Item>, limit: Option<nat>, sv: Services): nat {
    if items == [] then 0
    else
      var item := items[|items| - 1];
      PreCount(files, items[..|items| - 1], limit, sv) +
      (if item.rel in files then Cap(SheetCount(sv.parse(sv.decode(files[item.rel]))), limit) else 0)
  }

  method TotalRefs(files: map<string, seq<Byte>>, items: seq<Item>, limit: Option<nat>, sv: Services)
    returns (total: nat)
    ensures total == PreCount(files, items, limit, sv)
  {
    total := 0;
    for i := 0 to |items|
      invariant total == PreCount(files, items[..i], limit, sv)
    {
      assert items[..i + 1][..i] == items[..i];
      var rel := items[i].rel;
      if rel in files {
        var n := CountRefs(sv.parse(sv.decode(files[rel])));
        total := total + Cap(n, limit);
      }
    }
    assert items[..|items| - 0] == items;
  }

  /** The pass before any stylesheet: `(0, total)` is announced when there
      is any reference. */
  function Initial(files: map<string, seq<Byte>>, events: seq<AssetEvent>, total: nat): Pass {
    Pass("", World(files, events), if total > 0 then [ProgressEvent(0, total, "css-assets")] else [], 0)
  }

  /** `process_css_files(css_map, ...)`: the files written, the events sent
      to `asset_cb` and the reports sent to `progress_cb`. */
  method ProcessCssFiles(v: Version, files0: map<string, seq<Byte>>, items: seq<Item>, limit: Option<nat>,
                         fetch: Url -> Fetch, sv: Services)
    returns (files: map<string, seq<Byte>>, events: seq<AssetEvent>, progress: seq<ProgressEvent>)
    ensures var total := PreCount(files0, items, limit, sv);
      var s := AfterSheets(v, Initial(files0, [], total), items[..StopPoint(items)], limit, total, fetch, sv);
      files == s.world.files && events == s.world.events && progress == s.progress
  {
    var total := TotalRefs(files0, items, limit, sv);
    var s := Initial(files0, [], total);
    var i := 0;
    while i < |items| && !items[i].cancelBefore
      invariant 0 <= i <= StopPoint(items)
      invariant s == AfterSheets(v, Initial(files0, [], total), items[..i], limit, total, fetch, sv)
    {
      assert items[..i + 1][..i] == items[..i];
      s := ProcessSheet(v, s, items[i], limit, total, fetch, sv);
      i := i + 1;
    }
    assert i == StopPoint(items);
    files, events, progress := s.world.files, s.world.events, s.progress;
  }

  /** One stylesheet of the loop over `css_map`. */
  method ProcessSheet(v: Version, s: Pass, item: Item, limit: Option<nat>, total: nat, fetch: Url -> Fetch, sv: Services)
    returns (r: Pass)
    ensures r == AfterSheet(v, s, item, limit, total, fetch, sv)
  {
    r := s;
    if item.rel in s.world.files {
      var text := sv.decode(s.world.files[item.rel]);
      var refs := CollectRefs(sv.parse(text), limit);
      r := ProcessRefs(v, s.(text := text), item.url, refs, total, fetch, sv);
      r := r.(world := r.world.(files := r.world.files[item.rel := sv.encode(r.text)]));
    }
  }

  // ---------------------------------------------------------------- lemmas

  lemma {:induction false} ClosedPiecesAppend(a: seq<string>, b: seq<string>)
    ensures ClosedPieces(a + b) == ClosedPieces(a) + ClosedPieces(b)
    decreases |b|
  {
    if b == [] {
      assert a + b == a;
    } else {
      ClosedPiecesAppend(a, b[..|b| - 1]);
      assert (a + b)[..|a + b| - 1] == a + b[..|b| - 1];
    }
  }

  /** Every piece with a `)` yields exactly one reference. */
  lemma {:induction false} PieceRefsCount(parts: seq<string>)
    ensures |PieceRefs(parts)| == ClosedPieces(parts)
  {
    if parts != [] {
      PieceRefsCount(parts[..|parts| - 1]);
    }
  }

  /** The count of a value is its references plus one when the text before
      the first `url(` already holds a `)`. */
  lemma ValueCountExact(v: string)
    ensures ValueCount(v) == |ValueRefs(v)| +
      (if Contains(v, "url(") && ')' in Split(v, "url(")[0] then 1 else 0)
  {
    if Contains(v, "url(") {
      var parts := Split(v, "url(");
      PieceRefsCount(parts[1..]);
      ClosedPiecesAppend([parts[0]], parts[1..]);
      assert [parts[0]] + parts[1..] == parts;
      assert ClosedPieces([parts[0]]) == ClosedPieces([]) + (if ')' in parts[0] then 1 else 0);
    }
  }

  lemma {:induction false} ValuesCover(vs: seq<string>)
    ensures |ValuesRefs(vs)| <= ValuesCount(vs)
  {
    if vs != [] {
      ValuesCover(vs[..|vs| - 1]);
      ValueCountExact(vs[|vs| - 1]);
    }
  }

  /** The first pass never counts fewer references than the second collects
      from the same sheet. */
  lemma {:induction false} CountCoversRefs(sheet: seq<Rule>)
    ensures |SheetRefs(sheet)| <= SheetCount(sheet)
  {
    if sheet != [] {
      CountCoversRefs(sheet[..|sheet| - 1]);
      match sheet[|sheet| - 1]
      case Style(vs) => ValuesCover(vs);
      case Import(_) =>
      case OtherRule =>
    }
  }

  /** ... and the same holds after both are capped at the limit. */
  lemma CappedCountCovers(sheet: seq<Rule>, limit: Option<nat>)
    ensures |Limit(SheetRefs(sheet), limit)| <= Cap(SheetCount(sheet), limit)
  {
    CountCoversRefs(sheet);
  }

  /** A reference taken from a `url(...)`: no `)` in it, and no quote at
      either end. */
  predicate Clean(r: string) {
    ')' !in r && (r != [] ==> r[0] !in Quotes && r[|r| - 1] !in Quotes)
  }

  lemma PieceRefClean(part: string)
    ensures forall k :: 0 <= k < |PieceRef(part)| ==> Clean(PieceRef(part)[k])
  {
    var end := Find(part, ')');
    if end != -1 {
      var body := part[..end];
      StripCharsAvoids(body, Quotes, ')');
      var l := TrimLeft(body, Quotes);
      var r := TrimRight(l, Quotes);
      assert r == StripChars(body, Quotes);
      assert r != [] ==> r[0] == l[0];
      assert PieceRef(part) == [r];
    }
  }

  lemma {:induction false} PieceRefsClean(parts: seq<string>)
    ensures forall k :: 0 <= k < |PieceRefs(parts)| ==> Clean(PieceRefs(parts)[k])
  {
    if parts != [] {
      var front := PieceRefs(parts[..|parts| - 1]);
      var last := PieceRef(parts[|parts| - 1]);
      PieceRefsClean(parts[..|parts| - 1]);
      PieceRefClean(parts[|parts| - 1]);
      assert PieceRefs(parts) == front + last;
      CleanAppend(front, last);
    }
  }

  lemma CleanAppend(a: seq<string>, b: seq<string>)
    requires forall k :: 0 <= k < |a| ==> Clean(a[k])
    requires forall k :: 0 <= k < |b| ==> Clean(b[k])
    ensures forall k :: 0 <= k < |a + b| ==> Clean((a + b)[k])
  {
    forall k | 0 <= k < |a + b| ensures Clean((a + b)[k]) {
      if k >= |a| {
        assert (a + b)[k] == b[k - |a|];
      }
    }
  }

  /** Every reference found in a property value's `url(...)` pieces is clean. */
  lemma ValueRefsClean(v: string)
    ensures forall k :: 0 <= k < |ValueRefs(v)| ==> Clean(ValueRefs(v)[k])
  {
    if Contains(v, "url(") {
      PieceRefsClean(Split(v, "url(")[1..]);
    }
  }

  /** A reference is saved only at the path its folder policy names, and the
      file there holds its body: fonts under `fonts/` and only when the
      reference was relative, anything else under `img/`. */
  lemma SavedRef(w: World, abs: Url, ref: string, f: Fetch, name: Namer)
    requires Download(w, abs, ref, f, name).1.Some?
    ensures f.response.Body? && !f.cancelledBefore
    ensures var path := Download(w, abs, ref, f, name).1.value;
      var files := Download(w, abs, ref, f, name).0.files;
      path == Folder(if Filenames.IsFontUrl(abs) then Fonts else Img) + "/" + name(abs, f.response.contentType) &&
      (Filenames.IsFontUrl(abs) ==> Utils.IsRelativeUrl(ref)) &&
      path in files && files[path] == Received(f.response.chunks)
  {
  }

  /** A font written as an absolute reference is never saved: no file
      changes and nothing is replaced. */
  lemma AbsoluteFontSkipped(w: World, abs: Url, ref: string, f: Fetch, name: Namer)
    requires Filenames.IsFontUrl(abs) && !Utils.IsRelativeUrl(ref)
    ensures Download(w, abs, ref, f, name).0.files == w.files
    ensures Download(w, abs, ref, f, name).1 == None
  {
  }

  /** The references the loop downloads. */
  function Downloaded(v: Version, refs: seq<string>): nat {
    if refs == [] then 0 else Downloaded(v, refs[..|refs| - 1]) + (if Passed(v, refs[|refs| - 1]) then 0 else 1)
  }

  /** `completed_refs` grows by one per reference the loop downloads, and
      each such reference reports the new count when there is a total. */
  lemma {:induction false} CompletedCount(v: Version, s: Pass, cssUrl: Url, refs: seq<string>, total: nat, fetch: Url -> Fetch, sv: Services)
    ensures var r := AfterRefs(v, s, cssUrl, refs, total, fetch, sv);
      r.done == s.done + Downloaded(v, refs) &&
      r.progress == s.progress + (if total > 0 then Reports(s.done, Downloaded(v, refs), total) else [])
  {
    if refs != [] {
      CompletedCount(v, s, cssUrl, refs[..|refs| - 1], total, fetch, sv);
      var ref := refs[|refs| - 1];
      var n := Downloaded(v, refs[..|refs| - 1]);
      if !Passed(v, ref) && total > 0 {
        Associative(s.progress, Reports(s.done, n, total), [ProgressEvent(s.done + n + 1, total, "css-assets")]);
      }
    }
  }

  /** `progress_cb(from + k, total, "css-assets")` for k = 1, ..., n. */
  function Reports(from: nat, n: nat, total: nat): (r: seq<ProgressEvent>)
    ensures |r| == n
    ensures forall k :: 0 <= k < n ==> r[k] == ProgressEvent(from + k + 1, total, "css-assets")
  {
    if n == 0 then [] else Reports(from, n - 1, total) + [ProgressEvent(from + n, total, "css-assets")]
  }

  /** The text changes only by replacing a downloaded reference: when none
      of them occurs in it, the stylesheet keeps its text. */
  lemma {:induction false} TextUntouched(v: Version, s: Pass, cssUrl: Url, refs: seq<string>, total: nat, fetch: Url -> Fetch, sv: Services)
    requires forall k :: 0 <= k < |refs| && !Passed(v, refs[k]) ==> !Contains(s.text, refs[k])
    ensures AfterRefs(v, s, cssUrl, refs, total, fetch, sv).text == s.text
  {
    if refs != [] {
      TextUntouched(v, s, cssUrl, refs[..|refs| - 1], total, fetch, sv);
      var ref := refs[|refs| - 1];
      if !Passed(v, ref) {
        assert OccursAt(s.text, "", 0);
        forall rep: string ensures Replace(s.text, ref, rep) == s.text {
          ReplaceAbsent(s.text, ref, rep);
        }
      }
    }
  }

  /** The two loops over refs differ on the empty reference only. */
  lemma {:induction false} VersionsAgree(s: Pass, cssUrl: Url, refs: seq<string>, total: nat, fetch: Url -> Fetch, sv: Services)
    requires forall k :: 0 <= k < |refs| ==> refs[k] != ""
    ensures AfterRefs(AsWritten, s, cssUrl, refs, total, fetch, sv) == AfterRefs(Corrected, s, cssUrl, refs, total, fetch, sv)
  {
    if refs != [] {
      VersionsAgree(s, cssUrl, refs[..|refs| - 1], total, fetch, sv);
    }
  }

  /** The number of references one stylesheet moves `completed_refs` by is
      at most its share of the first pass's total. */
  lemma SheetWithinCount(v: Version, s: Pass, item: Item, limit: Option<nat>, total: nat, fetch: Url -> Fetch, sv: Services)
    requires item.rel in s.world.files
    ensures AfterSheet(v, s, item, limit, total, fetch, sv).done <=
      s.done + Cap(SheetCount(sv.parse(sv.decode(s.world.files[item.rel]))), limit)
  {
    var text := sv.decode(s.world.files[item.rel]);
    var refs := Limit(SheetRefs(sv.parse(text)), limit);
    CompletedCount(v, s.(text := text), item.url, refs, total, fetch, sv);
    DownloadedAtMost(v, refs);
    CappedCountCovers(sv.parse(text), limit);
  }

  lemma {:induction false} DownloadedAtMost(v: Version, refs: seq<string>)
    ensures Downloaded(v, refs) <= |refs|
  {
    if refs != [] {
      DownloadedAtMost(v, refs[..|refs| - 1]);
    }
  }

  /** As written, the loop downloads an empty reference — it joins to the
      stylesheet's own URL — and `css_text.replace("", rel)` then puts the
      path around every character of the stylesheet. */
  lemma EmptyRefCorruptsSheet()
    ensures AfterRef(AsWritten, SheetA(), "s.css", "", 0, EmptyBody(), Plain()).text == "img/xaimg/x"
    ensures AfterRef(Corrected, SheetA(), "s.css", "", 0, EmptyBody(), Plain()) == SheetA()
  {
    EmptyRefReplacedAround();
    assert Passed(Corrected, "");
  }

  lemma EmptyRefReplacedAround()
    ensures AfterRef(AsWritten, SheetA(), "s.css", "", 0, EmptyBody(), Plain()).text == "img/xaimg/x"
  {
    assert !StartsWith("", "data:");
    EmptyRefSaved();
    FetchedText(SheetA(), "s.css", "", 0, EmptyBody(), Plain());
    InterleaveA();
  }

  lemma InterleaveA()
    ensures Replace("a", "", "img/x") == "img/xaimg/x"
  {
    assert Interleave("", "img/x") == "img/x";
    assert Interleave("a", "img/x") == "img/x" + "a" + "img/x";
  }

  /** Services where joining appends, every file is named `x`, and the
      parser finds nothing. */
  function Plain(): Services {
    Services((b, r) => b + r, (u, ct) => "x", t => [], b => "", t => [])
  }

  /** Every fetch answers an empty body. */
  function EmptyBody(): Url -> Fetch {
    (u: Url) => Fetch(false, Body(None, None, [], false))
  }

  /** The stylesheet text `a` before any reference is handled. */
  function SheetA(): Pass {
    Pass("a", World(map[], []), [], 0)
  }

  /** The empty reference joins to the stylesheet itself, which is saved
      under `img/`. */
  lemma EmptyRefSaved()
    ensures Download(SheetA().world, Plain().join("s.css", ""), "", EmptyBody()(Plain().join("s.css", "")), Plain().name).1 == Some("img/x")
  {
    var abs := Plain().join("s.css", "");
    assert abs == "s.css";
    var f := EmptyBody()(abs);
    assert f == Fetch(false, Body(None, None, [], false));
    assert CancelPoint([]) == 0;
    CompleteTransferSaved(SheetA().world, abs, "", f, Plain().name);
    SheetTarget();
  }

  /** A transfer that is neither cancelled nor broken off ends saved exactly
      where the font policy puts it. */
  lemma CompleteTransferSaved(w: World, abs: Url, ref: string, f: Fetch, name: Namer)
    requires !f.cancelledBefore && f.response.Body? && !f.response.breaksOff
    requires CancelPoint(f.response.chunks) == |f.response.chunks|
    ensures Download(w, abs, ref, f, name).1 == Target(abs, ref, f.response.contentType, name)
  {
  }

  lemma SheetTarget()
    ensures Target("s.css", "", None, Plain().name) == Some("img/x")
  {
    SheetIsNotFont();
    assert Plain().name("s.css", None) == "x";
    assert Folder(Img) + "/" + "x" == "img/x";
  }

  lemma SheetIsNotFont()
    ensures !Filenames.IsFontUrl("s.css")
  {
    var lower := Lower("s.css");
    assert lower[|lower| - 1] == LowerChar('s') == 's';
    forall i | 0 <= i < |Filenames.FontExtensions| ensures !EndsWith(lower, Filenames.FontExtensions[i]) {
      Filenames.LastCharDiffers(lower, Filenames.FontExtensions[i]);
    }
  }
}
