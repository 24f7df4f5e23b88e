/** The asset taxonomy of `app/core/downloader.py`: the six categories, their
    output folders, and the per-category URL sets and URL-to-path mappings
    that flow between the extractor, the scheduler and the rewriter. */
module Assets {

  /** The keys of `ASSET_FOLDERS`: "img", "js", "css", "video", "fonts", "other". */
  datatype Category = Img | Js | Css | Video | Fonts | Other

  /** The categories in the order the folder table declares them, which is
      the order every per-category dictionary is built and iterated in. */
  const Categories: seq<Category> := [Img, Js, Css, Video, Fonts, Other]

  /** The sub-folder of the output directory a category is stored in. */
  function Folder(c: Category): (f: string)
    ensures f != [] && '/' !in f
  {
    match c
    case Img => "img"
    case Js => "js"
    case Css => "css"
    case Video => "video"
    case Fonts => "fonts"
    case Other => "other"
  }

  lemma FolderInjective(a: Category, b: Category)
    requires Folder(a) == Folder(b)
    ensures a == b
  {
  }

  /** A URL is a string; every URL the engine stores has been joined against
      a base first. */
  type Url = string

  /** Absolute URLs by category (`Dict[str, Set[str]]`). */
  type AssetSet = map<Category, set<Url>>

  /** URL to output path, by category (`Dict[str, Dict[str, str]]`). */
  type Mapping = map<Category, map<Url, string>>

  /** The dictionary has an entry for every category. */
  predicate Total<T>(m: map<Category, T>) {
    forall c: Category :: c in m
  }

  /** Six keys are all it takes. */
  lemma TotalBySix<T>(m: map<Category, T>)
    requires Img in m && Js in m && Css in m && Video in m && Fonts in m && Other in m
    ensures Total(m)
  {
    forall c: Category ensures c in m {
      match c
      case Img =>
      case Js =>
      case Css =>
      case Video =>
      case Fonts =>
      case Other =>
    }
  }

  /** An asset set with every category empty. */
  function EmptyAssets(): (a: AssetSet)
    ensures Total(a) && forall c | c in a :: a[c] == {}
  {
    var a: AssetSet := map[Img := {}, Js := {}, Css := {}, Video := {}, Fonts := {}, Other := {}];
    TotalBySix(a);
    a
  }

  /** A mapping with every category empty. */
  function EmptyMapping(): (m: Mapping)
    ensures Total(m) && forall c | c in m :: m[c] == map[]
  {
    var m: Mapping := map[Img := map[], Js := map[], Css := map[], Video := map[], Fonts := map[], Other := map[]];
    TotalBySix(m);
    m
  }

  /** `sum(len(urls) for urls in assets.values())`. */
  function TotalSize(a: AssetSet): nat
    requires Total(a)
  {
    |a[Img]| + |a[Js]| + |a[Css]| + |a[Video]| + |a[Fonts]| + |a[Other]|
  }
}
