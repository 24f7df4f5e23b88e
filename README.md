# A site-mirroring engine, modelled in Dafny

This project models the engine of a small website-mirroring tool. The engine:

- collects the asset references of a page by category (images, scripts, stylesheets, video, fonts and other);
- downloads each asset into the category's folder of a fresh output directory, under a name derived from its URL;
- follows the `@import` and `url(...)` references of the downloaded stylesheets;
- rewrites the page's references to the local copies.

It also turns the product name into a directory slug, and limits a preview run to a few assets per category. The model covers `app/core/downloader.py` and `app/core/utils.py`.

One module per concern, each in its own file:

| module | file | models |
|---|---|---|
| `Text` | text.dfy | the Python `str` operations the engine uses (strip, split, join, replace, find, lower, `str(n)`) |
| `Urls` | urls.dfy | the part of `urlparse` the engine reads, and `os.path.basename` |
| `Utils` | utils.dfy | `slugify`, `ensure_unique_dir`, `safe_join`, `is_relative_url`, `guess_extension_from_mime` |
| `Assets` | assets.dfy | the six categories, `ASSET_FOLDERS`, the per-category sets and mappings |
| `Filenames` | filenames.dfy | `normalize_filename`, `is_font_url` |
| `Document` | document.dfy | the page's elements, and the `srcset` parsing shared by extraction and rewriting |
| `Extract` | extract.dfy | `collect_assets` |
| `Rewrite` | rewrite.dfy | `rewrite_html_paths`, in place on an array of elements |
| `Transfer` | transfer.dfy | `download_assets` and its worker `_dl`, as the class `Downloader` |
| `Stylesheets` | stylesheets.dfy | `process_css_files` and `download_ref` |
| `Preview` | preview.dfy | the `limit_per_type` truncation and the final counts of `download_site` |

The outside world becomes inputs:

- `urljoin(base, ·)` is a function parameter `resolve` (or `join` for the stylesheet pass).
- The first eight hex digits of SHA-1 are a parameter `digest` returning an eight-digit string.
- The HTML parser's output is a sequence (or an array) of `Tag` values: name, parent name, attributes, `rel` tokens.
- The CSS parser is `parse`, from text to a sequence of `Rule`s.
- File decoding and encoding are `decode` and `encode`.
- Every network answer is a `Fetch` value. It says whether `cancel_cb()` was true before the request, and how the server answered: no answer, an error status, or a body as a sequence of chunks. Each chunk carries the outcome of the cancellation test made before it.
- The iteration order of each Python set is an input `order`.
- `Path.resolve` is a parameter of `SafeJoin`.

Where the source has a bug (see Findings), the operation takes a `Version`. `AsWritten` computes what the code does, and `Corrected` computes the evidently intended result. This applies to the link pass of `Rewrite.RewriteHtmlPaths` and to the loop over refs of `Stylesheets.ProcessCssFiles`.

## Model

| member | source | states |
|---|---|---|
| `Utils.Slugify` | app/core/utils.py:14-23 | A slug is never empty: when nothing survives the clean-up the slug is `"site"`. |
| `Utils.SlugShape` | app/core/utils.py:19-23 | Every slug is made only of `[a-z0-9_-]`, has no `-` at either end and contains no `--`. |
| `Utils.AsciiOnly` | app/core/utils.py:19 | The ASCII step keeps only ASCII characters, and keeps every ASCII character of the input. |
| `Utils.CollapseRuns` | app/core/utils.py:20-22 | A run collapse yields only the replacement character or characters of the input outside the class. It is empty exactly when the input is. It starts with the replacement exactly when the input starts with a class character or with the replacement. |
| `Utils.KeepWordSpaceDash` | app/core/utils.py:21 | The filter keeps only word characters, whitespace and `-`, all taken from the input. |
| `Utils.CollapseNoDouble` | app/core/utils.py:22 | Collapsing runs of a class that contains `-` into `-` leaves no `--`. |
| `Utils.CollapsedIsSlug` | app/core/utils.py:21-22 | After lower-casing, filtering and collapsing, only slug characters remain. |
| `Utils.StripKeepsSlug` | app/core/utils.py:22 | Stripping the outer dashes keeps only slug characters and leaves no dash at either end. |
| `Utils.StripKeepsNoDouble` | app/core/utils.py:22 | Stripping the outer dashes never creates a `--`. |
| `Utils.SlugOf` | app/core/utils.py:22-23 | The strip-and-fallback step turns any dash-collapsed slug text into a valid slug. |
| `Utils.EnsureUniqueDir` | app/core/utils.py:26-34 | The directory returned did not exist before, and it is the only name added. It is `name` when that is free. Otherwise it is `name-k`, where `name` and every `name-j` with 2 <= j < k already exist. |
| `Utils.AttemptInjective` | app/core/utils.py:28-31 | Different counters give different candidate names, so the loop never tries a name twice. |
| `Utils.SafeJoin` | app/core/utils.py:37-42 | Definition of `safe_join` on resolved paths; see `Utils.SafeJoinInside` and `Utils.SafeJoinSiblingPasses`. |
| `Utils.SafeJoinInside` | app/core/utils.py:37-42 | Every target that resolves to the resolved base followed by any text is accepted, and the result is exactly that path. |
| `Utils.SafeJoinSiblingPasses` | app/core/utils.py:40-42 | The test compares text, not path components: `/a/bc` passes under the base `/a/b`. |
| `Utils.IsRelativeUrl` | app/core/utils.py:45-47 | A URL is relative exactly when it has no scheme and does not start with `//`. A network location without one of those cannot occur. |
| `Utils.GuessExtensionFromMime` | app/core/utils.py:50-71 | A missing or empty header, or an unknown media type, gives `""`. A known media type gives the table's extension. The result is always `""` or a table value. |
| `Utils.TableExtensionsShape` | app/core/utils.py:53-70 | Every extension in the table is a dot followed by a name with no other dot and no slash. |
| `Utils.ExtensionShape` | app/core/utils.py:50-71 | The extension used for a name is empty or of that shape. |
| `Utils.MimeParametersIgnored` | app/core/utils.py:71 | Parameters after `;` do not change the extension. |
| `Utils.MimeWhitespaceIgnored` | app/core/utils.py:71 | Whitespace around the media type does not change the extension. |
| `Text.Lower` | app/core/downloader.py:262 | Lower-casing keeps the length and maps each character to its ASCII lower case. |
| `Text.Find` | app/core/downloader.py:412 | `find` gives -1 exactly when the character is absent. Otherwise it gives the index of its first occurrence. |
| `Text.RFind` | app/core/downloader.py:59 | `rfind` gives -1 exactly when the character is absent. Otherwise it gives the index of its last occurrence. |
| `Text.JoinSplit` | app/core/downloader.py:300 | Splitting on a non-empty separator and joining again with it gives the string back, so the split loses no text. |
| `Text.StripEnds` | app/core/utils.py:71 | A strip has no stripped character at either end, and it is a substring of its input. |
| `Text.WordsJoin` | app/core/downloader.py:449-455 | `" ".join(words).split()` gives the words back. |
| `Text.ReplaceAbsent` | app/core/downloader.py:425 | Replacing a non-empty pattern that does not occur changes nothing. |
| `Text.ReplaceSame` | app/core/downloader.py:425 | Replacing a pattern by itself changes nothing. |
| `Text.Interleave` | app/core/downloader.py:425 | `replace` with an empty pattern puts the replacement around every character: the result has length n + (n + 1)·r. |
| `Text.NatToStringInjective` | app/core/utils.py:31 | Different counters print as different decimal strings. |
| `Urls.Parse` | app/core/downloader.py:48-49 | The scheme is present exactly when the URL opens with a scheme. The path contains no `?` or `#`. A network location is found only after `//` or a scheme. |
| `Urls.Basename` | app/core/downloader.py:50 | The basename contains no `/` and ends the path. It is the whole path exactly when the path has no `/`. |
| `Assets.Folder` | app/core/downloader.py:32-39 | Every category's folder is a non-empty name without `/`. |
| `Assets.FolderInjective` | app/core/downloader.py:32-39 | Different categories have different folders. |
| `Assets.EmptyAssets` | app/core/downloader.py:79 | The extractor starts with all six categories, each empty. |
| `Assets.EmptyMapping` | app/core/downloader.py:161 | The downloader starts with all six categories, each with an empty mapping. |
| `Filenames.NormalizeFilename` | app/core/downloader.py:45-61 | Definition of `normalize_filename` on the parsed URL; its properties are `Filenames.StemShape`, `Filenames.QueryDisambiguation`, `Filenames.NormalizeFilenameShape` and `Filenames.FilenameIsComponent`. |
| `Filenames.SplitLastDot` | app/core/downloader.py:59 | `rsplit(".", 1)` splits at the last dot: the name is base + `.` + extension, and the extension has no dot. |
| `Filenames.StemShape` | app/core/downloader.py:49-54 | An empty basename becomes `"file"`. The MIME extension is appended only when the name has no dot. |
| `Filenames.QueryDisambiguation` | app/core/downloader.py:56-63 | Without a query the name is unchanged. With one, the query's digest goes before the last extension (`base-h.ext`), or after a dash when there is no dot (`name-h`). |
| `Filenames.NormalizeFilenameShape` | app/core/downloader.py:47-63 | These rules hold for the name derived from a URL and its content type. A non-empty query always changes the name. |
| `Filenames.NameIsComponent` | app/core/downloader.py:47-63 | A derived name is non-empty and contains no `/`, provided the extension has none. |
| `Filenames.FilenameIsComponent` | app/core/downloader.py:47-63 | Every file name the downloader uses is one non-empty path component. |
| `Filenames.NameLength` | app/core/downloader.py:56-62 | A query adds exactly nine characters: a dash and eight hex digits. |
| `Filenames.DigestAt` | app/core/downloader.py:57-62 | The query's eight-digit digest sits at a fixed offset in the name. |
| `Filenames.QueryCollision` | app/core/downloader.py:56-62 | Two URLs with the same path and extension get the same name only when both or neither have a query. When both have one, their digests must collide. |
| `Filenames.IsFontUrl` | app/core/downloader.py:261-263 | Definition of `is_font_url`, a suffix test on the lower-cased URL; see `Filenames.FontTestIgnoresCase` and `Filenames.FontWithQueryIsNotFont`. |
| `Filenames.FontTestIgnoresCase` | app/core/downloader.py:261-263 | The font test ignores letter case. |
| `Filenames.FontWithQueryIsNotFont` | app/core/downloader.py:261-263 | A suffix test: `f.woff?1` is not recognised as a font. |
| `Document.AttrOr` | app/core/downloader.py:84 | `tag.get(a) or ""` is empty exactly when the attribute is missing or empty. |
| `Document.LowerAll` | app/core/downloader.py:108 | The `rel` tokens are lower-cased one by one. |
| `Document.Candidates` | app/core/downloader.py:95 | Every `srcset` candidate is non-empty and has no whitespace at either end. |
| `Document.NonEmptyStripsMembers` | app/core/downloader.py:95 | A string is a candidate exactly when it is the non-empty strip of one of the pieces. |
| `Document.CandidatesOf` | app/core/downloader.py:95 | A string is a `srcset` candidate exactly when it is the non-empty strip of one of the comma-separated pieces. |
| `Document.CandidatesAvoidComma` | app/core/downloader.py:95 | No candidate contains a comma. |
| `Document.CandidatesJoin` | app/core/downloader.py:446-457 | Candidates joined by `", "` parse back into the same candidates, so the rewriter's serialisation loses nothing. |
| `Document.CandidateUrl` | app/core/downloader.py:97 | The URL of a candidate is its first token: a non-empty prefix without whitespace. |
| `Extract.SrcsetUrls` | app/core/downloader.py:94-98 | A `srcset` yields exactly the joined first tokens of its candidates. |
| `Extract.Gather` | app/core/downloader.py:82-143 | One pass of the extractor yields the union of what each element contributes to it. |
| `Extract.Collected` | app/core/downloader.py:78-145 | The extractor's result has all six categories. The fonts category stays empty. |
| `Extract.CollectAssets` | app/core/downloader.py:78-145 | The six passes, run in the source's order, give that result. |
| `Extract.TagAssetsByPass` | app/core/downloader.py:78-145 | Images come from pass 1. Scripts come from pass 2 and stylesheets from pass 3. Video comes from the video sources and pass 4. Other comes from icons and iframes. |
| `Extract.GatheredMembers` | app/core/downloader.py:82-143 | A URL is gathered by a pass exactly when some element contributes it. |
| `Extract.CollectedMembers` | app/core/downloader.py:78-145 | A URL is in a category exactly when some element of the page contributes it there. The passes lose nothing and invent nothing. |
| `Extract.TagResolved` | app/core/downloader.py:88-143 | Every URL one element contributes was joined against the page URL. |
| `Extract.AllResolved` | app/core/downloader.py:88-143 | Every URL the extractor reports was joined against the page URL. |
| `Extract.OrderIrrelevant` | app/core/downloader.py:78-145 | Reordering the page's elements does not change the result. |
| `Extract.VideoSourceIsVideo` | app/core/downloader.py:82-90 | A video `<source>` contributes only its `src`, and only to video. Its `srcset` is ignored. |
| `Extract.PictureIsImage` | app/core/downloader.py:91-98 | An `<img>` or a picture `<source>` contributes exactly its `src` and the first token of each `srcset` candidate, and only to images. |
| `Extract.IsStylesheetLink` | app/core/downloader.py:106-118 | Definition of the stylesheet-link filter: a link with an `href` and a `stylesheet` token, or a preload with `as="style"`; see `Extract.LinkCategories`. |
| `Extract.IsIconLink` | app/core/downloader.py:125-137 | Definition of the icon-link filter: an icon or manifest link that is no stylesheet, preload or resource hint; see `Extract.StylesheetIsNotIcon` and `Extract.HintsDropped`. |
| `Extract.LinkCategories` | app/core/downloader.py:107-137 | A stylesheet link, or a preload with `as="style"`, goes to CSS alone. No link lands in both CSS and other. |
| `Extract.StylesheetIsNotIcon` | app/core/downloader.py:112-133 | No link passes both the stylesheet filter and the icon filter. |
| `Extract.HintsDropped` | app/core/downloader.py:107-137 | A preload that is not a style preload, and every resource hint, is not collected at all. |
| `Extract.Silent` | app/core/downloader.py:78-145 | An element that contributes to no pass has no assets. |
| `Extract.OtherElementsIgnored` | app/core/downloader.py:78-145 | Elements of any other tag name contribute nothing. |
| `Extract.EmptySourceAttribute` | app/core/downloader.py:92-104 | An empty `src` still counts on an image (it joins to the page URL), but is skipped on a script. |
| `Rewrite.Lookup` | app/core/downloader.py:442-443 | Definition of the `mapping.get(u)` lookup with its `if rel:` test; see `Rewrite.Agreement` and `Rewrite.ImageAgreement`. |
| `Rewrite.Localize` | app/core/downloader.py:440-444 | Definition of rewriting one attribute to its local path; see `Rewrite.Agreement`, `Rewrite.ImageAgreement` and `Rewrite.ApplyShape`. |
| `Rewrite.RewriteCandidatesAt` | app/core/downloader.py:448-455 | The i-th new candidate is the rewrite of the i-th old one. |
| `Rewrite.RewriteSrcset` | app/core/downloader.py:445-457 | A `srcset` with no candidate is left alone. |
| `Rewrite.ForEachTag` | app/core/downloader.py:459-502 | A pass replaces every element, in place, by its rewrite. |
| `Rewrite.ImagePass` | app/core/downloader.py:438-457 | The image pass rewrites every `<img>` and `<source>`, in place, and leaves the other elements as they were. |
| `Rewrite.ImageTag` | app/core/downloader.py:439-457 | On one element the image pass rewrites `src` (when present), then `srcset`. |
| `Rewrite.RewriteOne` | app/core/downloader.py:449-455 | One candidate gets its URL token localized, and its tokens are joined again by single blanks. |
| `Rewrite.NewSrcset` | app/core/downloader.py:445-457 | The candidates are rewritten one by one and joined by `", "`. There is no new value when there are no candidates. |
| `Rewrite.RewriteParts` | app/core/downloader.py:446-455 | The loop builds the rewritten candidates in order. |
| `Rewrite.LinkStepAsWritten` | app/core/downloader.py:468-484 | Definition of the link pass as written: the stylesheet table only for a `stylesheet` token, the other table otherwise; see `Rewrite.StylePreloadStaysRemote`. |
| `Rewrite.LinkStep` | app/core/downloader.py:468-484 | Definition of the corrected link pass, which uses the extractor's stylesheet test; see `Rewrite.LinkAgreement` and `Rewrite.VersionsAgree`. |
| `Rewrite.RewriteTag` | app/core/downloader.py:433-502 | Definition of the five passes applied to one element; see `Rewrite.Agreement`, `Rewrite.RewriteShape` and `Rewrite.SrcsetAfterRewrite`. |
| `Rewrite.RewriteHtmlPaths` | app/core/downloader.py:433-502 | After the five passes, every element is its five rewrites applied in order to its old value. The link pass is the one the source writes (`AsWritten`) or the corrected one (`Corrected`). |
| `Rewrite.CandidateRewritten` | app/core/downloader.py:449-455 | When no local path contains a comma or whitespace, a rewritten candidate is still a candidate. Its URL token is localized and its descriptors are kept in order. |
| `Rewrite.SrcsetRewritten` | app/core/downloader.py:445-457 | When no local path contains a comma or whitespace, rewriting a `srcset` keeps the number of candidates. Each candidate has its URL localized and its width or density descriptors unchanged. |
| `Rewrite.ApplyShape` | app/core/downloader.py:438-502 | A pass changes only `src`, `srcset` or `href`, and adds or removes no attribute. |
| `Rewrite.RewriteShape` | app/core/downloader.py:433-502 | The rewriter keeps tag names, parents, `rel` tokens and every attribute other than `src`, `srcset` and `href`. |
| `Rewrite.ApplyKeepsSrcset` | app/core/downloader.py:459-502 | Only the image pass touches `srcset`. |
| `Rewrite.SrcsetAfterRewrite` | app/core/downloader.py:445-502 | After all passes, an image's non-empty `srcset` is the rewritten one. |
| `Rewrite.ImageAgreement` | app/core/downloader.py:439-444 | An `<img>` `src` ends as its local path when it has one, else unchanged. |
| `Rewrite.PictureSourceAgreement` | app/core/downloader.py:439-493 | The same holds for a picture `<source>`, provided its new value is not itself a video key. |
| `Rewrite.VideoSourceAgreement` | app/core/downloader.py:439-493 | A video `<source>` ends as its video path, provided its `src` is not an image key. |
| `Rewrite.SourceAgreement` | app/core/downloader.py:439-493 | Both kinds of `<source>` end at the local path of the category they were collected in. |
| `Rewrite.SingleStepAgreement` | app/core/downloader.py:459-502 | Scripts, links, videos, tracks and iframes end at the local path of the category they were collected in. The exception is a style preload under the link pass as written, which is looked up among the other assets. |
| `Rewrite.CarriedIsCollected` | app/core/downloader.py:78-145 | Every reference the rewriter looks up was collected in that category. |
| `Rewrite.Agreement` | app/core/downloader.py:433-502 | A reference the extractor collected in a category is joined and looked up in that same category. The exception is a style preload under the link pass as written, which is looked up among the other assets. It is replaced by its local path when there is one, and kept as it was otherwise. |
| `Rewrite.NothingMapped` | app/core/downloader.py:433-502 | With nothing downloaded, every collected reference keeps its value. |
| `Rewrite.StylePreloadMissedAsWritten` | app/core/downloader.py:478-484 | As written, a style preload is looked up among the other assets and keeps its remote `href`, although it was collected and saved as a stylesheet. |
| `Rewrite.PreloadFiledAsStylesheet` | app/core/downloader.py:115-118 | The extractor files `<link rel="preload" as="style">` as a stylesheet, but the rewriter's stylesheet test rejects it. |
| `Rewrite.StylePreloadStaysRemote` | app/core/downloader.py:468-484 | As written, a style preload keeps its remote `href` unless the same URL was also saved among the other assets. |
| `Rewrite.VersionsAgree` | app/core/downloader.py:468-484 | The link pass as written and the corrected one give the same element for everything but a style preload. |
| `Rewrite.LinkAgreement` | app/core/downloader.py:468-484 | The corrected link pass looks a link up in exactly the category the extractor filed it under. |
| `Transfer.CancelPoint` | app/core/downloader.py:198-202 | The copy sees no cancellation before the cancellation point, and one at it (when it is inside the stream). |
| `Transfer.Copy` | app/core/downloader.py:194-214 | After the copy the file holds every chunk's bytes when no cancellation was seen, and is absent when one was. The events are one report per non-empty chunk before the cancellation. |
| `Transfer.Feed` | app/core/downloader.py:203-208 | One uncancelled chunk extends the bytes by its data, and the reports by one when it is not empty. |
| `Transfer.ChunkStep` | app/core/downloader.py:203-208 | Handling a chunk appends its bytes, and reports the new count when it is not empty. |
| `Transfer.MappingAfter` | app/core/downloader.py:223-224 | A task leaves every category of the mapping present. |
| `Transfer.TasksOf` | app/core/downloader.py:250-251 | One task per URL of a category, in order. |
| `Transfer.RunMapping` | app/core/downloader.py:248-256 | A run leaves every category of the mapping present. |
| `Transfer.Counted` | app/core/downloader.py:243-246 | Finished task k reports `(k, total, "assets")`. |
| `Transfer.Downloader.constructor` | app/core/downloader.py:161-165 | A fresh run starts with an empty mapping and zero counters, and names files by `normalize_filename`. |
| `Transfer.Downloader.Dl` | app/core/downloader.py:167-246 | One task updates files, events and mapping as its outcome says. It raises `completed` by exactly one and reports the new count, whatever the outcome. |
| `Transfer.Downloader.Next` | app/core/downloader.py:251-256 | Running task i after those before it extends the run by that task. |
| `Transfer.Downloader.RunTasks` | app/core/downloader.py:256 | Running all tasks leaves each task's effect, in order, and one report per task. |
| `Transfer.Downloader.Run` | app/core/downloader.py:148-258 | `download_assets` makes one task per asset, so `completed` ends equal to the total. It announces `(0, total)` only when there is a task. The mapping, files and events are those of the tasks run in order. |
| `Transfer.OutcomeOf` | app/core/downloader.py:167-241 | Definition of how a task ends: skipped, failed, stopped or saved at its path; see `Transfer.TaskTerminal` and `Transfer.RunMappingMembers`. |
| `Transfer.TaskEvents` | app/core/downloader.py:167-241 | Definition of the events a task emits; see `Transfer.TaskTerminal`, `Transfer.BodyEvents` and `Transfer.ProgressCounts`. |
| `Transfer.HandleTask` | app/core/downloader.py:168-241 | A task's effect on the files, the events and the mapping. |
| `Transfer.BuildTasks` | app/core/downloader.py:248-251 | The task list is category by category, URL by URL. |
| `Transfer.TaskCount` | app/core/downloader.py:164-251 | There are exactly `assets_total` tasks. |
| `Transfer.ProgressCounts` | app/core/downloader.py:194-208 | The reports carry the running count of bytes written, which rises strictly. The last report is the total bytes received. There is a report exactly when some byte arrived. |
| `Transfer.ProgressRising` | app/core/downloader.py:194-208 | The reports of a stream carry strictly rising counts, each at most the bytes received. |
| `Transfer.ProgressLast` | app/core/downloader.py:194-208 | The last report of a stream is the number of bytes received. |
| `Transfer.ExtendReports` | app/core/downloader.py:206-208 | A report with a larger count keeps the reports rising. |
| `Transfer.TaskTerminal` | app/core/downloader.py:168-241 | A task cancelled before its request reports nothing. Every other task reports exactly one terminal event, last, and it names the task and its outcome. A start event comes first exactly when the server sent a body. |
| `Transfer.BodyEvents` | app/core/downloader.py:184-228 | The events of a body: a start event, then the reports, then one terminal event. |
| `Transfer.TaskCountTerminal` | app/core/downloader.py:168-241 | A task reports one terminal event, or none when it was cancelled before its request. |
| `Transfer.RunTerminalCount` | app/core/downloader.py:167-256 | A run reports one terminal event per task that got past the first cancellation test. |
| `Transfer.SavedFile` | app/core/downloader.py:187-228 | A saved body is recorded under `folder/name` and the file there holds the whole body. |
| `Transfer.StoppedLeavesNothing` | app/core/downloader.py:209-221 | A transfer cancelled midway leaves no file at its path and no entry in the mapping. |
| `Transfer.OnlyOwnPath` | app/core/downloader.py:189-214 | A task changes no file but its own. |
| `Transfer.MappingAfterMembers` | app/core/downloader.py:223-224 | A task adds its own URL, at its path, only when it saved its body, and changes nothing else. |
| `Transfer.RunMappingMembers` | app/core/downloader.py:223-256 | After a run a URL is mapped exactly when its task saved its body, and it is mapped to that path. |
| `Transfer.MappedFilesExist` | app/core/downloader.py:189-224 | When no two tasks share a path, every mapped URL's file exists after the run and holds that URL's body. |
| `Transfer.SharedPathLosesFile` | app/core/downloader.py:189-214 | Two URLs with the same name in the same folder can leave a mapped URL without its file. This happens when the second transfer is cancelled and unlinks the shared path. |
| `Stylesheets.Limit` | app/core/downloader.py:416-417 | Truncation keeps a prefix of the references: all of them without a limit, and exactly min(limit, count) of them with one. |
| `Stylesheets.SheetRefs` | app/core/downloader.py:399-415 | Definition of the references of a sheet, rule by rule; see `Stylesheets.CountCoversRefs` and `Stylesheets.ValueRefsClean`. |
| `Stylesheets.CollectRefs` | app/core/downloader.py:398-417 | The collection loops give the sheet's references, rule by rule, then truncate them. |
| `Stylesheets.CountRefs` | app/core/downloader.py:293-302 | The counting loops give the sheet's first-pass count. |
| `Stylesheets.TotalRefs` | app/core/downloader.py:280-306 | The first pass adds up the capped counts of the readable sheets. |
| `Stylesheets.PieceRefsCount` | app/core/downloader.py:411-415 | Every `url(` piece with a `)` yields exactly one reference. |
| `Stylesheets.ValueCountExact` | app/core/downloader.py:299-415 | A value's first-pass count is its references, plus one when the text before the first `url(` already holds a `)`. |
| `Stylesheets.ValuesCover` | app/core/downloader.py:298-415 | The count of a rule's values covers their references. |
| `Stylesheets.CountCoversRefs` | app/core/downloader.py:294-415 | The first pass never counts fewer references than the second collects from the same sheet. |
| `Stylesheets.CappedCountCovers` | app/core/downloader.py:303-417 | The same holds after both are capped at the limit. |
| `Stylesheets.PieceRefClean` | app/core/downloader.py:412-414 | A reference cut from one piece has no `)` and no quote at either end. |
| `Stylesheets.PieceRefsClean` | app/core/downloader.py:411-415 | So does every reference cut from the pieces. |
| `Stylesheets.ValueRefsClean` | app/core/downloader.py:407-415 | So does every reference found in a property value. |
| `Stylesheets.Target` | app/core/downloader.py:347-356 | Definition of the font policy: fonts under `fonts/` only for a relative reference, everything else under `img/`; see `Stylesheets.SavedRef` and `Stylesheets.AbsoluteFontSkipped`. |
| `Stylesheets.Download` | app/core/downloader.py:329-396 | Definition of `download_ref` on values; see `Stylesheets.SavedRef`, `Stylesheets.CompleteTransferSaved` and `Stylesheets.DownloadRef`. |
| `Stylesheets.DownloadRef` | app/core/downloader.py:329-396 | `download_ref` applies the font policy and the stream copy, and returns a path only for a complete transfer. |
| `Stylesheets.CompleteTransferSaved` | app/core/downloader.py:347-390 | A transfer that is neither cancelled nor broken off is saved exactly where the font policy puts it. |
| `Stylesheets.SavedRef` | app/core/downloader.py:347-390 | A saved reference is under `fonts/` if it is a font, which requires a relative reference. It is under `img/` otherwise. The file there holds its body. |
| `Stylesheets.AbsoluteFontSkipped` | app/core/downloader.py:349-351 | A font written as an absolute reference is never saved: no file changes and no path is returned. |
| `Stylesheets.ProcessRef` | app/core/downloader.py:420-428 | A passed reference leaves the state unchanged. As written only `data:` references are passed; once corrected the empty reference is passed too. Any other is downloaded, replaced in the text when it was saved, counted and reported. |
| `Stylesheets.ProcessRefs` | app/core/downloader.py:419-428 | The loop handles the references in order. |
| `Stylesheets.CompletedCount` | app/core/downloader.py:420-428 | `completed_refs` grows by one per reference the loop downloads, and each such reference reports the new count when the total is positive. As written that is every non-`data:` reference, the empty one included; once corrected, every non-`data:`, non-empty reference. |
| `Stylesheets.Reports` | app/core/downloader.py:426-428 | Reports are numbered consecutively from one past the count before. |
| `Stylesheets.FetchedText` | app/core/downloader.py:420-425 | One downloaded reference changes the text only by `replace(ref, rel)`, and only when its download returned a path. |
| `Stylesheets.TextUntouched` | app/core/downloader.py:420-425 | When no downloaded reference occurs in the stylesheet text, the loop keeps the text. As written an empty reference always occurs, so this holds only without one, while the corrected loop allows it. |
| `Stylesheets.VersionsAgree` | app/core/downloader.py:420-428 | Without an empty reference the loop as written and the corrected loop give the same state. |
| `Stylesheets.SheetWithinCount` | app/core/downloader.py:303-428 | One stylesheet moves `completed_refs` by at most its share of the first pass's total. |
| `Stylesheets.StopPoint` | app/core/downloader.py:312-316 | The sheets processed are those before the first one at which `cancel_cb()` is true. |
| `Stylesheets.ProcessSheet` | app/core/downloader.py:317-430 | One stylesheet is read back, processed by the loop over refs of the chosen version and written back. An unreadable one is skipped. |
| `Stylesheets.ProcessCssFiles` | app/core/downloader.py:266-430 | The files, events and reports are those of the sheets before the cancellation point, processed in order with the first pass's total, by the loop as written or by the corrected one. |
| `Stylesheets.EmptyRefCorruptsSheet` | app/core/downloader.py:420-425 | As written, an empty reference is downloaded, and `replace("", rel)` puts the path around every character of the sheet. The corrected loop leaves it alone. |
| `Preview.LessIrreflexive` | app/core/downloader.py:546 | String order is irreflexive. |
| `Preview.LessTransitive` | app/core/downloader.py:546 | String order is transitive. |
| `Preview.LessTotal` | app/core/downloader.py:546 | Of two different strings exactly one comes first. |
| `Preview.Least` | app/core/downloader.py:546 | The least URL of a non-empty set comes before every other member. |
| `Preview.Smallest` | app/core/downloader.py:546 | `set(sorted(urls)[:n])` keeps min(n, size) URLs, each before every URL it drops. |
| `Preview.KeepsUnique` | app/core/downloader.py:546 | The kept set is determined by the set and the limit. |
| `Preview.LimitPerType` | app/core/downloader.py:543-547 | Without a positive limit the assets are unchanged. With one, each category keeps its smallest URLs. |
| `Preview.Counts` | app/core/downloader.py:603 | Definition of the final counts, the sizes of the categories; see `Preview.LimitedCounts`. |
| `Preview.LimitedCounts` | app/core/downloader.py:543-603 | Under a positive limit each count is at most the limit and at most the original size. A category that had no more than the limit keeps all its URLs. |

## Left out

- Network I/O (httpx), the filesystem (`mkdir`, `open`, `unlink`, `write_text`), logging and the callbacks beyond the events they receive. Responses and files are values.
- Concurrency: the semaphore and `asyncio.gather`. Tasks run one after another in creation order, so `Transfer.Downloader.Run`'s event sequence is only the fully sequential interleaving. In the source the `asset_cb` events of different URLs can interleave, because tasks yield at every `await`. What does not depend on the interleaving is each task's own event sequence (`Transfer.TaskEvents`), the mapping, since each task owns its URL key, `completed`, and the `progress_cb` reports `(k, total)` for k = 1, ..., n. The file contents of tasks that share a path do depend on the order (see `Transfer.SharedPathLosesFile`).
- Set iteration order is unknown in Python. It is an input (`order`, and the item order of the stylesheet mapping).
- `urljoin`, SHA-1, `Path.resolve`, the HTML parser, `cssutils`, and text decoding and encoding are parameters, as listed above.
- `Urls.Parse` follows `urlparse` without the input sanitising of recent Python releases. Its list of schemes that take `;params` is the one of CPython 3.12.
- `slugify`'s Unicode path: NFKD normalisation and `allow_unicode`. Only the ASCII path is modelled: non-ASCII characters are dropped.
- `Text.Lower` is ASCII lower-casing.
- The content-length header is an input `Option<int>`. Its parsing is not modelled.
- An exception while writing a body, or in `normalize_filename`, is not modelled. In `_dl` (app/core/downloader.py:196-208) and in `download_ref` (app/core/downloader.py:362-372) it is caught, and the task ends with an error event. An exception in the stylesheet write-back (app/core/downloader.py:430) is not modelled either. There nothing catches it: no event is sent, the remaining sheets are not processed, and the run is aborted.
- A stylesheet reference is fetched by its absolute URL. Two references that join to the same URL therefore meet the same response.
- Nested rules (such as `@media` blocks) are `OtherRule`. Their references are neither counted nor collected, as the source only looks at top-level rules.
- `limit_refs` is a natural number. The caller passes 1 or nothing, and a negative slice bound is not modelled.
- A `data:` reference is counted by the first pass but never downloaded. So `completed_refs` can end below the total.
- The pre-request cancellation of `_dl` emits no asset event and records nothing: the model follows the code here.
- `sorted(urls)[:n]` is modelled as repeated extraction of the least URL (`Preview.Smallest`). Its result is characterised by `Preview.Keeps` and shown unique by `Preview.KeepsUnique`.
- `download_site` is modelled only for its limit and counts. The slug and the unique directory are `Utils.Slugify` and `Utils.EnsureUniqueDir`. It also saves the raw and localized pages, and raises `CancelledError` between phases; neither is modelled.
- `_generate_content_php`, `fetch_text`, `fetch_bytes` and `ensure_subfolders` are not part of this model. app/main.py (the UI) is not part of this model.
- `Transfer.MappedFilesExist`: holds only when no two tasks share a path. `Transfer.SharedPathLosesFile` shows that the source does not guarantee it otherwise.
- `Rewrite.Agreement`: stated for references with a non-empty value. It requires `NoCrossHit`: a `<source>` is looked up by both the image pass and the video pass, and the second lookup can overwrite the first.
- `Rewrite.SrcsetRewritten` and `Rewrite.CandidateRewritten`: assume that no local path holds a comma or whitespace. The source does not guarantee this, because a file name comes from the URL path, and a comma in it would split the rewritten candidate in two.
- `Urls.Basename`: `os.path` is taken to be `posixpath`, so only `/` separates path components. Under `ntpath` a `\` would separate them too. The `WINDOWS` flag at app/core/utils.py:11 is read nowhere.

## Findings

| source | as written | input that shows it | evidently intended | confidence | as-written member | corrected member |
|---|---|---|---|---|---|---|
| app/core/downloader.py:478-484 | Any link without a `stylesheet` token is looked up in the `other` mapping, a style preload included. | `<link rel="preload" as="style" href="https://e.com/a.css">`: the extractor collects it as CSS and the downloader saves it as `css/a.css`, but the page keeps the remote `href`. | Look a link up in the category the extractor filed it under. | not executed | `Rewrite.StylePreloadMissedAsWritten`, `Rewrite.StylePreloadStaysRemote` | `Rewrite.LinkAgreement` |
| app/core/downloader.py:420-425 | Only `data:` references are skipped. An empty reference `url()` or `url("")` is downloaded (it joins to the stylesheet's own URL), and `css_text.replace("", rel)` inserts `rel` around every character. | The stylesheet text `a` with an empty reference that saves as `img/x` becomes `img/xaimg/x`. | Skip the empty reference as well. | not executed; depends on the CSS parser keeping an empty `url()` in the property value | `Stylesheets.EmptyRefCorruptsSheet` | `Stylesheets.TextUntouched` |
