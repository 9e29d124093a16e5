# Blog scripts: a verified Dafny model

This project models the client-side scripts of a static blog:

- **The lazy loader.** It finds images, `<source>` elements and iframes that carry `data-src` / `data-srcset` and observes them with an intersection observer. When they come into view it promotes the `data-*` values to `sizes`, `srcset` and `src`, strips the `data-*` attributes and marks the element loaded or failed. It rescans when the document gains lazy elements.
- **The page-view counter.** A map from url to count, with an increment, a K/M number formatter and the badges that show counts.
- **The search box.** A substring search over post cards that shows, hides and counts them and writes a results message.
- **The category, tag and notes pages.** They filter the post feed, sort it newest first, write a count label and render a list, or a placeholder when the list is empty.
- **The archive page.** It shows only the timeline block of the requested year.

## How the model is built

The DOM is replaced by plain records:

- An element is a `datatype` value holding its tag, attribute map, class set, whether its load/error handlers are attached, and the log of the live attributes written to it.
- A post card, post, badge or timeline block is a record with exactly the fields the scripts read or write.

Objects the scripts change in place are classes:

- the loader with its `images` and `iframes` lists and its observer;
- the document's element list;
- the views counter;
- the search page;
- the category/tag, notes and archive pages.

Their `forEach` loops are `while`/`for` loops. Each method is proved against a pure function of the old state. An element is identified by its position in the document.

The pure functions then carry the properties. For the loader these are:

- each observed element is loaded once;
- `sizes`, `srcset`, `src` are assigned in that order;
- the `data-*` attributes are stripped;
- a loaded element is never rescanned;
- `refresh` is idempotent;
- the end-to-end path of an image inserted after start-up.

For the other scripts they are:

- the counter's frame property;
- what the search message says;
- the page filters (permutation and newest-first order);
- the archive trim rule.

Modules:

- `Wrappers`: `Option` and `Result`.
- `Text`: ASCII lower-casing, `includes`, `startsWith`, `trim`, the UTF-16 `length`, decimal digits and the pluralised count label.
- `LazyLoading`: `assets/js/lazy_loading.js`.
- `BlogViews`: `assets/js/blog_views.js`.
- `BlogSearch`: `assets/js/blog_search.js`.
- `Feed`: the post record, `filter`, the in-place newest-first sort and the list rendering shared by the pages.
- `BlogPages`: `assets/js/blog_pages.js`.
- `BlogNotes`: `assets/js/blog_notes.js`.
- `BlogArchive`: `assets/js/blog_archive.js`.

### Behaviour modelled as written

- **Fallback branch.** Without `IntersectionObserver`, the constructor calls `loadAllElements` before `findElements` has ever run. Both lists are still empty, so nothing is loaded (`LazyLoading.LazyLoader.constructor`). The mutation observer is installed in this branch too: later rescans refresh the lists but observe and load nothing, because observing needs an intersection observer.
- **Notes with no subcategory.** With a path, a note that has no subcategory makes `note.subcategory.startsWith` throw. The model returns `Failure("TypeError")` and writes nothing (`BlogNotes.NotesFilter`).
- **Empty strings.** An empty `data-*` value read through `getAttribute` is falsy, so the assignment it would feed is skipped; the selectors and the mutation test match on presence, so they still find an element that carries the empty attribute. An empty query-string parameter and an empty category path are falsy too, so each is treated like a missing one.

## Model

| member | source | states |
|---|---|---|
| LazyLoading.MergeOptions | assets/js/lazy_loading.js:9-16 | each supplied option overrides its default; every other key is `'200px 0px'`, `0.1`, `'lazy-loading'`, `'lazy-loaded'`, `'lazy-error'` |
| LazyLoading.IsLazyImage | assets/js/lazy_loading.js:53 | the image query selects only img and source elements that carry `data-src` or `data-srcset` (source: only `data-srcset`) |
| LazyLoading.IsLazyIframe | assets/js/lazy_loading.js:56 | the iframe query selects only elements that carry `data-src`, and never an element the image query selects |
| LazyLoading.IndicesWhere | assets/js/lazy_loading.js:53 | the query result holds exactly the positions of matching elements, in strictly increasing document order |
| LazyLoading.FindAll | assets/js/lazy_loading.js:51-57 | both lists are replaced: `images` is exactly the img with `data-src`/`data-srcset` and source with `data-srcset`, `iframes` exactly the iframes with `data-src`; nothing else changes |
| LazyLoading.LazyLoader.FindElements | assets/js/lazy_loading.js:51-57 | the loader's lists become `FindAll` of the old state |
| LazyLoading.ObserveListIsObserved | assets/js/lazy_loading.js:59-75 | walking a watch list equals the set-level effect: with an observer, every listed element lacking the loaded class gains the loading class and becomes a target; with none, nothing changes |
| LazyLoading.ObserveAll | assets/js/lazy_loading.js:59-75 | observing keeps both watch lists and the number of elements |
| LazyLoading.ObserveAllIsObserved | assets/js/lazy_loading.js:59-75 | images then iframes is observing the union of the positions on the two lists, whatever their order and repetitions |
| LazyLoading.LazyLoader.ObserveElements | assets/js/lazy_loading.js:59-75 | the two `forEach` loops produce `ObserveAll` of the old state and keep the lists in range |
| LazyLoading.ObservedCompose | assets/js/lazy_loading.js:59-75 | observing one set and then another is observing their union |
| LazyLoading.Refreshed | assets/js/lazy_loading.js:191-194 | after `refresh` the lists are the fresh query results, in range of the document, whose length is unchanged |
| LazyLoading.RefreshedIsObserved | assets/js/lazy_loading.js:191-194 | `refresh` observes exactly the set of lazy positions of the document |
| LazyLoading.RefreshIdempotent | assets/js/lazy_loading.js:191-194 | a second `refresh` with no document change leaves lists, targets and elements as the first left them |
| LazyLoading.LazyLoader.Refresh | assets/js/lazy_loading.js:191-194 | the new state is `Refreshed` of the old one |
| LazyLoading.ImageLoaded | assets/js/lazy_loading.js:98-129 | handlers attached, tag and classes kept, no `data-src`/`data-srcset`/`data-sizes` left, and `sizes`, `srcset`, `src` take their non-empty `data-*` values |
| LazyLoading.ImageLoadedWrites | assets/js/lazy_loading.js:113-123 | the image path appends to the write log `sizes`, `srcset`, `src` in that order, each exactly when its `data-*` value is non-empty |
| LazyLoading.ImageLoadedKeepsOthers | assets/js/lazy_loading.js:112-128 | no attribute other than the three `data-*` and the three live ones changes |
| LazyLoading.LazyLoader.LoadImage | assets/js/lazy_loading.js:98-129 | the sequential assignments and removals give `ImageLoaded` of the old element; no other element changes |
| LazyLoading.IframeLoaded | assets/js/lazy_loading.js:131-150 | `src` is written iff `data-src` is non-empty, `data-src` is always removed, no other attribute changes |
| LazyLoading.LazyLoader.LoadIframe | assets/js/lazy_loading.js:131-150 | the element becomes `IframeLoaded` of the old one; no other element changes |
| LazyLoading.ElementLoaded | assets/js/lazy_loading.js:87-96 | the loading class is removed; the iframe path is taken iff the lower-cased tag is `iframe`, the image path for every other tag |
| LazyLoading.LazyLoader.LoadElement | assets/js/lazy_loading.js:87-96 | the element becomes `ElementLoaded` of the old one |
| LazyLoading.ElementLoadedIdempotent | assets/js/lazy_loading.js:125-128 | loading an already-loaded element changes nothing |
| LazyLoading.ImageLoadedIdempotent | assets/js/lazy_loading.js:125-128 | the image path applied twice equals once |
| LazyLoading.IframeLoadedIdempotent | assets/js/lazy_loading.js:148-149 | the iframe path applied twice equals once |
| LazyLoading.LoadedNotRescanned | assets/js/lazy_loading.js:53-56 | a loaded element matches neither query of `findElements` |
| LazyLoading.IntersectListIsIntersected | assets/js/lazy_loading.js:77-85 | a batch loads exactly the targets of its intersecting entries and unobserves them; other elements and targets are unchanged |
| LazyLoading.IntersectList | assets/js/lazy_loading.js:77-85 | a batch keeps both watch lists, the number of elements and the observer |
| LazyLoading.BatchLoadsIntersectingOnce | assets/js/lazy_loading.js:77-85 | a target of an intersecting entry is loaded once, however many entries name it, and leaves the target set; any other element and its target status are unchanged |
| LazyLoading.LaterBatchCannotReload | assets/js/lazy_loading.js:77-85 | a later batch naming an element an earlier batch loaded leaves it unchanged |
| LazyLoading.LazyLoader.OnIntersection | assets/js/lazy_loading.js:77-85 | the loop's new state is `IntersectList` of the old state |
| LazyLoading.LoadFired | assets/js/lazy_loading.js:104-106 | with handlers attached, the load event adds the loaded class and nothing else; without them the element is unchanged; tag, attributes, handlers and write log are always kept |
| LazyLoading.ErrorFired | assets/js/lazy_loading.js:108-110 | with handlers attached, the error event adds the error class and nothing else; without them the element is unchanged; tag, attributes, handlers and write log are always kept |
| LazyLoading.LazyLoader.OnLoadEvent | assets/js/lazy_loading.js:104-106 | the element becomes `LoadFired` of the old one; the iframe's load handler at lines 135-137 is the same |
| LazyLoading.LazyLoader.OnErrorEvent | assets/js/lazy_loading.js:108-110 | the element becomes `ErrorFired` of the old one; the iframe's error handler at lines 139-141 is the same |
| LazyLoading.ApplyAtOnce | assets/js/lazy_loading.js:152-158 | for an idempotent step, the fallback loop applies it once to each listed element and leaves the others alone |
| LazyLoading.FallbackLoadsEachImageOnce | assets/js/lazy_loading.js:152-154 | the fallback image loop loads each listed element once |
| LazyLoading.LazyLoader.LoadEach | assets/js/lazy_loading.js:154-157 | loading each listed element in turn gives the image (or iframe) path applied at those indices, in order |
| LazyLoading.LazyLoader.LoadAllElements | assets/js/lazy_loading.js:152-158 | the document becomes the image path over `images`, then the iframe path over `iframes` |
| LazyLoading.LazyLoader.constructor | assets/js/lazy_loading.js:7-45 | options merged; with observer support the state is `Refreshed` from empty lists and an empty observer; without it the lists stay empty and no element changes |
| LazyLoading.ScanMutations | assets/js/lazy_loading.js:162-179 | the flag loop with its `break` sets `needsUpdate` iff some childList record added an element node that has `data-src`/`data-srcset` or a descendant with one |
| LazyLoading.RescanNeeded | assets/js/lazy_loading.js:165-178 | a rescan is needed only if some childList record added at least one node |
| LazyLoading.LazyLoader.OnMutations | assets/js/lazy_loading.js:162-184 | the state is `Refreshed` of the old state when a rescan is needed, and unchanged otherwise |
| LazyLoading.AppendedLazyNodeTriggersRescan | assets/js/lazy_loading.js:165-173 | a childList record adding an element node that carries `data-src` or `data-srcset` makes the callback rescan |
| LazyLoading.InsertedImageIsLoaded | assets/js/lazy_loading.js:165-183 | an eligible image appended later is observed by the rescan with the loading class; its intersecting entry loads and unobserves it; it is then not rescanned and its load event marks it loaded |
| BlogViews.GetViews | assets/js/blog_views.js:36-38 | the stored count, or 0 for an absent url |
| BlogViews.Incremented | assets/js/blog_views.js:27-31 | the url's count goes up by one, also from absent; every other url keeps its count |
| BlogViews.ViewsCounter.IncrementViews | assets/js/blog_views.js:27-34 | the map becomes `Incremented` of the old one and the url's badges show the new count |
| BlogViews.FormatViews | assets/js/blog_views.js:49-57 | below 1000 canonical digits (no leading zero), a final `K` for 1000 ≤ v < 1000000, a final `M` from 1000000 on |
| BlogViews.FormatSmallRoundTrip | assets/js/blog_views.js:50-51 | below 1000 the text reads back as the count |
| BlogViews.FormatSmallIsToString | assets/js/blog_views.js:50-51 | below 1000 the text is the one canonical digit string that denotes the count, as `toString` writes it |
| BlogViews.FormatLargeLeadingDigits | assets/js/blog_views.js:52-56 | from 1000 on, the integer part shown is the count in thousands or millions, rounded half up to one decimal |
| BlogViews.WithText | assets/js/blog_views.js:40-47 | badges with `data-url` equal to the url get the text; every other badge is unchanged |
| BlogViews.ViewsCounter.UpdateDisplay | assets/js/blog_views.js:40-47 | the loop writes `formatViews(getViews(url))` into exactly the badges of that url; the counts are unchanged |
| BlogViews.AllDisplayed | assets/js/blog_views.js:59-65 | every badge with a `data-url` shows its own url's formatted count; badges without one are unchanged |
| BlogViews.ViewsCounter.UpdateAllDisplays | assets/js/blog_views.js:59-65 | calling `updateDisplay` per badge leaves the badges as `AllDisplayed` |
| BlogViews.AllDisplayedIdempotent | assets/js/blog_views.js:59-65 | refreshing every badge twice equals once |
| BlogViews.UpdateAfterRefreshIsNoop | assets/js/blog_views.js:40-47 | after a full refresh, updating one url with unchanged counts changes nothing |
| BlogViews.ViewsCounter.constructor | assets/js/blog_views.js:3-7 | badges refreshed from the stored map; the path is incremented, keyed by itself, iff it contains `/blogs/categories/` |
| BlogSearch.MatchCount | assets/js/blog_search.js:18-32 | the count of matching posts never exceeds the number of posts |
| BlogSearch.IsMatch | assets/js/blog_search.js:21-27 | a post matches iff the lower-cased query occurs in the lower-cased title, first paragraph (each `''` when missing) or one of the badges |
| BlogSearch.MatchCountExtremes | assets/js/blog_search.js:18-32 | the count is 0 iff no post matches, and equals the number of posts iff every post matches |
| BlogSearch.MatchCountStep | assets/js/blog_search.js:29-32 | taking one more post into the count adds 1 exactly when that post matches |
| BlogSearch.Searched | assets/js/blog_search.js:20-37 | matching posts get `block`/`1`, the others `none`/`0.5`; title, paragraph and badges are unchanged |
| BlogSearch.ReportedCountIsDisplayed | assets/js/blog_search.js:29-32 | the reported count equals the number of posts left displayed |
| BlogSearch.ResultsText | assets/js/blog_search.js:63-66 | the message is `Found `, the count label, ` for "`, the query and a closing `"`, in that order and nothing more |
| BlogSearch.MissingTextNeverMatches | assets/js/blog_search.js:21-22 | a missing title and paragraph read as `''`, which never contains a query of length ≥ 2 |
| BlogSearch.ResultsTextCount | assets/js/blog_search.js:63-66 | the message starts `Found ` and its leading digits read back as the count |
| BlogSearch.ResultsTextPlural | assets/js/blog_search.js:63-66 | the count label follows `Found `, and it ends in `s` iff the count is not 1 |
| BlogSearch.SearchPage.MarkPost | assets/js/blog_search.js:20-36 | one post is shown if it matches and hidden otherwise, and the method reports whether it matched |
| BlogSearch.SearchPage.MarkMatches | assets/js/blog_search.js:17-37 | the loop leaves the posts equal to `Searched` and returns `MatchCount`; the message and input are unchanged |
| BlogSearch.SearchPage.PerformSearch | assets/js/blog_search.js:9-41 | a query shorter than 2 UTF-16 code units shows all posts and hides the message; otherwise posts become `Searched`, `foundCount` is `MatchCount`, and the message is shown with the results text |
| BlogSearch.AllShown | assets/js/blog_search.js:43-48 | every post gets `block`/`1` and nothing else changes |
| BlogSearch.SearchPage.ShowAllPosts | assets/js/blog_search.js:43-52 | the loop shows every post and the message is hidden |
| BlogSearch.SearchPage.HideSearchResults | assets/js/blog_search.js:70-75 | an existing message is hidden; a missing one stays missing |
| BlogSearch.Hide | assets/js/blog_search.js:70-75 | a present message keeps its text and becomes hidden; a missing one stays missing |
| BlogSearch.SearchPage.OnInput | assets/js/blog_search.js:78-81 | the input takes the new value and its trimmed form is searched: `Searched`, `MatchCount` and the shown results message, or all posts shown and the message hidden when it is shorter than 2 UTF-16 units |
| BlogSearch.SearchPage.OnSearchClick | assets/js/blog_search.js:83-88 | with a button, the trimmed input is searched, with the same posts, count and message as `PerformSearch`; without one, nothing happens; the input is kept |
| BlogSearch.SearchPage.OnKeyPress | assets/js/blog_search.js:91-96 | Enter searches the trimmed input, with the same posts, count and message as `PerformSearch`; other keys do nothing; the input is kept |
| BlogSearch.SearchPage.OnKeyDown | assets/js/blog_search.js:99-104 | Escape empties the input and shows all posts; other keys do nothing |
| Feed.Filter | assets/js/blog_pages.js:33 | the result holds exactly the accepted posts, each as often as in the input, and no rejected post |
| Feed.FilterSameVerdicts | assets/js/blog_pages.js:67-69 | filters that agree on every post keep the same posts |
| Feed.SortNewestFirst | assets/js/blog_pages.js:36 | the in-place sort leaves the array in non-increasing date order and a permutation of its old contents |
| Feed.InsertNewest | assets/js/blog_pages.js:72 | one insertion step extends the newest-first prefix by one and keeps the same posts |
| Feed.SortedCopy | assets/js/blog_notes.js:120 | the displayed list is newest first and a permutation of the filtered list |
| Feed.CardOf | assets/js/blog_pages.js:143-145 | a card shows the first three tags (all if fewer, none without tags) and the post's title, url and date |
| Feed.Listing | assets/js/blog_pages.js:116-126 | the "No posts found" placeholder iff the list is empty, otherwise one card per post in order |
| Feed.Display | assets/js/blog_pages.js:112-126 | a missing container stays missing; a present one shows the placeholder iff the list is empty, else one card per post, never an error box |
| BlogPages.CategoryPosts | assets/js/blog_pages.js:33 | exactly the posts whose category equals the parameter, case-sensitively, with their multiplicities |
| BlogPages.TagPosts | assets/js/blog_pages.js:67-69 | exactly the posts that have tags and a tag equal to the parameter ignoring case |
| BlogPages.TagFilterIgnoresCase | assets/js/blog_pages.js:68 | the tag page finds the same posts for a parameter and for its lower-cased form |
| BlogPages.BlogPage.HandleCategoryPage | assets/js/blog_pages.js:15-46 | without a category only the error box changes; with one, the title is `Category: X - Blog`, the name is set, the count label is `n post(s)` and the list shows the category's posts newest first |
| BlogPages.BlogPage.HandleTagPage | assets/js/blog_pages.js:49-82 | without a tag only the error box changes; with one, the title is `Tag: X - Blog` and the tagged posts are shown newest first under `n post(s)` |
| BlogPages.BlogPage.ShowError | assets/js/blog_pages.js:193-205 | the error box goes into the category container, or into the tag container when the first is missing |
| BlogNotes.NotesFilter | assets/js/blog_notes.js:109-117 | without a path, exactly the `notes` posts, each as often as in the feed; with one, exactly the notes whose subcategory starts with it, each as often as in the feed, or a TypeError iff some note has no subcategory |
| BlogNotes.PathFilterWithinAllNotes | assets/js/blog_notes.js:110-117 | every path-filtered result is a sub-multiset of the unfiltered notes |
| BlogNotes.LongerPathNarrows | assets/js/blog_notes.js:112 | a note under `path + more` is also a note under `path` |
| BlogNotes.SubcategoryPath | assets/js/blog_notes.js:96-98 | the click path is the category slug, `/`, then the subcategory slug |
| BlogNotes.NotesPage.LoadNotesByCategory | assets/js/blog_notes.js:104-130 | on a TypeError nothing is written; otherwise `n note(s)` and the notes newest first, or the "No notes found" placeholder |
| BlogNotes.NotesPage.OnSubcategoryClick | assets/js/blog_notes.js:94-99 | a click loads the notes under `category/subcategory` |
| BlogArchive.YearDisplay | assets/js/blog_archive.js:34-44 | a block with an h3 gets `block` iff its trimmed heading equals the year exactly and `none` otherwise; a block without one is unchanged |
| BlogArchive.YearFiltered | assets/js/blog_archive.js:33-45 | every block is filtered in place by `YearDisplay` |
| BlogArchive.YearFilterIdempotent | assets/js/blog_archive.js:29-46 | filtering twice by one year equals once |
| BlogArchive.PaddedYearHidesAll | assets/js/blog_archive.js:36-37 | only the heading is trimmed, so a year with surrounding whitespace hides every block that has a heading |
| BlogArchive.ArchivePage.FilterPostsByYear | assets/js/blog_archive.js:29-46 | the loop leaves the blocks as `YearFiltered`; title and heading are unchanged |
| BlogArchive.ArchivePage.HandleArchivePage | assets/js/blog_archive.js:10-26 | without a year nothing changes; with one, the title is `Archive: Y - Blog`, the heading reads `Blog Archive: Y` and the blocks are filtered |
| Text.ContainsIffOccurs | assets/js/blog_search.js:25-27 | `includes` holds iff the query occurs at some position |
| Text.LowerIdempotent | assets/js/blog_pages.js:68 | lower-casing twice equals once |
| Text.Trim | assets/js/blog_search.js:79 | the trimmed text starts and ends with non-whitespace |
| Text.TrimRemovesOnlyPadding | assets/js/blog_archive.js:36 | the input is whitespace, then the trimmed text, then whitespace |
| Text.TrimIdempotent | assets/js/blog_search.js:85 | trimming twice equals once |
| Text.DecimalRoundTrip | assets/js/blog_views.js:51 | the decimal digits of n read back as n |
| Text.DecimalInjective | assets/js/blog_views.js:51 | different counts give different digits |
| Text.CanonicalDigitsUnique | assets/js/blog_views.js:51 | the decimal digits of n are the only digit string without a leading zero that denotes n |
| Text.Utf16Length | assets/js/blog_search.js:10 | `length` counts UTF-16 code units: between one and two per character, and exactly one per character iff none lies above U+FFFF |
| Text.CountLabelLeadingNumber | assets/js/blog_pages.js:41 | the number at the head of a count label is the count |
| Text.CountLabelPlural | assets/js/blog_notes.js:125 | the label ends in `s` iff the count is not 1 |

## Left out

- **IntersectionObserver and MutationObserver internals, and asynchronous event delivery.** They are modelled as explicit event methods called one after another: `OnIntersection`, `OnMutations`, `OnLoadEvent`, `OnErrorEvent`. Observer options are stored but have no effect.
- **Browser support.** Whether the browser supports `IntersectionObserver` is a constructor parameter.
- **Node removal.** Removing elements from the document is not modelled; element identity is a position in an append-only document.
- **Network, storage and data loading.** Fetching media, the `/posts.json` script loaders, `loadBlogPostsData`, and localStorage with JSON parse/stringify (`loadViews`, `saveViews`) are not modelled. The stored view map and the post feed are parameters.
- **Stored view values.** They are natural numbers; malformed stored JSON is not modelled.
- BlogViews.FormatViews: the digits after the K/M branch are exact half-up rounding to tenths, not the double-precision `toFixed(1)`. They can differ at exact ties.
- **Dates.** A date is an integer timestamp; `new Date` parsing and `toLocaleDateString` are not modelled.
- Feed.SortNewestFirst: stability of the engine's sort among posts with equal dates is not stated. The model proves only newest-first order and a permutation.
- **HTML rendering.** `innerHTML` templates (icons, cover images, excerpts, reading time, capitalised category), `renderNotesCategories` and the reading-progress bar are not modelled. Of the list markup the model keeps the placeholder, the card fields and the three-tag cap; of the other `innerHTML` writes it keeps the search message and the archive heading as strings, without their icons.
- BlogSearch.ResultsText: the message is the HTML source written to `innerHTML`, with the query inserted unescaped; a query containing markup renders differently from this string, and the parsing is not modelled.
- BlogArchive.ArchivePage.HandleArchivePage: the heading is the HTML source written to `innerHTML`, with the `year` parameter inserted unescaped; a parameter containing markup renders differently from this string, and the parsing is not modelled.
- **Text handling.** Lower-casing and `trim` are ASCII-only. Unicode case mapping and Unicode whitespace are not modelled. The search threshold counts UTF-16 code units, as `length` does (`Text.Utf16Length`).
- **Selector escaping.** A `data-url` containing quotes would break the `querySelectorAll` selector; this is not modelled.
- LazyLoading.MergeOptions: overrides are taken as given, by it and by `LazyLoading.LazyLoader.constructor`. `classList.add`/`remove` throw for an empty class name or one containing whitespace, and `new IntersectionObserver` throws for a `threshold` outside [0, 1]; those DOM exceptions are not modelled, so the model accepts such options. The only caller passes no options.
- **Explicit `undefined` options.** An override passed as `undefined` would replace the default; overrides are either present or absent.
- **Event wiring.** `DOMContentLoaded` handlers, the page routing on `pathname.includes` for `/category`, `/tag` and `/archive`, the notes page's initial `loadNotesByCategory(null)`, and the share functions (`encodeURIComponent`, `window.open`) are not modelled.
