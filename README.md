# Personal bookmarks: a verified model of the bookmark store, the bookmarks hook, the link detector and the list filters

The application saves web links as bookmarks in the browser. Every bookmark lives in one
local-storage slot, under the key `bookmarks`, as a JSON array of records. Each record has an id,
a URL, a platform (YouTube, Twitter, LinkedIn, website or other), a title, an optional image, a
list of tags, a favourite flag, a creation time and the raw link preview it was built from.

This project models four parts of the application in Dafny and proves properties of the model.

- **The store** (`bookmark_storage.dfy`, class `BookmarkStore`).
  - `getAll`, `save`, `add`, `update`, `delete` and `clear` act on the one slot. Each one reads the
    whole list, changes it and writes it back.
  - `export` writes the list as text.
  - `import` merges a JSON payload into the stored list. It keeps only records with a non-empty
    id, URL and title whose id is not already stored. A missing or zero `createdAt` is set to the
    clock value. The kept records go in front of the stored ones, as one block in payload order.
  - `getImportStats` counts what an import would do, without writing.
- **The hook** (`use_bookmarks.dfy`, class `BookmarkService`). It holds the in-memory list and the
  loading flag over the store.
  - Every mutation except `clearAll` goes to the store, and then the list is read back from it.
    `clearAll` clears the store and sets the list to the empty list directly.
  - `toggleFavorite`, `addTag` and `removeTag` look the record up in the in-memory list first.
  - `addBookmark` builds the new record from the link preview, the hostname and the clock.
- **The link detector** (`link_detector.dfy`):
  - the platform classification of a hostname;
  - the two YouTube video-id regular expressions;
  - the thumbnail and favicon URLs;
  - the fallback preview built when the preview service fails.
- **The list filters** (`bookmark_filter.dfy`): the visible list for a category and a search
  query, and the count beside each category.

Supporting modules:

- `wrappers.dfy`: `Option`.
- `seqs.dfy`: order-preserving filtering, subsequences and duplicate-freedom.
- `strings.dfy`: ASCII lower-casing, substring search and decimal numerals.
- `bookmark_types.dfy`: the records and the shallow merge `{ ...b, ...u }`.
- `json_text.dfy`: JSON text, taken abstractly.

## Abstractions

- **JSON text.** A text is either well-formed JSON, represented by the value it denotes, or text
  that `JSON.parse` rejects.
  - The value is an array of elements or some other value.
  - An element is a bookmark record or `null`. A record carries exactly the keys of the bookmark
    type, each with a value of its type. A payload object that lacks some of these keys, or has
    other keys, has no exact counterpart; "## Left out" says what follows from that.
  - `JSON.stringify` of a list gives the array of its records, so parsing it back gives the same
    list (`JsonText.ParseStringify`).
  - A `null` element makes `import` and `getImportStats` throw when they read its `id`. Their
    `catch` turns that into `false` and `null`.
  - An element that is neither an object nor `null` (a number, a string, a boolean or an array)
    has no counterpart. `import` and `getImportStats` drop such an element silently, since its
    `id` is `undefined` (lib/bookmark-storage.ts:64, :101), just as they drop a record with an
    empty id.
- **The slot** is `Option<Text>`. `None` means the key is absent.
- **Inputs instead of effects.** These are parameters of the operations that use them:
  - the clock (`Date.now()`);
  - the generated fallback id (`Date.now()` and `Math.random()`);
  - the preview service's answer (`None` when the call fails);
  - the hostname that `new URL(url)` yields (`None` where the constructor throws).
- **Quirks the model shows.** They are shown as they are, not corrected:
  - `import` checks new ids only against the stored ids. Two payload records with the same new
    id are both added (`BookmarkStorage.DuplicateNewIdsBothImported`). Stored ids stay unique
    exactly when the kept records have distinct ids (`BookmarkStorage.ImportUniqueIdsIff`).
  - `import` also replaces a `createdAt` of `0` (`BookmarkStorage.Stamp`).
  - The id fallback of `import` never applies: the validity check has already dropped every
    record with an empty id (`BookmarkStorage.NewBlockSpec`).
  - Any host that is not a YouTube host and contains `x.com` counts as Twitter, `netflix.com`
    among them (`LinkDetector.XDotComHost`).

## Model

| member | source | states |
|---|---|---|
| Strings.Lower | lib/link-detector.ts:4 | `toLowerCase` on ASCII letters; the search and the classification ignore case, as SearchIgnoresCase and DetectPlatformIgnoresCase state |
| Strings.Contains | lib/link-detector.ts:6-15 | `includes` as a left-to-right search; its meaning is given by ContainsIff |
| Strings.ContainsIff | lib/link-detector.ts:6-15 | `includes` holds exactly when the pattern occurs at some position of the text |
| Strings.DecimalRoundTrip | hooks/use-bookmarks.ts:45 | the decimal numeral of the clock value reads back as that value |
| Strings.DecimalStringInjective | hooks/use-bookmarks.ts:45 | distinct clock values give distinct decimal ids |
| BookmarkTypes.Merge | lib/bookmark-storage.ts:31 | the shallow merge `{ ...b, ...u }`; its contract is in MergeNoChange, MergeIdempotent and SingleFieldPatches |
| BookmarkTypes.MergeNoChange | lib/bookmark-storage.ts:31 | spreading an empty partial record over a bookmark leaves it unchanged |
| BookmarkTypes.MergeIdempotent | lib/bookmark-storage.ts:31 | spreading the same partial record twice equals spreading it once |
| BookmarkTypes.SingleFieldPatches | hooks/use-bookmarks.ts:75-94 | `{ favorite: v }` changes only the favourite flag and `{ tags: ts }` only the tags |
| JsonText.PayloadRecords | lib/bookmark-storage.ts:53-54 | the payload as a list of records, absent for unparsable text, a non-array or a `null` element; ParseStringify shows that stringified lists come back unchanged |
| JsonText.ParseStringify | lib/bookmark-storage.ts:6-19 | text written by `save` parses back to exactly the list that was saved |
| BookmarkStorage.Decode | lib/bookmark-storage.ts:6-14 | the list `getAll` reads from the slot; its cases are stated in GetAllDefaults and it inverts `save` by JsonText.ParseStringify |
| BookmarkStorage.BookmarkStore.GetAll | lib/bookmark-storage.ts:6-14 | `getAll` on the current slot; Save and Export state that it reads back what was written |
| BookmarkStorage.IndexOf | lib/bookmark-storage.ts:29 | `findIndex` gives the first position holding the id, or -1 when no record has it |
| BookmarkStorage.StatsOf | lib/bookmark-storage.ts:93-118 | stats exist exactly when the payload parses as a list of records; `total` counts its valid records, `newCount` exactly the records `import` keeps, and `duplicates` the rest |
| BookmarkStorage.BookmarkStore.Save | lib/bookmark-storage.ts:16-19 | the slot holds the encoded list, and reading it back gives that list |
| BookmarkStorage.BookmarkStore.Add | lib/bookmark-storage.ts:21-25 | the stored list becomes the new record followed by the old list |
| BookmarkStorage.BookmarkStore.Update | lib/bookmark-storage.ts:27-34 | the first record with the id is merged with the update; with no such record the slot is not written |
| BookmarkStorage.BookmarkStore.Delete | lib/bookmark-storage.ts:36-40 | the stored list becomes the old list without the records that had the id |
| BookmarkStorage.BookmarkStore.Clear | lib/bookmark-storage.ts:42-45 | the key is removed and reading gives the empty list |
| BookmarkStorage.BookmarkStore.Export | lib/bookmark-storage.ts:47-49 | the exported text parses back to the stored list |
| BookmarkStorage.BookmarkStore.Import | lib/bookmark-storage.ts:51-90 | succeeds exactly when the payload is an array of records; on failure nothing is written; on success the slot holds the encoding of the payload's kept block in front of the old list |
| BookmarkStorage.BookmarkStore.GetImportStats | lib/bookmark-storage.ts:93-118 | stats exist exactly for a parsable array payload; the counts are those of the old list; nothing is written |
| BookmarkStorage.GetAllDefaults | lib/bookmark-storage.ts:6-14 | an absent key, unparsable text and a non-array all read as the empty list |
| BookmarkStorage.Updated | lib/bookmark-storage.ts:27-34 | the list `update` writes; its contract is in UpdatedSpec and UpdatePreservesUniqueIds |
| BookmarkStorage.Without | lib/bookmark-storage.ts:36-40 | the list `delete` writes; its contract is in DeleteSpec and DeletePreservesUniqueIds |
| BookmarkStorage.UpdatedSpec | lib/bookmark-storage.ts:27-34 | update keeps the length, replaces only the first record with the id by its merge, and keeps every other position; with no such record the list is unchanged |
| BookmarkStorage.DeleteSpec | lib/bookmark-storage.ts:36-40 | after delete no record has the id; the rest keep their order and multiplicity; the length drops by the number of matches |
| BookmarkStorage.UpdateAfterDelete | lib/bookmark-storage.ts:27-40 | after deleting an id, updating that id finds nothing and changes nothing |
| BookmarkStorage.AddPreservesUniqueIds | lib/bookmark-storage.ts:21-25 | adding a record with a fresh id keeps ids pairwise distinct |
| BookmarkStorage.DeletePreservesUniqueIds | lib/bookmark-storage.ts:36-40 | delete keeps ids pairwise distinct |
| BookmarkStorage.UpdatePreservesUniqueIds | lib/bookmark-storage.ts:27-34 | an update that does not set the id keeps ids pairwise distinct |
| BookmarkStorage.NewBlock | lib/bookmark-storage.ts:59-77 | the block `import` prepends; its contract is in NewBlockSpec |
| BookmarkStorage.ImportResult | lib/bookmark-storage.ts:51-90 | the list `import` writes, or none when it returns false; its contract is in StatsAgreeWithImport, ImportTwice, ImportUniqueIdsIff and ExportImportRoundTrip |
| BookmarkStorage.NewBlockSpec | lib/bookmark-storage.ts:59-77 | the imported block lists, in payload order, exactly the valid payload records with a fresh id; each keeps its own id, and only a zero `createdAt` becomes the clock value |
| BookmarkStorage.StatsAgreeWithImport | lib/bookmark-storage.ts:93-118 | stats exist exactly when import succeeds; `new` is the number of records import prepends; `total` counts the valid records; behind the block the old list is unchanged |
| BookmarkStorage.ImportedIdsStored | lib/bookmark-storage.ts:56-83 | after a successful import, the id of every valid payload record is stored |
| BookmarkStorage.ImportTwice | lib/bookmark-storage.ts:59-69 | a second import of the same payload changes nothing whatever the clock, and its stats report no new record |
| BookmarkStorage.ExportImportRoundTrip | lib/bookmark-storage.ts:47-83 | importing an export into an empty store gives back the list when every record is valid with a non-zero timestamp |
| BookmarkStorage.ImportUniqueIdsIff | lib/bookmark-storage.ts:59-80 | with unique stored ids, the ids stay unique after import exactly when the kept payload records have distinct ids |
| BookmarkStorage.DuplicateNewIdsBothImported | lib/bookmark-storage.ts:59-68 | a payload holding the same new record twice is imported twice, so ids are no longer unique |
| LinkDetector.DetectPlatform | lib/link-detector.ts:3-19 | the priority chain on the lower-cased host; its contract is in DetectPlatformPriority and DetectPlatformIgnoresCase |
| LinkDetector.DetectPlatformPriority | lib/link-detector.ts:3-19 | the classification by priority: the YouTube hosts, then the Twitter hosts including any host with `x.com`, then LinkedIn hosts, then any dotted host as website, and other for the rest, each case as an if-and-only-if |
| LinkDetector.DetectPlatformIgnoresCase | lib/link-detector.ts:4 | hostnames that agree up to ASCII case get the same platform |
| LinkDetector.XDotComHost | lib/link-detector.ts:9 | `netflix.com` is classified as Twitter |
| LinkDetector.RunFrom | lib/link-detector.ts:23 | the captured group is the longest run of characters other than `&`, newline, `?` and `#` |
| LinkDetector.MatchAt | lib/link-detector.ts:23 | a group captured at one position is a valid video id |
| LinkDetector.MatchAtFirstFit | lib/link-detector.ts:23 | at one position the first pattern captures after the earliest listed alternative that fits, and fails exactly when none fits |
| LinkDetector.SearchPattern1 | lib/link-detector.ts:23-29 | the first pattern fails exactly when it matches at no position; otherwise its result is the match at the leftmost matching position |
| LinkDetector.DotStarEnd | lib/link-detector.ts:24 | `.*` reaches the first line terminator or the end of the text |
| LinkDetector.BacktrackV | lib/link-detector.ts:24 | backtracking finds a group exactly when the window holds a `v=` followed by a group character |
| LinkDetector.BacktrackVLast | lib/link-detector.ts:24 | the greedy `.*` gives back characters from the right, so the group found is the one after the last `v=` in the window that a group character follows |
| LinkDetector.Pattern2At | lib/link-detector.ts:24 | a group captured by the second pattern is a valid video id |
| LinkDetector.SearchPattern2 | lib/link-detector.ts:24-29 | the second pattern fails exactly when it matches at no position; otherwise its result is the match at the leftmost matching position |
| LinkDetector.ExtractYouTubeVideoId | lib/link-detector.ts:21-32 | a returned id is non-empty and contains no `&`, newline, `?` or `#` |
| LinkDetector.ExtractSpec | lib/link-detector.ts:27-31 | the result is null exactly when neither pattern matches anywhere; the first pattern's leftmost match wins; otherwise the second pattern decides |
| LinkDetector.ShortLinkVideoId | lib/link-detector.ts:23 | `youtu.be/ab` yields the id `ab` |
| LinkDetector.YouTubeThumbnail | lib/link-detector.ts:34-36 | `getYouTubeThumbnail`; its contract is in ThumbnailRoundTrip and ThumbnailInjective |
| LinkDetector.ThumbnailRoundTrip | lib/link-detector.ts:34-36 | the video id can be read back from its thumbnail URL |
| LinkDetector.ThumbnailInjective | lib/link-detector.ts:34-36 | distinct video ids give distinct thumbnail URLs |
| LinkDetector.FaviconUrl | lib/link-detector.ts:58-65 | `getFaviconUrl`, the fallback icon where the URL does not parse; its contract is in FaviconRoundTrip |
| LinkDetector.FaviconRoundTrip | lib/link-detector.ts:58-65 | the hostname can be read back from the favicon URL; an unparsable URL gives the fallback icon, which reads back as no host |
| LinkDetector.FetchLinkPreview | lib/link-detector.ts:49-54 | a failed preview is exactly `{ title: hostname, url }` |
| UseBookmarks.Find | hooks/use-bookmarks.ts:76 | `find` gives nothing exactly when no record has the id, and otherwise the first record with it |
| UseBookmarks.WithTag | hooks/use-bookmarks.ts:84-85 | the tag list `addTag` writes; its contract is in WithTagSpec and WithTagNoDuplicates |
| UseBookmarks.WithTagSpec | hooks/use-bookmarks.ts:84-85 | adding a tag keeps the old tags as a prefix, makes the tag present, adds nothing else, and is idempotent |
| UseBookmarks.WithTagNoDuplicates | hooks/use-bookmarks.ts:84-85 | a duplicate-free tag list stays duplicate-free and then holds the tag exactly once |
| UseBookmarks.WithoutTag | hooks/use-bookmarks.ts:92 | the tag list `removeTag` writes; its contract is in WithoutTagSpec |
| UseBookmarks.WithoutTagSpec | hooks/use-bookmarks.ts:92 | removing a tag drops every occurrence, keeps the other tags in order and multiplicity, and keeps the list duplicate-free |
| UseBookmarks.Toggled | hooks/use-bookmarks.ts:75-80 | the list `toggleFavorite` leaves from a synced state; its contract is in ToggledSpec and ToggleTwice |
| UseBookmarks.ToggledSpec | hooks/use-bookmarks.ts:75-80 | toggling flips the flag of the first record with the id and changes nothing else; with no such record nothing changes |
| UseBookmarks.ToggleTwice | hooks/use-bookmarks.ts:75-80 | toggling twice restores the list |
| UseBookmarks.Tagged | hooks/use-bookmarks.ts:82-87 | the list `addTag` leaves from a synced state; its contract is in TaggedSpec and TagTwice |
| UseBookmarks.TaggedSpec | hooks/use-bookmarks.ts:82-87 | addTag sets the first matching record's tags to the tag-added list and changes nothing else |
| UseBookmarks.TagTwice | hooks/use-bookmarks.ts:82-87 | adding the same tag twice is adding it once |
| UseBookmarks.Untagged | hooks/use-bookmarks.ts:89-94 | the list `removeTag` leaves from a synced state; its contract is in UntaggedSpec |
| UseBookmarks.UntaggedSpec | hooks/use-bookmarks.ts:89-94 | removeTag sets the first matching record's tags to the tag-removed list and changes nothing else |
| UseBookmarks.ResolveTitle | hooks/use-bookmarks.ts:29 | `preview.title || hostname`; its cases are stated in NewBookmarkFields and FailedPreviewRecord |
| UseBookmarks.ResolveImage | hooks/use-bookmarks.ts:28-42 | the image chain of `addBookmark`; its contract is in ImageRules |
| UseBookmarks.ImageRules | hooks/use-bookmarks.ts:28-42 | the image is the preview's image when it is non-empty; otherwise the video thumbnail of a YouTube URL with an id, or the favicon of a website host; it is non-empty exactly when one of these applies |
| UseBookmarks.NewBookmark | hooks/use-bookmarks.ts:44-54 | the record `addBookmark` builds; its contract is in NewBookmarkFields, NewBookmarkIdsDiffer and FailedPreviewRecord |
| UseBookmarks.NewBookmarkFields | hooks/use-bookmarks.ts:44-54 | a new record has no tags, is not a favourite, and is created at the clock value, with an id that reads back as that value; its platform is the host's; the title is the preview's or the hostname; with a non-empty URL and hostname it passes the import check |
| UseBookmarks.NewBookmarkIdsDiffer | hooks/use-bookmarks.ts:45 | records created at different clock values get different ids |
| UseBookmarks.FailedPreviewRecord | hooks/use-bookmarks.ts:26-42 | after a failed preview the title is the hostname and the image is the thumbnail, the favicon or none |
| UseBookmarks.BookmarkService.constructor | hooks/use-bookmarks.ts:18-20 | on mount the list is loaded from the store and nothing is loading |
| UseBookmarks.BookmarkService.AddBookmark | hooks/use-bookmarks.ts:22-63 | with a hostname, the store gains the new record in front and the list is reloaded; without one, nothing changes; loading ends false |
| UseBookmarks.BookmarkService.UpdateBookmark | hooks/use-bookmarks.ts:65-68 | the store applies the update and the list equals the store |
| UseBookmarks.BookmarkService.DeleteBookmark | hooks/use-bookmarks.ts:70-73 | the store drops the id and the list equals the store |
| UseBookmarks.BookmarkService.ToggleFavorite | hooks/use-bookmarks.ts:75-80 | nothing changes when the in-memory list lacks the id; otherwise the store gets the flipped flag of the in-memory record; from a synced state the result is the toggled list |
| UseBookmarks.BookmarkService.AddTag | hooks/use-bookmarks.ts:82-87 | nothing changes when the record is missing or already has the tag; otherwise the tag is appended in the store; from a synced state the result is the tagged list |
| UseBookmarks.BookmarkService.RemoveTag | hooks/use-bookmarks.ts:89-94 | nothing changes when the record is missing; otherwise the store gets the in-memory tags without the tag; from a synced state the result is the untagged list |
| UseBookmarks.BookmarkService.ClearAll | hooks/use-bookmarks.ts:96-99 | the key is removed and the list is empty |
| UseBookmarks.BookmarkService.ExportData | hooks/use-bookmarks.ts:101-103 | the exported text parses back to the stored list |
| UseBookmarks.BookmarkService.ImportData | hooks/use-bookmarks.ts:105-114 | success is what import returned; on success the stats are those of the state before the import, and the list grows by the new count and is reloaded; on failure there are no stats and nothing changes |
| BookmarkFilter.FilteredBookmarks | app/page.tsx:33-57 | `filteredBookmarks`; its contract is in FilteredMultiset, FilteredIsSubsequence, CategoryExact, AllUnfiltered and SearchIgnoresCase |
| BookmarkFilter.CategoryCount | app/page.tsx:77-81 | `getCategoryCount`; its contract is in CategoryCountIsShownLength |
| BookmarkFilter.MatchesQueryIff | app/page.tsx:46-54 | a record matches the lower-cased query exactly when the query occurs in the lower-cased title, some lower-cased tag, or the lower-cased URL |
| BookmarkFilter.FilteredMultiset | app/page.tsx:33-57 | each record appears in the visible list as often as in the bookmarks when it passes the category and search tests, and not at all otherwise |
| BookmarkFilter.AllUnfiltered | app/page.tsx:33-57 | category "all" with an empty query shows every bookmark |
| BookmarkFilter.FilteredIsSubsequence | app/page.tsx:33-57 | the visible list is an order-preserving subsequence of the bookmarks |
| BookmarkFilter.CategoryExact | app/page.tsx:37-43 | "favorites" keeps exactly the favourites; any other category keeps exactly the records of that platform; a category naming no platform shows nothing |
| BookmarkFilter.SearchIgnoresCase | app/page.tsx:46-47 | queries that agree up to case give the same visible list |
| BookmarkFilter.CategoryCountIsShownLength | app/page.tsx:77-81 | the count beside a category is the length of its visible list with no query |

## Left out

- The `typeof window === "undefined"` guards of the store: the model always runs in a browser.
- The exceptions `localStorage.setItem` can throw (over quota, storage disabled): `save` always
  succeeds.
- The two-space indentation of `export` and the layout of JSON text: text is abstract.
- Stored values that `getAll` returns unchanged although they are no list of records: the
  source returns the parsed non-array value, or an array holding `null`, as it is. The model
  reads both as the empty list, so it does not capture what follows in the source:
  - on a stored array holding `null`, `delete` throws when it reads `null.id`
    (lib/bookmark-storage.ts:38) and writes nothing. The model's `Delete` succeeds and
    overwrites the slot;
  - on such an array, `import` returns `false` and writes nothing: reading `null.id` at :59
    throws inside its `try` (:52), and the `catch` at :87-89 returns `false`. `getImportStats`
    returns `null` the same way (:98, :115-117), so `importData` gives `{ success: false }`. The
    model's `Import` succeeds and overwrites the slot, and `ImportData` reports success with
    stats;
  - on such an array, `update` throws (:29) unless a record with the id comes before the first
    `null`, and then writes the merged list with the `null` kept. The model's `Update` finds no
    record and writes nothing;
  - on such an array, `add` writes the new record in front of the whole array, `null` included.
    The model's `Add` writes the new record alone;
  - on such an array, `export` returns text with the `null` still in it (:48). The model's
    `Export` returns the empty list;
  - on a stored non-array value, `add`, `update` and `delete` throw, and `export` writes that
    value back. `import` and `getImportStats` return `false` and `null` through their `catch`
    (`.map` at :59 and :98 throws), so `importData` gives `{ success: false }`. The model treats
    the slot as empty, so its `Import` and `ImportData` succeed.
- Payload records that lack keys: `import` stores `{ ...bookmark, id, createdAt }`
  (lib/bookmark-storage.ts:72-77). A record with only `id`, `url` and `title` passes the check at
  :64 and is stored without `tags`, `favorite` or `platform`. The model's records always carry
  every key, so it does not capture what follows in the source:
  - `addTag` throws on such a record when it reads `bookmark.tags.includes`
    (hooks/use-bookmarks.ts:84), and `removeTag` when it reads `bookmark.tags.filter` (:92);
  - a non-empty search throws at `b.tags.some` (app/page.tsx:51) on such a record whose
    lower-cased title does not contain the query; the `||` at :50-51 skips the tags otherwise;
  - a record without `platform` matches no platform category (app/page.tsx:41).
- UseBookmarks.BookmarkService.AddTag: holds for records that carry `tags`; on an imported record
  without them the source throws instead.
- UseBookmarks.BookmarkService.RemoveTag: holds for records that carry `tags`; on an imported
  record without them the source throws instead.
- BookmarkFilter.MatchesQueryIff: holds for records that carry `tags`; on a record without them
  whose lower-cased title does not contain the query, the search throws instead.
- BookmarkFilter.FilteredMultiset: likewise, the source computes the list only when the query is
  empty or every record reached by the search either carries `tags` or has the query in its
  lower-cased title.
- BookmarkFilter.CategoryExact: every model record has one of the five platforms, so a record
  stored without `platform` is not represented.
- Payload keys outside the bookmark type: the spread in `import` keeps them, and `export` writes
  them back. The model's records have exactly the bookmark type's keys, so such keys are lost.
- Records whose fields have the wrong JSON type: a non-string id, a numeric title, a platform
  string outside the five names, or a `NaN` timestamp. The model's records are well-typed, so
  `createdAt || Date.now()` replaces only `0`.
- The clock read twice in `addBookmark` (id and `createdAt`) and once per record in `import`:
  one clock value is used for each call.
- The network call of `fetchLinkPreview` (the preview service, its key and response codes): its
  outcome is an input.
- `new URL(url).hostname`: the hostname is an input. Unicode `toLowerCase`: ASCII letters only.
- Asynchrony: overlapping `addBookmark` calls, React's batched `setState`, and the moment
  `loading` is true. `AddBookmark` only states that loading ends false.
- `console.error` logging.
- The trimming and empty-tag check done before `addTag` in the bookmark card
  (components/bookmark-card.tsx:39-40): `AddTag` accepts any string.
- The page's rendering, dialogs, toasts, clipboard and file reading; the service worker
  (`public/sw.js`); the icon generator (`generate-icons.js`).
- UseBookmarks.BookmarkService.constructor: combines the hook's first render with the effect
  that loads the list, so the empty list before the effect runs is not modelled.
