# Icon aggregation, gallery pagination and preview logic, in Dafny

This project models the core of an icon search application that gathers icons
from several public icon libraries (all served through the Iconify API) and
lets a user browse, preview and export them. Three source files make up the
core:

- `src/lib/icons/iconService.ts`:
  - the normaliser that turns raw `prefix:name` strings into `Icon` records, inferring style, category, tags and a display name;
  - the post-fetch pipeline of `searchIcons` and `getPopularIcons`: flatten the provider answers, filter, de-duplicate through an object, cap at 1000;
  - the search cache, its key and its eviction (`manageCache`);
  - the small helpers `supportsStroke`, `isColoredIcon`, `getFormattedFilename` and `getTotalIconCount`.
- `src/components/IconGenerator/IconGallery.tsx`: the "load more" pagination state (`icons`, `allResults`, `page`, `hasMore`).
- `src/components/IconGenerator/IconPreview.tsx`: the icon-type classification, its display label, the stroke/colour editability flags and the JSX code snippet.

Every network call is replaced by its answer:
- a provider's search answer is the sequence of raw icon names it returned;
- a failed provider answers with the empty sequence;
- the gallery receives the lists `searchIcons` returned.

## Layout

| file | module | contents |
|---|---|---|
| `text.dfy` | `Text` | JavaScript string operations used by the core: `includes`, `split(':')[0]`, `replace(':', '/')`, `split(/[-_]/)`, `filter(Boolean)`, `join`, ASCII case mapping, `\s` runs, decimal rendering |
| `icons.dfy` | `Icons` | `Icon`, `IconStyle`, the category ids, the static library and count tables |
| `normalizer.dfy` | `Normalizer` | `convertIconifyResultsToIcons` as functions plus the loop method |
| `dedup.dfy` | `Dedupe` | the `reduce`-into-object de-duplication and `Object.values` |
| `search.dfy` | `Search` | providers, filters, the cap, the cache key, the popular pipeline, eviction, and the `IconService` class holding the caches |
| `helpers.dfy` | `IconHelpers` | `supportsStroke`, `isColoredIcon`, `getFormattedFilename`, `getTotalIconCount` |
| `gallery.dfy` | `Gallery` | the `IconGallery` class and its pagination step function |
| `preview.dfy` | `Preview` | `getIconInfo`, `getIconTypeDisplay`, the editability flags, the snippet builder |

Stateful code is modelled in imperative Dafny:
- the caches are fields of `Search.IconService`;
- `manageCache` is a loop over a snapshot of the key order;
- the gallery state lives in the fields of `Gallery.IconGallery`;
- `getIconInfo` is a loop with an early return;
- the snippet is built by `+=` steps.

Each such method is proved equal to a specification function. The lemmas state the properties of those functions.

## Behaviour worth noting

Each point follows from the code as written, sometimes against what its own comments suggest.

- **Cache key** (`iconService.ts:449`, commented "Generate a cache key based on search parameters"):
  - The lists are joined in the order given, so the key depends on that order (`Search.CacheKeyOrderSensitive`).
  - `|` and `,` are not escaped, so different searches share a key:
    - the query `"q|l"` with no filters and the query `"q"` with libraries `["l|"]` give the same key (`Search.CacheKeySeparatorCollision`); for example, both `"a|b"` unfiltered and `"a"` with libraries `["b|"]` give `a|b|||-page1` (`Search.CacheKeyCollisionExample`);
    - libraries `["a,b"]` and `["a","b"]` give the same key (`Search.CacheKeyCommaCollision`).
  - The query `"a"` with libraries `["b"]` gives `a|b||-page1`, which does not collide with `"a|b"`.
- **De-duplication** (`iconService.ts:484-490`, commented "De-duplicate icons by ID"): writing each icon into an object under its id keeps each id at the position of its first occurrence, but stores the record of its last occurrence (`Dedupe.DedupKeepsLast`, `Dedupe.DedupFirstOccurrenceOrder`).
- **Popular icons** (`iconService.ts:527-533`, also commented "De-duplicate icons by ID"): the object is keyed by `iconifyName`, not `id`. The two fields carry the same raw string for every normalised icon.
- **Eviction** (`iconService.ts:91-100`, commented "Delete the oldest entries (first 50)"): `searchIcons` stores first and calls `manageCache` afterwards. When the cache holds more than 200 keys, the 50 oldest are deleted; the key just stored always survives (`Search.EvictionBound`).
- **Gallery pages**: pages appended by `loadMore` are not de-duplicated against earlier pages (`Gallery.FetchBranch`).
- **Skipped results**: when the fetched results end inside the next page, results already fetched past the shown pages are never shown (`Gallery.FetchSkipsFetchedTail`).
- **Empty results are cached** (`iconService.ts:452`, `514`): an empty cached list is a hit, because `[]` is truthy in JavaScript.

## Model

| member | source | states |
|---|---|---|
| Text.Includes | src/lib/icons/iconService.ts:379-386 | `s.includes(sub)` holds iff `sub` occurs in `s` at some position |
| Text.IncludesAny | src/lib/icons/iconService.ts:679 | `libs.some(lib => s.includes(lib))` holds iff some listed id occurs in `s` |
| Text.BeforeFirst | src/lib/icons/iconService.ts:678 | `split(c)[0]` is the longest prefix free of `c`, followed by `c` when shorter than the text |
| Text.IndexOfIs | src/components/IconGenerator/IconPreview.tsx:38 | the position `replace` acts on is the first occurrence of the character, or the end |
| Text.ReplaceFirst | src/components/IconGenerator/IconPreview.tsx:38 | replacing the first `:` keeps the length and every character except the one at the first `:`, which becomes `/`; a text without `:` is unchanged |
| Text.SplitSeps | src/lib/icons/iconService.ts:390 | `split(/[-_]/)` yields at least one segment, none holding `-` or `_` |
| Text.SplitWord | src/lib/icons/iconService.ts:390 | a text without `-` or `_` splits into itself alone |
| Text.SplitAtSep | src/lib/icons/iconService.ts:390 | splitting at a separator splits the two sides independently and concatenates the results |
| Text.NonEmpty | src/lib/icons/iconService.ts:390 | `filter(Boolean)` keeps exactly the non-empty segments: every kept segment is a non-empty input segment, and every non-empty input segment is kept |
| Text.NonEmptyAppend | src/lib/icons/iconService.ts:390 | `filter(Boolean)` distributes over concatenation and keeps a single segment iff it is non-empty |
| Text.SplitJoinRoundTrip | src/lib/icons/iconService.ts:390 | joining the segments with `-` gives back the text with `_` written as `-` |
| Text.ConcatNonEmptySplit | src/lib/icons/iconService.ts:390 | the non-empty segments concatenate to the text without its separators |
| Text.CapitalizedJoinIsTitleCase | src/lib/icons/iconService.ts:417-420 | capitalising each segment and joining with spaces upper-cases each segment start and turns each separator into a space |
| Text.DashWhitespaceRuns | src/lib/icons/iconService.ts:705 | `replace(/\s+/g, '-')` leaves no whitespace, never lengthens, and leaves a text without whitespace unchanged |
| Text.SkipWhitespace | src/lib/icons/iconService.ts:705 | skipping a whitespace run drops only whitespace, keeps the rest as a suffix, and stops at a non-whitespace character or the end |
| Text.DashRunsKeepPlain | src/lib/icons/iconService.ts:705 | text before the first whitespace character is copied unchanged |
| Text.DashRunStep | src/lib/icons/iconService.ts:705 | the first whitespace run, however long, becomes exactly one `-`, and the rest after the run is treated the same way |
| Text.NatToString | src/lib/icons/iconService.ts:706 | `${n}` for a whole number is a non-empty run of decimal digits whose decimal value is `n`, with no leading zero except for `0` itself |
| Text.Excludes | src/lib/icons/iconService.ts:379-386 | a text lacking a character of `sub` does not include `sub` |
| Icons.CategoryIdListed | src/lib/icons/iconService.ts:63-84 | every category id is listed in `iconCategories` |
| Icons.CategoryIdInjective | src/lib/icons/iconService.ts:63-84 | distinct categories have distinct ids |
| Icons.CountTableMatchesLibraries | src/lib/icons/iconService.ts:571-598 | the count table has one entry per library of `iconLibraries`, in the same order |
| Icons.Keys | src/lib/icons/iconService.ts:487 | the dedup keys of a list are its elements' `id` (or `iconifyName`), position by position |
| Normalizer.ParseIconName | src/lib/icons/iconService.ts:369-372 | a name is kept iff the text before the first `:` and the text between the first and second `:` are both non-empty; then they are its prefix and name |
| Normalizer.ParseIconNameComplete | src/lib/icons/iconService.ts:369 | `prefix:name` followed by nothing or by `:…` parses to exactly that pair, so `a:b:c` gives prefix `a` and name `b` |
| Normalizer.InferStyleIsFirstMatch | src/lib/icons/iconService.ts:378-387 | the style chain is first match over the ordered style table (solid, thin, duotone, bold), default outline |
| Normalizer.InferStyle | src/lib/icons/iconService.ts:378-387 | the style is outline iff none of the prefix markers solid, thin, duotone, bold and none of the name markers fill, solid, thin, duotone, bold occurs |
| Normalizer.BoldWhenNoEarlierMarker | src/lib/icons/iconService.ts:385-386 | bold is chosen when a bold marker occurs and no earlier marker does |
| Normalizer.ThinBeforeBold | src/lib/icons/iconService.ts:381-386 | a name with both "thin" and "bold" and no solid marker is thin |
| Normalizer.TablerArrowRight | src/lib/icons/iconService.ts:378-395 | `tabler:arrow-right` is outline and in the arrows category |
| Normalizer.MdiArrowRightBold | src/lib/icons/iconService.ts:378-395 | `mdi:arrow-right-bold` is bold and in the arrows category |
| Normalizer.InferCategory | src/lib/icons/iconService.ts:393-414 | the category is interface or one of the ten keyword categories, never one of the other nine declared |
| Normalizer.InferCategoryIsFirstMatch | src/lib/icons/iconService.ts:393-414 | the category chain is first match over the ordered keyword table, default interface |
| Normalizer.FirstMatch | src/lib/icons/iconService.ts:393-414 | first match returns the default or the result of some rule |
| Normalizer.Tags | src/lib/icons/iconService.ts:390 | every tag is non-empty and free of `-` and `_`, and the tags concatenate to the name without separators |
| Normalizer.TagsOfWord | src/lib/icons/iconService.ts:390 | a non-empty name without separators is its own single tag |
| Normalizer.TagsSplitAt | src/lib/icons/iconService.ts:390 | the tags of a name split at a separator are the tags of the left part followed by those of the right part, in order |
| Normalizer.ReadableName | src/lib/icons/iconService.ts:417-420 | the display name is the name with each segment capitalised and separators turned into spaces, of the same length |
| Normalizer.Normalize | src/lib/icons/iconService.ts:367-431 | a raw name yields a record iff it parses; the record has id and iconifyName equal to the raw name, library equal to the parsed prefix, style `InferStyle(prefix, name)`, category `InferCategory(name)`, tags `Tags(name)`, display name `ReadableName(name)` and the source tag |
| Normalizer.SameIdSameRecord | src/lib/icons/iconService.ts:422-431 | two normalised icons with the same id differ at most in their source tag |
| Normalizer.KeptNames | src/lib/icons/iconService.ts:367-372 | the kept raw names are input names that parse, and every input name that parses is kept |
| Normalizer.KeptNamesAppend | src/lib/icons/iconService.ts:367-372 | keeping names distributes over concatenation: order and multiplicity are preserved |
| Normalizer.KeptName | src/lib/icons/iconService.ts:367-372 | a single raw name is kept iff it parses |
| Normalizer.NormalizeAll | src/lib/icons/iconService.ts:361-435 | one record per kept raw name, in input order, ids equal to the kept names, each normalised and stamped with the source tag |
| Normalizer.NormalizeAllMember | src/lib/icons/iconService.ts:422-431 | any record in a normalised response is normalised and carries the response's tag |
| Normalizer.NormalizeAllAppend | src/lib/icons/iconService.ts:367 | normalising concatenated responses concatenates their normalisations |
| Normalizer.ConvertIconifyResultsToIcons | src/lib/icons/iconService.ts:361-435 | the `forEach`/`push` loop returns exactly `NormalizeAll` of its input |
| Dedupe.Reduce | src/lib/icons/iconService.ts:486-489 | the accumulator object is well formed, has at most one key per input, and its keys are exactly the input's keys |
| Dedupe.ReduceValues | src/lib/icons/iconService.ts:486-489 | each key stores the record of that key's last occurrence |
| Dedupe.ReduceOrder | src/lib/icons/iconService.ts:486-489 | the object's keys are in the order of their first occurrence |
| Dedupe.Dedup | src/lib/icons/iconService.ts:485-490 | the de-duplicated list is no longer than the input |
| Dedupe.Values | src/lib/icons/iconService.ts:485 | `Object.values` lists the stored record of each key, in key order |
| Dedupe.DedupDistinct | src/lib/icons/iconService.ts:485-490 | no key occurs twice in the result |
| Dedupe.DedupSameKeys | src/lib/icons/iconService.ts:485-490 | the result has exactly the keys of the input |
| Dedupe.DedupKeepsLast | src/lib/icons/iconService.ts:485-490 | the record kept for a key is the last input record with that key |
| Dedupe.DedupFirstOccurrenceOrder | src/lib/icons/iconService.ts:485-490 | result keys appear in the order of their first occurrence in the input |
| Dedupe.DedupSubset | src/lib/icons/iconService.ts:485-490 | every result record is an input record |
| Dedupe.DedupOfDistinct | src/lib/icons/iconService.ts:485-490 | a list without repeated keys is returned unchanged |
| Dedupe.DedupIdempotent | src/lib/icons/iconService.ts:485-490 | de-duplicating twice is de-duplicating once |
| Dedupe.ReduceAppend | src/lib/icons/iconService.ts:486-489 | reducing a concatenation continues the reduction of the first part |
| Dedupe.ReduceValuesRoundTrip | src/lib/icons/iconService.ts:485-490 | reducing `Object.values` of a well-keyed object rebuilds that object |
| Dedupe.DedupAbsorbs | src/lib/icons/iconService.ts:142-147 | de-duplicating a de-duplicated prefix again with more items equals one de-duplication of everything |
| Dedupe.DedupeIcons | src/lib/icons/iconService.ts:485-490 | the reduce loop followed by the `Object.values` loop returns exactly `Dedup` |
| Dedupe.ReduceIntoObject | src/lib/icons/iconService.ts:486-489 | the reduce loop builds exactly `Reduce` |
| Dedupe.ObjectValues | src/lib/icons/iconService.ts:485 | the values loop yields exactly `Values` |
| Search.OffsetsTile | src/lib/icons/iconService.ts:111-112 | page 1 starts at offset 0 and consecutive pages are adjacent windows of the provider's limit |
| Search.ProviderLimits | src/lib/icons/iconService.ts:351-358 | six providers, iconify first with limit 200, the others 100 |
| Search.Flatten | src/lib/icons/iconService.ts:469 | an icon is in the flattened list iff it is in some provider's list |
| Search.FlattenAppend | src/lib/icons/iconService.ts:469 | `flat()` distributes over concatenation and a single list flattens to itself |
| Search.ProviderIcons | src/lib/icons/iconService.ts:464-466 | provider `i`'s list is the normalisation of its answer stamped with its id |
| Search.ProviderIconsNormalized | src/lib/icons/iconService.ts:464-469 | every gathered icon is normalised and stamped with one provider's id |
| Search.Keep | src/lib/icons/iconService.ts:473 | `filter` keeps exactly the elements satisfying the test |
| Search.KeepAppend | src/lib/icons/iconService.ts:473 | `filter` distributes over concatenation, so it keeps order and multiplicity |
| Search.KeepOne | src/lib/icons/iconService.ts:473 | a one-element list keeps its element iff the test holds |
| Search.KeepAgree | src/lib/icons/iconService.ts:473-481 | two tests that agree on every element keep the same list |
| Search.KeepAll | src/lib/icons/iconService.ts:473-481 | a test that holds for every element keeps the whole list |
| Search.KeepKeep | src/lib/icons/iconService.ts:473-481 | filtering twice is filtering once with the conjunction of both tests |
| Search.ApplyFilters | src/lib/icons/iconService.ts:472-482 | an icon survives iff it is in the input and each non-empty filter list contains its library, style and category |
| Search.ApplyFiltersIsOneFilter | src/lib/icons/iconService.ts:472-482 | the three successive filters are one order-preserving `filter` by `Matches` |
| Search.Filtered | src/lib/icons/iconService.ts:464-482 | the filtered list is the flattened provider lists kept by `Matches`, in order |
| Search.Cap | src/lib/icons/iconService.ts:493-496 | the capped list is a prefix of at most 1000 items, equal to the input when that fits and of exactly 1000 otherwise |
| Search.SearchPipeline | src/lib/icons/iconService.ts:464-496 | a search result has at most 1000 icons and no id twice |
| Search.SearchResultsMatch | src/lib/icons/iconService.ts:469-496 | every returned icon was gathered from a provider and passes the filters |
| Search.SearchResultsOrder | src/lib/icons/iconService.ts:485-496 | ids are in first-occurrence order over the filtered concatenation |
| Search.SearchResultsComplete | src/lib/icons/iconService.ts:485-496 | below the cap every matching gathered icon's id is returned; above it the result is the first 1000 de-duplicated icons |
| Search.CacheKeySeparatorCollision | src/lib/icons/iconService.ts:449 | a `|` in the query collides with a library ending in `|` |
| Search.CacheKeyCommaCollision | src/lib/icons/iconService.ts:449 | a comma inside a library collides with two libraries |
| Search.CacheKeyCollisionExample | src/lib/icons/iconService.ts:449 | `"a|b"` unfiltered and `"a"` with libraries `["b|"]` both give `a|b|||-page1` |
| Search.CacheKeyOrderSensitive | src/lib/icons/iconService.ts:449 | libraries `["a","b"]` and `["b","a"]` give different keys |
| Search.CacheKeyQueryPrefix | src/lib/icons/iconService.ts:449 | a query without `|` is the text of its key before the first `|` |
| Search.CacheKey | src/lib/icons/iconService.ts:449 | the key starts with the query followed by `|` and ends with `-page` and the page number |
| Search.IconifyLists | src/lib/icons/iconService.ts:131-140 | one list per entry of the ten popular queries, list `i` the normalisation of query `i`'s answer stamped `iconify` |
| Search.OtherPopularLists | src/lib/icons/iconService.ts:520-522 | one normalised popular list per non-iconify provider |
| Search.PopularIsOneDedup | src/lib/icons/iconService.ts:520-533 | iconify's inner de-duplication is absorbed: the popular list is one de-duplication by `iconifyName` of everything gathered |
| Search.PopularPipeline | src/lib/icons/iconService.ts:512-543 | the popular list names no `iconifyName` twice |
| Search.EvictionBound | src/lib/icons/iconService.ts:92-100 | after storing one key the key list has at most 200 entries, keeps the new key, loses only older keys, and loses none below the limit |
| Search.Evicted | src/lib/icons/iconService.ts:92-100 | up to 200 keys nothing is evicted; above that the 50 oldest keys are dropped and the rest kept in order |
| Search.Without | src/lib/icons/iconService.ts:97 | `delete` removes exactly that key from the key order |
| Search.WithoutDistinct | src/lib/icons/iconService.ts:97 | deleting keeps the keys distinct |
| Search.WithoutFirst | src/lib/icons/iconService.ts:95-97 | deleting the oldest key drops the head of the key order |
| Search.WithoutAbsent | src/lib/icons/iconService.ts:97 | deleting an absent key changes nothing |
| Search.IconService.constructor | src/lib/icons/iconService.ts:87-88 | both caches start empty |
| Search.IconService.Delete | src/lib/icons/iconService.ts:97 | the key leaves the map and the key order; nothing else changes |
| Search.IconService.ManageCache | src/lib/icons/iconService.ts:92-100 | the key order becomes its evicted form and surviving entries keep their lists |
| Search.IconService.GetPopularIcons | src/lib/icons/iconService.ts:512-543 | a cached popular list, even an empty one, is returned as is; otherwise the pipeline result is cached and returned; the search cache is untouched |
| Search.IconService.Store | src/lib/icons/iconService.ts:499-502 | the list is stored under its key, then the cache is trimmed; other surviving entries are unchanged |
| Search.IconService.SearchIcons | src/lib/icons/iconService.ts:438-509 | a blank query returns the popular icons without touching the search cache; a cached key returns its list with no state change; a miss computes, stores and trims |
| Search.FetchSearch | src/lib/icons/iconService.ts:464-496 | flatten, filter, de-duplicate and cap compute exactly the search pipeline |
| Search.FetchPopular | src/lib/icons/iconService.ts:520-533 | the popular fan-out computes exactly the popular pipeline |
| Search.SearchProviders | src/lib/icons/iconService.ts:464-469 | the provider loop returns the flattened provider lists |
| Search.IconifyGetPopular | src/lib/icons/iconService.ts:126-154 | iconify's `getPopular` is the de-duplication by `iconifyName` of its query answers |
| IconHelpers.PathPrefix | src/lib/icons/iconService.ts:678 | the prefix is free of `/` and starts the path |
| IconHelpers.SupportsStroke | src/lib/icons/iconService.ts:662-680 | true iff one of the twelve listed ids occurs in the prefix |
| IconHelpers.IsColoredIcon | src/lib/icons/iconService.ts:683-700 | true iff one of the eleven listed ids occurs in the prefix |
| IconHelpers.CapabilitiesIgnoreName | src/lib/icons/iconService.ts:678-679 | both tests depend only on the text before the first `/` |
| IconHelpers.MaterialSymbolsSupportsStroke | src/lib/icons/iconService.ts:664-679 | a `material-symbols/…` path supports stroke, since the prefix holds `ri` |
| IconHelpers.ListedIdInPrefix | src/lib/icons/iconService.ts:679 | a prefix holding a listed id makes every path under it stroke-capable |
| IconHelpers.ListedLibraryRecognised | src/lib/icons/iconService.ts:662-700 | a listed library is recognised whatever follows it in the prefix |
| IconHelpers.BaseName | src/lib/icons/iconService.ts:705 | the base name has no whitespace and no upper-case ASCII letter, and for a name without whitespace it is the lower-cased name |
| IconHelpers.BaseNameIdempotent | src/lib/icons/iconService.ts:705 | normalising a base name again changes nothing |
| IconHelpers.BaseNameRun | src/lib/icons/iconService.ts:705 | a whitespace run in the name becomes one `-` between the lower-cased text before it and the base name of the text after it |
| IconHelpers.FormattedFilename | src/lib/icons/iconService.ts:703-707 | the file name is the base name, `-`, the size digits and `px`, then `-<width>px` exactly when a stroke width is given, then `.svg`; it has no whitespace unless the stroke text does |
| IconHelpers.SumCountsAppend | src/lib/icons/iconService.ts:604 | the sum over a split list is the sum of the parts |
| IconHelpers.SumCounts | src/lib/icons/iconService.ts:604 | the total is at least the first count |
| IconHelpers.TotalIconCount | src/lib/icons/iconService.ts:571-605 | the 24 static counts add up to 53355 |
| Gallery.FirstPage | src/components/IconGenerator/IconGallery.tsx:71 | `slice(0, 100)` is a prefix of length min(100, n) |
| Gallery.Loaded | src/components/IconGenerator/IconGallery.tsx:62-82 | page 1, all results kept, the first min(100, n) shown, more offered iff n > 100 |
| Gallery.ReuseBranch | src/components/IconGenerator/IconGallery.tsx:96-104 | no fetch: results unchanged, exactly page `page+1` appended, more offered iff results remain past it |
| Gallery.LoadedMore | src/components/IconGenerator/IconGallery.tsx:91-124 | each load moves to the next page, and the old shown list and old results are prefixes of the new |
| Gallery.FetchBranch | src/components/IconGenerator/IconGallery.tsx:105-116 | the new answer is appended with no de-duplication, its first min(100, n) shown, more offered iff it is non-empty |
| Gallery.LoadedAligned | src/components/IconGenerator/IconGallery.tsx:71-75 | after a load the shown list is the first pages of the results |
| Gallery.ReuseKeepsAligned | src/components/IconGenerator/IconGallery.tsx:96-104 | a reuse step keeps the shown list equal to the first `page` pages |
| Gallery.ReuseOnlyAligned | src/components/IconGenerator/IconGallery.tsx:96-104 | any run of reuse steps keeps that alignment |
| Gallery.FetchSkipsFetchedTail | src/components/IconGenerator/IconGallery.tsx:100-114 | when the results end inside the next page, the fetched tail past the shown pages is never shown |
| Gallery.IconGallery.constructor | src/components/IconGenerator/IconGallery.tsx:35-38 | the initial state: nothing shown, page 1, more offered |
| Gallery.IconGallery.FetchIcons | src/components/IconGenerator/IconGallery.tsx:62-82 | the new state is `Loaded(results)` |
| Gallery.IconGallery.LoadMore | src/components/IconGenerator/IconGallery.tsx:91-124 | the new state is `LoadedMore` of the old state |
| Preview.IconPath | src/components/IconGenerator/IconPreview.tsx:61 | empty with no selection; otherwise the iconifyName with its first `:` turned into `/` and every other character kept |
| Preview.GetIconInfo | src/components/IconGenerator/IconPreview.tsx:36-58 | the loop with early return computes exactly `InfoOf` |
| Preview.InfoOf | src/components/IconGenerator/IconPreview.tsx:36-58 | no selection gives empty type and library; otherwise the type is the first table match for the library, and the library is the iconifyName before its first `:` when that text has no `/` |
| Preview.FirstType | src/components/IconGenerator/IconPreview.tsx:42-57 | the type is `regular` or the name of one of the table entries |
| Preview.FirstTypeIsFirstMatch | src/components/IconGenerator/IconPreview.tsx:51-57 | the type is that of the first entry whose libraries occur in the prefix, or `regular` when none does |
| Preview.RegularIffNoSpecialMatch | src/components/IconGenerator/IconPreview.tsx:42-57 | the type is `regular` iff none of emoji, logos, flags, payment matches |
| Preview.TypeMatched | src/components/IconGenerator/IconPreview.tsx:51-54 | a special type was returned only because its entry matched |
| Preview.ReplacedPrefix | src/components/IconGenerator/IconPreview.tsx:38-39 | replacing the first `:` and cutting at the first `/` gives the text before the `:` |
| Preview.SlashInPrefixShortensLibrary | src/components/IconGenerator/IconPreview.tsx:38-39 | for an iconifyName `lib/rest` with `lib` free of `/` and `:`, the library is `lib`, not the text before the `:` |
| Preview.TypeDisplay | src/components/IconGenerator/IconPreview.tsx:160-168 | a special type gets its fixed label and any other type the library prefix |
| Preview.LabelsFollowTypeTable | src/components/IconGenerator/IconPreview.tsx:42-57 | the four labelled types are the four special entries of the type table, in order, and `regular` is not labelled |
| Preview.DisplayOfSelection | src/components/IconGenerator/IconPreview.tsx:160-168 | empty label with no selection; type `emoji` gives `Emoji`, `logos` gives `Logo`, `flags` gives `Flag`, `payment` gives `Payment Icon`, `regular` gives the library; a selection has one of those five types |
| Preview.NoSelectionFlags | src/components/IconGenerator/IconPreview.tsx:61-63 | with nothing selected the stroke is not editable and the colour is |
| Preview.CanEditStroke | src/components/IconGenerator/IconPreview.tsx:61-62 | the stroke is editable iff a stroke-capable library id occurs in the library `getIconInfo` reports |
| Preview.CanEditColor | src/components/IconGenerator/IconPreview.tsx:61-63 | the colour is editable iff no coloured-library id occurs in the library `getIconInfo` reports |
| Preview.RegularListIsStrokeList | src/components/IconGenerator/IconPreview.tsx:47 | the `regular` entry lists exactly the stroke-capable libraries |
| Preview.EmojiNotColorEditable | src/components/IconGenerator/IconPreview.tsx:43 | emoji icons are never colour-editable |
| Preview.FlagsNotColorEditable | src/components/IconGenerator/IconPreview.tsx:45 | flag icons are never colour-editable |
| Preview.IncludesTransitive | src/components/IconGenerator/IconPreview.tsx:52 | a prefix holding a library id holds every text that id holds |
| Preview.BuildSnippet | src/components/IconGenerator/IconPreview.tsx:136-146 | the `+=` steps build exactly `Snippet` |
| Preview.Snippet | src/components/IconGenerator/IconPreview.tsx:136-146 | the snippet starts with the icon, width and height attributes and ends with ` />` |
| Preview.SnippetStrokeIff | src/components/IconGenerator/IconPreview.tsx:138-140 | the stroke style is present iff the stroke is editable, when name and colour hold no `{` |
| Preview.SnippetColorQuotes | src/components/IconGenerator/IconPreview.tsx:142-144 | the snippet holds eight quotes when the colour attribute is written and six otherwise |
| Preview.SnippetHasColor | src/components/IconGenerator/IconPreview.tsx:142-144 | an editable non-default colour is written as ` color="…"` |

## Left out

- HTTP `fetch`, URL building, `encodeURIComponent` and JSON parsing: every provider answer is an input sequence of raw names. `data.icons` missing or empty is the empty sequence.
- `Promise.all` and async/await: provider answers are joined in `iconProviders` order. Races between overlapping searches and between React effects are not modelled.
- The `try`/`catch` blocks: a failed provider contributes `[]`. The outer catches of `searchIcons`, `getPopularIcons` and the gallery's `fetchIcons`/`loadMore` cover failures of code outside the model.
- The `collections` lookup in `convertIconifyResultsToIcons`: its value is never used.
- `getSvgWithOptions` (a remote SVG fetch plus regex rewriting) and `getIconsByLibrary` (a fetch followed by the normaliser): network code.
- Floating-point stroke widths and their rendering: a stroke width is kept as the text it renders to. In the file name, `None` stands for a falsy width (undefined or `0`).
- IconHelpers.BaseName: `toLowerCase` is modelled on ASCII letters only, so the lower-cased name it states is ASCII lower-casing. `\s` is the ECMAScript whitespace and line-terminator set.
- The ten popular-query fetches of Iconify's `getPopular` are replaced by their answers: an input with one answer per entry of `Search.PopularQueries`, in that order. The query text itself only selects the answer.
- Normalizer.ReadableName: `toUpperCase` on the first character of a segment is modelled on ASCII letters only.
- Toasts, clipboard writes, Blob downloads, loading flags and all JSX rendering.
- The `Valid`/`KeysMatch` invariants of `Search.IconService` are ghost predicates. They constrain the caches but are not returned values.
- The page number of a search is not used by the post-fetch pipeline. It reaches the model only through the cache key and the provider offsets.
