# WStar content store and news utilities, modelled in Dafny

This project models the two utility modules of the WStar front end.

- `app/utils/cms.ts` is the in-memory content store. It holds four
  collections (newsletters, news articles, available tags and testimonials)
  and a flag saying whether the newsletter archive has been merged in. The
  add, update and delete operations change the store in place and announce
  each change with browser events. The first read of the newsletters merges
  the bundled JSON archive into the store.
- `app/utils/newsUtils.ts` is a set of pure helpers over articles: the next
  identifier, the reading-time estimate, validation, slugs, the text of an
  HTML fragment, the blank article, filtering and sorting, and statistics.

The store is the class `Cms.Store`. Its fields are the fields of the `cache`
object plus `events`, the names of the events dispatched so far, oldest
first. Every method states the whole new state and the events it appends.
The helpers are functions and lemmas. The source's loops are methods with
loop invariants, each proved equal to a specification function:

- the `forEach` of `getArticleStats` and its inner `forEach` over tags;
- the two loops of the archive scan.

`validateArticle` and `filterArticles` have no loops. They run a fixed
sequence of statements that each may push one message or narrow the list
once. The model writes them as methods, one statement per check or stage
(`CheckRequired`, `CheckLengths`, `CheckShapes`; `ByQuery`, `ByCategories`,
`ByTags`, `ByDates`), each proved against its specification function.

JavaScript values are the datatype `JsValues.JsValue`, and a record is a map
from property names to values. Spread `{...a, ...b}` is map union, `===` is
value equality except for `NaN`, and truthiness, `Number(...)` and
`toString()` are written out.

Modules, one per file:

- `Wrappers`: `Option`, `Result` and `Outcome`.
- `Text`: `trim`, the JavaScript whitespace set, ASCII `toLowerCase`,
  `includes` and string order.
- `JsValues`: JavaScript values, truthiness, `Number(...)` (decimal,
  hexadecimal, octal and binary integer literals, and arrays through their
  string form) and `toString()`.
- `Seqs`: `filter` and subsequences.
- `Records`: identifiers, `findIndex`, spread and `splice`.
- `Sorting`: the comparators and `Array.prototype.sort`, which is stable
  (`Sorting.SortByStable`).
- `SeedData`: the sample content.
- `Archive`: normalizing and deduplicating the archive.
- `Cms`: the store.
- `NewsText`: the text helpers.
- `NewsArticles`: validation, the template and filtering.
- `NewsStats`: statistics.

## Model

| member | source | states |
|---|---|---|
| Records.IdNumber | app/utils/cms.ts:233 | `Number(r.id)` is a number or NaN |
| Records.MaxId | app/utils/newsUtils.ts:12-13 | `Math.max(...ids, 0)` is NaN exactly when some id converts to NaN; otherwise it is at least 0, bounds every id, and is 0 or one of the ids |
| Records.NextId | app/utils/newsUtils.ts:9-14 | `generateArticleId` (the same expression as the store's add operations): NaN exactly when some id is NaN; otherwise at least 1, above every existing id, and one more than an existing id or 1; 1 on an empty list |
| Records.NextIdIsFresh | app/utils/newsUtils.ts:9-14 | a numeric next identifier matches no record of the collection |
| Records.FindIndex | app/utils/cms.ts:245 | `findIndex(x => x.key === v)`: -1 exactly when nothing matches, otherwise the first match |
| Records.Merge | app/utils/cms.ts:248 | `{...base, ...patch}`: the keys of both, patch values win, other base values kept |
| Records.RemoveAt | app/utils/cms.ts:258 | `splice(i, 1)`: one element shorter, the elements before and after `i` kept in order, and the multiset loses exactly `s[i]` |
| Records.AppendFreshKeepsUnique | app/utils/cms.ts:233-235 | appending a record under the next identifier keeps the identifiers unique, and the new record is found at the end |
| Records.RemoveMatchLeavesNone | app/utils/cms.ts:255-258 | after deleting the match of a unique identifier, no record has it and identifiers stay unique |
| Records.MergeAtKeepsUnique | app/utils/cms.ts:248 | an update that does not set the key, or sets it to the value it already has, keeps the keys unique |
| Records.AppendUnmatchedKeepsUnique | app/utils/cms.ts:308-310 | appending a tag whose name is not present keeps the names unique |
| JsValues.Or | app/utils/cms.ts:128 | `a \|\| b` is truthy iff one operand is, and is one of them |
| JsValues.RadixLiteral | app/utils/newsUtils.ts:12 | `Number("0x…")`, `Number("0o…")` and `Number("0b…")` read the digits in base 16, 8 and 2 |
| JsValues.SignedRadixLiteral | app/utils/newsUtils.ts:12 | a sign before a radix literal makes `Number(...)` `NaN` |
| JsValues.ArrayNumbers | app/utils/cms.ts:338 | an array converts through its string form: `[]` is 0, and an array holding one integer is that integer |
| JsValues.IntToStringRoundTrip | app/utils/cms.ts:128 | `Number(String(n)) === n` for the `Date.now().toString()` fallback id |
| JsValues.ToStringOf | app/utils/cms.ts:148 | `x.toString()` throws exactly on `undefined` and `null` |
| Text.Trim | app/utils/newsUtils.ts:25 | `trim()` leaves no whitespace at either end and never grows |
| Text.TrimNoWhitespace | app/utils/newsUtils.ts:101 | `trim()` of a string without whitespace is the string itself |
| Text.TrimSlice | app/utils/newsUtils.ts:108 | the trimmed string is a contiguous slice of the original with only whitespace before and after it |
| Text.StrLeTotal | app/utils/newsUtils.ts:206-223 | string order is total |
| Text.StrLeTransitive | app/utils/newsUtils.ts:206-223 | string order is transitive |
| Text.StrLeAntisymmetric | app/utils/newsUtils.ts:206-223 | string order is antisymmetric |
| Seqs.Filter | app/utils/newsUtils.ts:165-202 | `filter(p)` keeps exactly the elements satisfying `p` |
| Seqs.FilterIsSubsequence | app/utils/newsUtils.ts:165-202 | `filter` keeps the original order |
| Seqs.FilterFilter | app/utils/newsUtils.ts:165-202 | two filters in a row are one filter by the conjunction |
| Sorting.PrecedesTotal | app/utils/newsUtils.ts:206-233 | every comparator relates any two articles one way or the other |
| Sorting.PrecedesTransitive | app/utils/newsUtils.ts:206-233 | every comparator is transitive |
| Sorting.InsertSorted | app/utils/newsUtils.ts:206-233 | inserting into a sorted list keeps it sorted |
| Sorting.SortBy | app/utils/newsUtils.ts:206-233 | `sort(cmp)`: same length, a permutation, and sorted by the comparator |
| Sorting.SortByStable | app/utils/newsUtils.ts:206-233 | `sort(cmp)` is stable: for every article, the articles the comparator ties with it keep their input order |
| Sorting.FirstBest | app/utils/newsUtils.ts:283-293 | the earliest element that no other element beats under the comparator |
| Sorting.FirstBestSnoc | app/utils/newsUtils.ts:283-293 | one step of the running leader: the new element takes over exactly when the leader does not precede it |
| SeedData.SeedNewsIds | app/utils/cms.ts:402-513 | the five seeded articles have identifiers "1" to "5" in order |
| Archive.FallbackId | app/utils/cms.ts:128 | `n.id \|\| n.slug \|\| Date.now().toString()`: always truthy, the first truthy choice |
| Archive.Normalize | app/utils/cms.ts:127-145 | fails exactly on an `undefined` or `null` raw record; otherwise it has exactly the normalized keys, the fallback id, the `content` and `tags` fallbacks, and copies every other listed field |
| Archive.ExistsId | app/utils/cms.ts:147-149 | `find` by identifier string: found only if some record's id string matches; not found exactly when every id has a string and none matches; throws otherwise |
| Archive.ImportOneIsNew | app/utils/cms.ts:146-150 | a pushed record is the normalization of the raw record and differs in id from every record in the store |
| Archive.ImportedAreNew | app/utils/cms.ts:123-153 | every imported record comes from some raw record and is new to the store |
| Archive.ImportOneKeepsNew | app/utils/cms.ts:146-150 | conversely, a raw record whose normalization is new to the store is pushed |
| Archive.ImportedKeepsNew | app/utils/cms.ts:123-153 | completeness: every raw record whose normalization is new to the store is among the imported records |
| Archive.ImportedKeepsDuplicates | app/utils/cms.ts:146-150 | the batch is checked against the store only: the same new raw record twice is imported twice |
| Archive.ImportedExactly | app/utils/cms.ts:123-153 | when the batch does not throw, the imported records are exactly the normalized raw records filtered by newness to the store, in raw order |
| Archive.ImportedFailureSticks | app/utils/cms.ts:116-160 | once a prefix of the raw records throws, the whole scan throws |
| Archive.MergeKeepsExisting | app/utils/cms.ts:154-160 | the merge loses no existing newsletter; it is a no-op when nothing was imported, and otherwise something was imported and the result is a date-descending sort of the old ones plus exactly the imported ones |
| Cms.SectionOf | app/utils/cms.ts:181 | a key names a collection exactly when it is one of the four collection names |
| Cms.ProcessArticleContent | app/utils/cms.ts:368-377 | the copy always has truthy `content`; it keeps a truthy content or uses the placeholder; other fields are unchanged |
| Cms.ScanItems | app/utils/cms.ts:125-151 | the inner loop yields the batch for the raw records so far, or throws at a prefix that throws |
| Cms.ScanModule | app/utils/cms.ts:124-152 | one module's scan extends the batch by that module's records, or the whole scan throws |
| Cms.ScanArchive | app/utils/cms.ts:116-153 | the outer loop yields the batch of all raw records, or fails when the source fails or a record throws |
| Cms.SeededNextNewsId | app/utils/cms.ts:264-278 | on the seeded store the first added article gets identifier 6 |
| Cms.Store.constructor | app/utils/cms.ts:82-94 | module load: empty newsletters, the sample news, tags and testimonials, archive not loaded, one `cmsDataUpdated` event |
| Cms.Store.ClearCache | app/utils/cms.ts:102-109 | all collections empty and the archive flag cleared, no event |
| Cms.Store.Seed | app/utils/cms.ts:391-396 | `{...cache, ...data}` and one `cmsDataUpdated` event |
| Cms.Store.Notify | app/utils/cms.ts:202-227 | appends the general, section and operation events in that order |
| Cms.Store.UpdateData | app/utils/cms.ts:178-199 | a collection key replaces that collection and appends two events; any other key changes nothing |
| Cms.Store.GetData | app/utils/cms.ts:111-176 | the first newsletters read merges the archive and sets the flag; every read returns the collection and dispatches nothing |
| Cms.Store.LoadArchive | app/utils/cms.ts:114-168 | the newsletters become the archive merge, and the flag is set whatever happened |
| Cms.Store.AddNewsletter | app/utils/cms.ts:230-239 | appends `{...newsletter, id}` under the next identifier and returns it; keeps unique identifiers unique |
| Cms.Store.UpdateNewsletter | app/utils/cms.ts:241-252 | "Newsletter not found" with nothing changed, or the first match merged with the updates and returned; identifiers stay unique when the updates leave `id` out or repeat it |
| Cms.Store.DeleteNewsletter | app/utils/cms.ts:254-261 | "Newsletter not found" with nothing changed, or the first match removed |
| Cms.Store.AddNewsArticle | app/utils/cms.ts:264-278 | appends the article with the next id, `isVisible` true and `position` one past the old length; keeps identifiers unique |
| Cms.Store.UpdateNewsArticle | app/utils/cms.ts:280-291 | "Article not found" with nothing changed, or the first match merged and returned; identifiers stay unique when the updates leave `id` out or repeat it |
| Cms.Store.DeleteNewsArticle | app/utils/cms.ts:293-300 | "Article not found" with nothing changed, or the first match removed |
| Cms.Store.AddTag | app/utils/cms.ts:307-313 | appends the tag and notifies only when no tag has its name; keeps names unique |
| Cms.Store.UpdateTag | app/utils/cms.ts:315-324 | merges the first tag with the old name, or silently changes nothing; names stay unique when the updates leave `name` out or repeat it |
| Cms.Store.DeleteTag | app/utils/cms.ts:326-332 | removes the first tag with the name, or silently changes nothing |
| Cms.Store.AddTestimonial | app/utils/cms.ts:335-344 | appends under the next identifier and returns it; keeps identifiers unique |
| Cms.Store.UpdateTestimonial | app/utils/cms.ts:346-357 | "Testimonial not found" with nothing changed, or the first match merged and returned; identifiers stay unique when the updates leave `id` out or repeat it |
| Cms.Store.DeleteTestimonial | app/utils/cms.ts:359-366 | "Testimonial not found" with nothing changed, or the first match removed |
| Cms.FirstRelated | app/utils/cms.ts:384-388 | the first four related newsletters are in store order, none is the current one, each shares a tag, and the related newsletter at store position j is at its rank among the related ones whenever fewer than four related ones come before it |
| Cms.Store.GetRelatedArticles | app/utils/cms.ts:379-389 | throws exactly when some other newsletter has no tag array; otherwise `slice(0, 4)` of the related newsletters: as many as there are, up to four, and exactly the first ones in store order |
| NewsText.StripTags | app/utils/newsUtils.ts:24 | `replace(/<[^>]*>/g, "")` leaves no complete tag and adds no character |
| NewsText.StripTagsKeepsTagless | app/utils/newsUtils.ts:24 | text without tags is left as it is |
| NewsText.StripTagsIdempotent | app/utils/newsUtils.ts:24 | stripping twice is stripping once |
| NewsText.StripTagsKeepsText | app/utils/newsUtils.ts:24 | text before the first `<` is kept as it is |
| NewsText.StripTagsDropsTag | app/utils/newsUtils.ts:24 | a complete tag `<…>` is removed and the rest is stripped on |
| NewsText.ExtractTextContent | app/utils/newsUtils.ts:107-109 | the result has no tag and no whitespace at either end, and is a contiguous slice of the stripped text with only whitespace removed around it |
| NewsText.Split | app/utils/newsUtils.ts:25 | `split(/\s+/)` yields at least one piece |
| NewsText.SplitCountsWords | app/utils/newsUtils.ts:25 | on trimmed text the number of pieces is the number of words, or 1 for the empty string |
| NewsText.WordCount | app/utils/newsUtils.ts:24-25 | the count is at least 1 and equals the words of the stripped, trimmed text (1 when there are none) |
| NewsText.CeilDiv | app/utils/newsUtils.ts:26 | `Math.ceil(a / b)` is the least q with a <= q*b |
| NewsText.EstimateReadingTime | app/utils/newsUtils.ts:19-27 | at least one minute; for a positive rate, the ceiling of words per rate; for a negative rate, 1 |
| NewsText.RemoveSpecial | app/utils/newsUtils.ts:98 | only word characters, whitespace and hyphens remain |
| NewsText.RemoveSpecialIsFilter | app/utils/newsUtils.ts:98 | the stage keeps exactly the `[\w\s-]` characters, in order: it is `filter` by that class |
| NewsText.HyphenateSpaces | app/utils/newsUtils.ts:99 | no whitespace remains |
| NewsText.HyphenateSpacesRun | app/utils/newsUtils.ts:99 | a maximal whitespace run between whitespace-free text and the rest becomes exactly one hyphen, and the text on both sides is treated on its own |
| NewsText.CollapseHyphens | app/utils/newsUtils.ts:100 | no two hyphens in a row remain |
| NewsText.CollapseHyphensRun | app/utils/newsUtils.ts:100 | a maximal hyphen run after hyphen-free text becomes exactly one hyphen, and the text on both sides is treated on its own |
| NewsText.SlugStages | app/utils/newsUtils.ts:95-102 | the final `trim()` changes nothing: the slug is the collapsed, hyphenated, cleaned, lower-cased title |
| NewsText.SlugOfWord | app/utils/newsUtils.ts:95-102 | the slug of one lower-case word is the word |
| NewsText.SlugJoinsWords | app/utils/newsUtils.ts:95-102 | a lower-case word, a whitespace run and a plain rest give the word, one hyphen, and the slug of the rest: lower-case words separated by whitespace become the words joined by single hyphens |
| NewsText.GenerateSlug | app/utils/newsUtils.ts:95-102 | the slug has no whitespace, no doubled hyphen, and only `[a-z0-9_-]` |
| NewsText.GenerateSlugKeepsWords | app/utils/newsUtils.ts:95-102 | without its hyphens, the slug is exactly the word characters of the lower-cased title, in order |
| NewsText.GenerateSlugIdempotent | app/utils/newsUtils.ts:95-102 | the slug of a slug is the slug itself |
| NewsArticles.Push | app/utils/newsUtils.ts:44-71 | one conditional push: the message is added iff its check failed, and the check order is kept |
| NewsArticles.CheckRequired | app/utils/newsUtils.ts:43-52 | each required-field message appears iff its field is missing |
| NewsArticles.CheckLengths | app/utils/newsUtils.ts:54-58 | the title and summary messages appear iff they exceed 120 and 300 characters |
| NewsArticles.CheckShapes | app/utils/newsUtils.ts:60-72 | the tags, image-URL and image-object messages appear iff their conditions hold |
| NewsArticles.ValidateArticle | app/utils/newsUtils.ts:40-78 | valid iff no errors; each of the eleven messages appears iff its condition holds, in check order |
| NewsArticles.Template | app/utils/newsUtils.ts:114-136 | the blank article has exactly the eleven `Article` fields |
| NewsArticles.CreateArticleTemplate | app/utils/newsUtils.ts:114-139 | every override wins and every other template field keeps its default (no tags, no views, today) |
| NewsArticles.FilterArticles | app/utils/newsUtils.ts:156-236 | the staged filtering returns exactly the articles that pass every active criterion, sorted when asked |
| NewsArticles.ByQuery | app/utils/newsUtils.ts:162-173 | the search stage narrows to the articles passing it |
| NewsArticles.ByCategories | app/utils/newsUtils.ts:175-181 | the category stage narrows to the articles passing it |
| NewsArticles.ByTags | app/utils/newsUtils.ts:183-189 | the tag stage narrows to the articles passing it |
| NewsArticles.ByDates | app/utils/newsUtils.ts:191-203 | the date stage narrows to the articles passing it |
| NewsArticles.FilteredIsSubsequence | app/utils/newsUtils.ts:160-203 | without sorting, the result keeps the input order |
| NewsArticles.FilteredExactly | app/utils/newsUtils.ts:156-236 | an article is in the result iff it is an input article passing every active criterion |
| NewsArticles.FilteredSorted | app/utils/newsUtils.ts:205-233 | with sorting, the result is sorted, a permutation of the kept articles, and stable: tied articles keep their input order |
| NewsArticles.NoFiltersIsIdentity | app/utils/newsUtils.ts:158-160 | with no options the result is the input |
| NewsStats.BumpAllCounts | app/utils/newsUtils.ts:274-276 | counting a list of names adds each name's number of occurrences |
| NewsStats.CategoryCountsAreOccurrences | app/utils/newsUtils.ts:267-270 | each category count is the number of articles of that category, and only present categories are keys |
| NewsStats.TagCountsAreOccurrences | app/utils/newsUtils.ts:273-277 | each tag count is the number of occurrences of that tag, and only present tags are keys |
| NewsStats.CategoryTotal | app/utils/newsUtils.ts:267-270 | the category counts add up to the number of categorised articles |
| NewsStats.TagTotal | app/utils/newsUtils.ts:273-277 | the tag counts add up to the number of tag occurrences |
| NewsStats.RoundedMean | app/utils/newsUtils.ts:296-297 | `Math.round(t / n)`: the integer nearest t/n, halves rounded up |
| NewsStats.RoundedUnique | app/utils/newsUtils.ts:296-297 | the rounding condition determines its result |
| NewsStats.MostViewedIsFirstMaximum | app/utils/newsUtils.ts:280-285 | `mostViewed` is null iff there are no articles; otherwise it has the most views and no earlier article has as many |
| NewsStats.MostRecentIsFirstLatest | app/utils/newsUtils.ts:287-293 | `mostRecent` is null iff there are no articles; otherwise it has the latest date and no earlier article is as late |
| NewsStats.CountTags | app/utils/newsUtils.ts:274-276 | the inner `forEach` adds one per tag occurrence |
| NewsStats.Scan | app/utils/newsUtils.ts:265-294 | the `forEach` accumulates the counts, the view total and both leaders |
| NewsStats.GetArticleStats | app/utils/newsUtils.ts:254-300 | the total, counts, total views, the rounded average (0 on no articles), and the most viewed and most recent articles |

## Left out

- Browser events are the list `events` of event names. The `detail`
  payloads, time stamps, `window` checks and server-side rendering are not
  modelled. The model assumes the browser, so every notification happens.
- The `localStorage` write at load time is not modelled.
- `async` is not modelled. Every operation runs to completion before the
  next one starts.
- The archive source is a parameter:
  - the list of module values `Object.values(import.meta.glob(...))`;
  - a flag for an import that throws;
  - a fixed `Date.now()` value used for every fallback identifier.

  The `console.warn` in the catch block is not modelled.
- `Cms.Store.GetData`: returns the collection itself, not the
  `{ items: ... }` wrapper, because the wrapper only changes the shape of
  the result.
- `Cms.Store.UpdateData`: takes a record list as `data`. It treats
  `_archiveLoaded` and inherited `Object.prototype` names as keys not in the
  cache, because JavaScript's `in` finds both and the model has no
  prototypes.
- Numbers are integers, plus `NaN`. Floating point, `Infinity`, numeric
  strings with exponents or decimals, and the `valueOf` of plain objects are
  not modelled. A plain object converts to `NaN`, as it does without a
  custom `valueOf`.
- `NewsText.EstimateReadingTime`:
  - a rate of 0 (an `Infinity` result) is excluded by its `requires`;
  - non-integer rates are not modelled;
  - the default argument `wordsPerMinute = 200` is not modelled, because
    Dafny has no default arguments: callers pass the rate, 200 for the
    default.
- Dates are compared as strings, which is the order of ISO `YYYY-MM-DD`
  dates. `new Date(...)` parsing is not modelled, including invalid dates,
  which compare as `NaN`.
- `localeCompare` is code-point order, the model's choice. It is neither
  locale collation nor the UTF-16 code-unit order of `<`.
- `toLowerCase` maps ASCII letters only.
- String lengths count characters, not UTF-16 code units.
- The filter and statistics functions require `NewsArticles.IsArticle`,
  the shape that their TypeScript signature `Article[]` promises. Records
  that break the type, such as a missing title or a string view count, are
  not modelled there.
- `NewsStats.GetArticleStats`: the count maps are Dafny maps. A category or
  tag named after an `Object.prototype` property (`toString`, `__proto__`)
  is not modelled.
- The unreachable `default` branch of the sort switch is not modelled,
  because `sortBy` is one of the five orders.
- Reference sharing is not modelled. `getCMSData` returns the cache's own
  arrays and `updateCMSData` stores the caller's array, but the model copies
  values. A caller that changed such an array in place would change the
  store in the source and not in the model.
- Object identity is structural equality of records. `===` between two
  distinct objects with equal contents is therefore true in the model.
- A property explicitly set to `undefined` in a patch is the same as an
  absent one.
- The seeded sample records keep every field except three long prose
  fields, which are not modelled:
  - the `summary` of each of the five articles;
  - the `content` HTML body of each article;
  - the `quote` of each of the three testimonials.

  Every other field is kept, including each article's `author` object
  (`name`, `role`, `avatar`) and each testimonial's `avatar`. So a
  `filterArticles` query that matches a seeded article only through its
  summary matches in the source but not in the model. `processArticleContent`
  of a seeded article gives the placeholder content in the model, but keeps
  the article's own body in the source.
- `getAvailableTags` is not modelled: it only returns a field.
- `formatDisplayDate` is not modelled: it is locale formatting through
  `Date`.
- The API client, the React components and the routes are not part of this
  model.
- `Cms.Store.DeleteNewsletter`, `Cms.Store.DeleteNewsArticle`,
  `Cms.Store.DeleteTestimonial` and `Cms.Store.DeleteTag`: their contracts
  state the removal through `RemoveAt`. Uniqueness after a delete is stated
  once, by `Records.RemoveMatchLeavesNone`, about `RemoveAt`.
- `filterArticles` copies its input and never changes it. This needs no
  statement, because the model works on sequence values.
