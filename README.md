# AI Image Studio — a Dafny model of its core

The studio is a web page and two endpoints in front of a text-to-image
provider. This project models the three of them in Dafny and proves what
each promises.

- **The generation endpoint** (`Generate`, `generate.dfy`):
  - resolves pixel dimensions from an aspect tag and a longer-side resolution, with each side snapped to a multiple of 8 and floored at 64;
  - routes a model id to its provider route;
  - composes the provider prompt from the prompt and an optional style;
  - flattens the provider's two result shapes into one ordered list of URLs;
  - answers with the URLs, the echoed seed and the dimensions.

  The provider is a function parameter.
- **The history endpoint** (`History`, `history.dfy`):
  - the table is a class `Store` whose row sequence only grows through a batched `Insert`;
  - a read returns one collection's newest 200 rows, newest first, with a default for each NULL column;
  - a write turns the posted items into rows. Each row gets a fresh id and the item's own `createdAt`, or the batch's one timestamp when that is absent, and its image may be mirrored to an object store on a best-effort basis;
  - the rows are stored with one INSERT, whose `?` marks and flat argument list are proved to decode back to the rows.
- **The studio page** (`Studio`, `studio.dfy`):
  - the class `Studio` holds the page's state;
  - the `canGenerate` guard and the `generating` flag around a submission;
  - the render batch built from the generation response, or the four-render fallback;
  - the gallery, which takes the batch at its head and keeps 100 renders;
  - the payload posted to the history;
  - the gallery loaded from the history.
- **JavaScript built-ins** (`Js`, `js.dfy`): `??`, `trim`, `toLowerCase`, `includes`, `Math.round` of an integer ratio, the `%` operator, and number-to-text.

Beyond each member's own contract, the cross-module lemmas prove the following:
- a submission from the page is accepted by the endpoint;
- every URL of a successful response reaches the page in order;
- every payload the page posts passes the history's validation;
- a render written to the history reads back as the same render.

Two behaviours of the endpoints are easy to miss. The model follows the code in both:
- An aspect tag outside the four known ones is not rejected with 400. The handler destructures the missing ratio-table entry, which throws, so the answer is 500 "Generation failed" (`Generate.Prepare`).
- The history write checks for a configured store before it validates the payload. With no store, every payload gets 501, even one with no items (`History.HandlePost`).

The model id lookup is modelled twice. `Generate.LookupAsWritten` is the code as written, where an inherited member name such as `toString` passes the guard (see "## Findings"). `Generate.RouteFor`, and through it `Generate.Prepare` and `Generate.Post`, is the intended own-key lookup, which rejects such names with 400.

## Model

| member | source | states |
|---|---|---|
| `Js.RoundDiv` | src/app/api/generate/route.ts:39 | `Math.round(p/q)` for q > 0 is the integer r with 2qr − q ≤ 2p < 2qr + q: the nearest integer, with halves rounded up |
| `Js.TrimStart` | src/app/api/generate/route.ts:73 | the result is a suffix of the input; everything dropped is white space; the result is empty or starts with something other than white space |
| `Js.TrimEnd` | src/app/api/generate/route.ts:73 | the result is a prefix of the input; everything dropped is white space; the result is empty or ends with something other than white space |
| `Js.Trim` | src/app/api/generate/route.ts:73 | a trimmed string neither starts nor ends with white space |
| `Js.TrimIdempotent` | src/app/api/generate/route.ts:73 | trimming twice is trimming once |
| `Js.TrimEndAppend` | src/app/api/generate/route.ts:73 | trailing white space of a + b comes off b first, and off a only when b is all white space |
| `Js.Remainder` | src/app/page.tsx:119-120 | JavaScript's `%` for a positive divisor: the result lies strictly between −b and b and has the sign of the dividend |
| `Js.RemainderValue` | src/app/page.tsx:119-120 | the result is a − b·q for the quotient q truncated toward zero; with the bounds and sign above, this fixes the value |
| `Js.TrimEmpty` | src/app/page.tsx:55 | a string trims to nothing exactly when every character of it is white space |
| `Js.ToLower` | src/app/api/generate/route.ts:73 | the length is kept, no letter A to Z is left, and every other character is kept as it is |
| `Js.IncludesAt` | src/app/api/history/route.ts:101 | `includes` holds exactly when the part occurs at some position of the text |
| `Js.NatToString` | src/app/page.tsx:156 | the text of a natural number is non-empty, all decimal digits, and one digit long exactly below 10 |
| `Js.NatToStringInjective` | src/app/page.tsx:156 | different natural numbers have different texts |
| `Js.IntToStringInjective` | src/app/page.tsx:156 | different integers have different texts: the minus sign marks exactly the negative ones |
| `Generate.ParseAspect` | src/app/api/generate/route.ts:30-36 | the table finds only the four tags, each giving an aspect whose tag it is |
| `Generate.ParseAspectTag` | src/app/api/generate/route.ts:30-36 | every aspect's tag is found in the table and gives back that aspect |
| `Generate.RatioOf` | src/app/api/generate/route.ts:30-35 | both entries of every ratio are positive |
| `Generate.Round8` | src/app/api/generate/route.ts:43 | the result is a multiple of 8 and at least 64. Above 64 it is within 4 of n, halves up. At 64, n is below 68 |
| `Generate.Round8Monotone` | src/app/api/generate/route.ts:43 | snapping to 8 never reverses the order of two sides |
| `Generate.Dims` | src/app/api/generate/route.ts:28-45 | width and height are multiples of 8 and at least 64, for every aspect and resolution |
| `Generate.SquareIsSquare` | src/app/api/generate/route.ts:31-44 | 1:1 gives equal width and height at every resolution |
| `Generate.PortraitMirrorsLandscape` | src/app/api/generate/route.ts:30-44 | 3:4 is 4:3 with width and height swapped |
| `Generate.ShortSideAtMostLong` | src/app/api/generate/route.ts:39 | for a non-negative resolution the rounded short side is at most the resolution |
| `Generate.LongSideDominates` | src/app/api/generate/route.ts:37-44 | width ≥ height for 1:1, 4:3 and 16:9, and height ≥ width for 3:4, at every resolution |
| `Generate.ExactLongSide` | src/app/api/generate/route.ts:37-44 | a resolution that is a multiple of 8 and at least 64 is the long side exactly |
| `Generate.WidescreenAt1024` | src/app/api/generate/route.ts:28-45 | 16:9 at 1024 is 1024 × 576 |
| `Generate.RouteFor` | src/app/api/generate/route.ts:22-26 | the intended own-key lookup (see "## Findings"): an id has a route exactly when it is flux-pro, flux-dev or flux-schnell, and each of those gets its fixed route |
| `Generate.LookupAsWritten` | src/app/api/generate/route.ts:62 | as written, the lookup finds an own route exactly for the ids `Generate.RouteFor` routes, with the same route, and an inherited member exactly for the inherited names |
| `Generate.GuardRejectsAsWritten` | src/app/api/generate/route.ts:62-63 | as written, `!route` rejects exactly the ids that are neither own keys nor inherited names |
| `Generate.InheritedNameBypassesGuard` | src/app/api/generate/route.ts:62-68 | as written, any name an object literal inherits (such as `toString`) is not a supported model, yet gets past the `!route` guard |
| `Generate.ToStringBypassesGuard` | src/app/api/generate/route.ts:62-63 | the id "toString" gets past the guard as written |
| `Generate.StyleSuffix` | src/app/api/generate/route.ts:72-73 | the suffix is empty exactly when there is no style or an empty one; otherwise it is ", " followed by the lower-cased style |
| `Generate.ProviderPrompt` | src/app/api/generate/route.ts:72-73 | the provider prompt neither starts nor ends with white space and is no longer than the prompt and the style suffix together |
| `Generate.PromptWithoutStyle` | src/app/api/generate/route.ts:72-73 | with no style or an empty one, the provider prompt is the trimmed prompt ("" when absent) |
| `Generate.TrimEndCommaSpace` | src/app/api/generate/route.ts:73 | trimming the end of "…, " removes only the space |
| `Generate.PromptWithStyle` | src/app/api/generate/route.ts:72-73 | with a style, the prompt is: trimmed prompt + ", " + lower-cased style with its trailing white space removed. A style of only white space leaves just the comma |
| `Generate.CollectUrls` | src/app/api/generate/route.ts:94-96 | there are no more URLs than entries, and none is empty |
| `Generate.CollectUrlsAppend` | src/app/api/generate/route.ts:94-96 | the URLs of a concatenation are the URLs of its parts, so entry order is kept |
| `Generate.CollectUrlsMember` | src/app/api/generate/route.ts:94-96 | a URL is kept exactly when it is non-empty and some entry carries it, as a string or as an object's `url` |
| `Generate.CollectUrlStrings` | src/app/api/generate/route.ts:94-96 | an array of non-empty URL strings comes through unchanged |
| `Generate.ResultUrls` | src/app/api/generate/route.ts:89-101 | no URL is empty; without an `images` array there is at most one URL |
| `Generate.ImageIgnoredBesideImages` | src/app/api/generate/route.ts:93-97 | when `images` is an array, even an empty one, `image` plays no part |
| `Generate.SingleImageUrl` | src/app/api/generate/route.ts:97-101 | without an `images` array, a truthy `image` gives its one URL when that is non-empty, and nothing otherwise |
| `Generate.Prepare` | src/app/api/generate/route.ts:59-87 | the provider is called only for a known id and a known aspect. An unknown id gives 400 "Unsupported modelId: id", by the intended own-key lookup. The call carries the route, the composed prompt, the dimensions, seed and steps, 4 images unless given, and the safety checker |
| `Generate.Respond` | src/app/api/generate/route.ts:103-117 | a provider failure gives 500; success gives 200 with the normalised URLs in order and the call's dimensions. The seed is the provider's unless nullish (0 is kept), else the requested one |
| `Generate.Post` | src/app/api/generate/route.ts:47-119 | the status is 200, 400 or 500. It is 400 exactly for a readable body with an unsupported id, by the intended own-key lookup. Every success has dimensions that are multiples of 8, at least 64, and non-empty URLs |
| `Generate.UnknownModelRejected` | src/app/api/generate/route.ts:62-68 | an unsupported id gets 400, and the answer does not depend on the provider, so no call is made |
| `Generate.SuccessEchoes` | src/app/api/generate/route.ts:103-110 | a successful answer lists the normalised URLs in order and echoes the provider's or the requested seed and the dimensions of the aspect |
| `Generate.StringImagesEchoed` | src/app/api/generate/route.ts:93-110 | an `images` array of non-empty strings is echoed entry for entry |
| `Generate.FluxProSquare768` | src/app/api/generate/route.ts:62-110 | flux-pro at 1:1 and 768 asks for 768 × 768 and echoes an array of URL strings |
| `History.Store.Insert` | src/app/api/history/route.ts:168-172 | the statement succeeds exactly when the `?` marks match the arguments in number, the arguments bind to rows, and the new ids are distinct and not yet in the table (`id` is the primary key, src/server/db.ts line 17). It then appends the rows; otherwise the table is unchanged. Ids stay distinct |
| `History.DistinctAfterInsert` | src/server/db.ts:17 | appending rows whose ids are distinct and new keeps every id in the table distinct |
| `History.InCollection` | src/app/api/history/route.ts:38-41 | keeps exactly the rows of the collection, each as often as in the table |
| `History.InsertByAge` | src/app/api/history/route.ts:40 | inserting into a newest-first list keeps it newest first and adds exactly that row |
| `History.NoneAboveHead` | src/app/api/history/route.ts:40 | rows from the tail of a newest-first list, or no newer than its head, are no newer than its head |
| `History.SortByAge` | src/app/api/history/route.ts:40 | `ORDER BY created_at DESC`: newest first, with the same rows |
| `History.CutKeepsNewest` | src/app/api/history/route.ts:40 | every row a newest-first list loses at a cut is no newer than what it keeps |
| `History.Query` | src/app/api/history/route.ts:37-42 | returns min(200, size of the collection) rows, all of the collection, newest first, drawn from the table. No row of the collection left out is newer than one returned |
| `History.ToItem` | src/app/api/history/route.ts:43-55 | a row reads as the item whose values give back that very row exactly when no nullable column other than `style` is NULL |
| `History.NullRowDefaults` | src/app/api/history/route.ts:43-55 | a row whose nullable columns are NULL reads as: prompt "", style null, model "", aspect "1:1", seed, width and height 0, image URL "" |
| `History.Get` | src/app/api/history/route.ts:21-60 | 400 exactly for a missing or empty collection id. No store gives no items. Otherwise one item per queried row, in order: at most 200, all of the collection, newest first |
| `History.OnlyRowOfCollection` | src/app/api/history/route.ts:37-42 | a collection's first row is the whole of its read |
| `History.SingletonQuery` | src/app/api/history/route.ts:37-42 | a collection with one row reads as exactly that row |
| `History.ReadOneRow` | src/app/api/history/route.ts:43-59 | a collection whose query yields one row reads as that row's item |
| `History.UploadedUrl` | src/app/api/history/route.ts:126-131 | an uploaded URL is never empty |
| `History.UploadedUrlOrder` | src/app/api/history/route.ts:126-131 | takes the array's first entry, else the first of `data` as an array, else `data`; then its `url`, falling through to `ufsUrl` when `url` is empty |
| `History.MirroredUrl` | src/app/api/history/route.ts:98-136 | the stored URL differs from the posted one only when all of these hold: the secret is set, the URL is non-empty and lacks "utfs.io", and the upload gave a URL. When they hold, it is that URL |
| `History.BuildRow` | src/app/api/history/route.ts:137-149 | the row has a value in every column but `style`, and reads back as the item's fields with the given id and collection, the item's own `createdAt` or else `now`, and the stored URL |
| `History.PostedRows` | src/app/api/history/route.ts:94-151 | one row per item; row k has id `newId(k)`, the request's collection, item k's `createdAt` or else `now`, and a value in every column but `style` |
| `History.PostedRowsReadBack` | src/app/api/history/route.ts:94-149 | one row per item, in order. Each reads back with the item's fields, the request's collection, its fresh id, its own timestamp or the batch's, and the stored URL |
| `History.RowMarksCount` | src/app/api/history/route.ts:153 | one row's group holds eleven marks |
| `History.MarkListCount` | src/app/api/history/route.ts:153 | the mark list of an n-column group holds n marks |
| `History.PlaceholderMarks` | src/app/api/history/route.ts:153 | n groups joined by "," hold 11·n marks |
| `History.MarksMatchArgs` | src/app/api/history/route.ts:153-171 | the statement's `?` count equals the length of the flat arguments |
| `History.RowValues` | src/app/api/history/route.ts:154-166 | a row binds eleven values |
| `History.FlatArgs` | src/app/api/history/route.ts:154-166 | the flat arguments hold eleven values per row |
| `History.FlatArgsRowMajor` | src/app/api/history/route.ts:154-166 | argument 11k + c is column c of row k |
| `History.DecodeRow` | src/app/api/history/route.ts:154-166 | a row that eleven values bind to gives back those same values |
| `History.Decode` | src/app/api/history/route.ts:154-172 | the rows the arguments bind to flatten back to exactly those arguments |
| `History.DecodeRowValues` | src/app/api/history/route.ts:154-166 | one row's eleven values decode back to that row |
| `History.DecodeFlatArgs` | src/app/api/history/route.ts:154-172 | the flat arguments bind back, column by column, to exactly the rows they were built from |
| `History.HandlePost` | src/app/api/history/route.ts:62-178 | no store gives 501 first. An unreadable or `null` body throws: 500, nothing inserted. An invalid payload (falsy id, no array, empty array) gives 400 and inserts nothing. For a valid one the answer is 200 exactly when the new ids are free; it then appends the posted rows in item order. Otherwise the INSERT throws: 500, nothing inserted. Ids stay distinct |
| `History.WriteThenRead` | src/app/api/history/route.ts:21-178 | writing one item to a new collection (no mirror) and then reading that collection gives back exactly that item |
| `Studio.ModelsAreRouted` | src/app/page.tsx:13-17 | every model the page offers has a route at the endpoint |
| `Studio.SubmissionAccepted` | src/app/page.tsx:132-146 | the body the page posts is accepted: four images at the dimensions of the chosen aspect and resolution |
| `Studio.EntryUrls` | src/app/page.tsx:150 | there are no more URLs than entries, and none is empty |
| `Studio.EntryUrlsAppend` | src/app/page.tsx:150 | the URLs of a concatenation are the URLs of its parts, so entry order is kept |
| `Studio.EntryUrlsMember` | src/app/page.tsx:150 | a URL is kept exactly when it is non-empty and some entry carries it |
| `Studio.ClientView` | src/app/page.tsx:148-153 | a failed response is not ok, never a fetch failure; a successful one arrives with each image's `url` in order and with its seed, width and height |
| `Studio.EntryUrlsAllPresent` | src/app/page.tsx:150 | entries that all carry a non-empty URL come through one for one, in order |
| `Studio.ReplyUrls` | src/app/page.tsx:150 | the page's URLs are never empty; nullish `images` gives none |
| `Studio.UrlsArrive` | src/app/page.tsx:150 | a response whose URLs are non-empty reaches the page with the same URLs in the same order |
| `Studio.UrlBatch` | src/app/page.tsx:155-162 | render i of the batch carries URL i, seed base + i, id `now-i`, and the submitted prompt, style and aspect |
| `Studio.FallbackBatch` | src/app/page.tsx:167-177 | exactly four renders; render i has seed requested + i, the gradient of that seed, id `now-i`, and the submitted prompt, style and aspect |
| `Studio.MockImagePeriodic` | src/app/page.tsx:117-126 | for a non-negative seed, the seed and the seed plus 360 give the same gradient |
| `Studio.RenderIdsDistinct` | src/app/page.tsx:155-156 | with one clock reading per batch, the renders of a batch have distinct ids |
| `Studio.ServerUrlsArrive` | src/app/page.tsx:148-150 | every successful answer of the generation endpoint reaches the page with its URLs unchanged and in order |
| `Studio.FinalBatch` | src/app/page.tsx:150-177 | with URLs: one render per URL, seeds (response seed ?? requested seed) + i. With none: exactly 4 renders, seeds requested + i, gradient URLs. All carry the trimmed prompt, style, aspect and `now-i` ids |
| `Studio.FallbackIgnoresReplySeed` | src/app/page.tsx:165-177 | the fallback batch does not depend on the response's seed |
| `Studio.PrependCapped` | src/app/page.tsx:179 | length is min(100, batch + previous). The batch comes first, then the earlier renders that fit, in their order; a batch over 100 is cut to 100 |
| `Studio.HistoryPayload` | src/app/page.tsx:187-198 | the payload carries the page's collection id and one item per render, in order, with the render's prompt, style, aspect, seed and URL, the chosen model's id, the response's width and height or 0, and no `createdAt` |
| `Studio.PayloadAccepted` | src/app/page.tsx:182-198 | the history payload after any batch passes the history's validation |
| `Studio.RenderSurvivesHistory` | src/app/page.tsx:189-198 | a render posted to the history, stored without a mirror and read back, is the same render under its new id |
| `Studio.Studio.constructor` | src/app/page.tsx:40-53 | the page starts with an empty prompt, no style, the first model, 1:1 at 768, 30 steps, the given seed, not generating, an empty gallery |
| `Studio.Studio.CanGenerateWhen` | src/app/page.tsx:55 | a generation can start exactly when none is running and the prompt has a character that is not white space |
| `Studio.Studio.Submit` | src/app/page.tsx:128-146 | a submission starts exactly when `canGenerate` holds. It then raises `generating` and captures the trimmed prompt and the settings; otherwise nothing changes |
| `Studio.Studio.Complete` | src/app/page.tsx:148-209 | `generating` ends false. On a reply, the final batch is prepended and capped. The payload is posted only with a collection id. On failure the gallery stays and nothing is posted |
| `Studio.Studio.HandleGenerate` | src/app/page.tsx:128-210 | with `canGenerate` false nothing changes; otherwise the effects of `Complete` for the captured submission |
| `Studio.Studio.LoadHistory` | src/app/page.tsx:84-115 | with a collection id and a reply, the gallery becomes one render per item, in order, with the item's image URL; otherwise it stays |

## Left out

- `cfg` (the guidance scale) is a float passed through to the provider untouched. It is not modelled.
- The provider call, the image fetch and upload, and the page's fetches are network I/O. Each one's result is a parameter: `run`, `mirror`, `GenerateOutcome` and `HistoryOutcome`.
- `src/server/db.ts` holds the connection, `ensureSchema` and the SQL engine; of it, only the primary key on `id` is modelled. The table is the `Store` class, and reads and writes are stated as the contracts of the SELECT and the INSERT.
- `Promise.all` runs the per-item mirrors concurrently. The model runs them one after another, in item order, which is the order the rows come out in.
- `crypto.randomUUID`, `Date.now` and `Math.random` are parameters: `newId`, `now` and the seed given to the constructor. `Date.now()` in the render ids is one `now` per batch. The ids `newId` draws are not assumed distinct: a clash makes the INSERT fail.
- The `File` polyfill, and the extension and content type of the mirrored upload, are left out. Only the URL that comes back matters to the stored row.
- `Js.ToLower`: only A to Z are lowered. The rest of Unicode case mapping is not modelled.
- Resolution and steps are integers. A fractional resolution is not modelled.
- `numImages` absent and `null` are not distinguished. Both are None and default to 4, although JavaScript's default applies only to `undefined`.
- `History.Store.Insert` checks the number of marks, the primary key, the NOT NULL columns and the column types. The type check is a modelling choice: SQLite without STRICT tables stores any value in any column. The posted rows always pass it. The SQL text's shape is not checked.
- `History.HandlePost`: a failing `ensureSchema` or a failing connection (both uncaught, so 500) is not modelled. Neither are thrown getters or non-string fields in the posted items. Only an unreadable or `null` body and a failing INSERT give the 500 path.
- `History.Get`: a failing `ensureSchema` or SELECT (uncaught, so 500) is not modelled.
- `Generate.Post`: the as-written lookup, which lets inherited member names past the guard, is modelled by `Generate.LookupAsWritten` and `Generate.InheritedNameBypassesGuard`, not inside `Post` (see "## Findings").
- `Studio.RenderIdsDistinct`: the page calls `Date.now()` once per render; the model reads the clock once per batch.
- `History.Query`: SQL leaves the order of rows with equal `created_at` unspecified. The model keeps table order among equals, and its contract promises only newest first.
- The page's JSX, icons, CSS, `aspectPadding`, style presets, clipboard and history drawer are left out.
- The page's input controls are plain assignments to the `Studio` fields: prompt, style chips, model list, aspect, resolution and step sliders, and `resetSeed`.
- The collection id read from or written to the page URL is the constructor's `collection` parameter.
- `History.MirroredUrl`: a mirror that throws anywhere (fetch, upload or unwrapping) is the single outcome `MirrorThrew`.
- The outcome of the history POST the page sends is not modelled. The page ignores it apart from logging.
- `Studio.Studio.LoadHistory`: the cast `it.aspect as Aspect` is not checked at run time, so the render takes the item's aspect text as it is.
- Logging (`console.error`) is left out.

## Findings

| source | as written | input that shows it | evidently intended | confidence | as-written member | corrected member |
|---|---|---|---|---|---|---|
| src/app/api/generate/route.ts:62-68 | `MODEL_ROUTE[modelId]` indexes an object literal, which also yields the members it inherits from `Object.prototype`. These are truthy, so `!route` lets them through to the provider call, which fails with 500 | `modelId` = "toString" (or "constructor", "__proto__", …) | 400 "Unsupported modelId" for every id other than the three own keys | high; not executed | `Generate.InheritedNameBypassesGuard` | `Generate.UnknownModelRejected` |
