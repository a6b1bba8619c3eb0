# Provenance — a Dafny model of the scan, analyse and expand core

Provenance is a small web application. The user photographs an object. The
browser shrinks the photo and posts it to a server handler. That handler asks a
language model for the object's history: a title, a summary, a timeline and the
components the object is made of. The page then draws the timeline as a tree.
Clicking a component branch asks a second handler for that component's detailed
history. The last six scans are kept in the browser's local storage.

This project models that core in Dafny and proves properties of the model.

| module (file) | source | what it models |
|---|---|---|
| `Types` (types.dfy) | src/lib/types.ts | the records and the five-colour branch palette |
| `Storage` (storage.dfy) | src/lib/storage.ts | the stored scan history as a class over the stored value. Reading drops old-format records and rewrites the store when it dropped any. Saving puts the new scan in front and keeps six. |
| `ImageUtils` (image_utils.dfy) | src/lib/imageUtils.ts | the canvas size computation, with `Math.round` done exactly in integers, and the quality-0.8-then-0.6 budget fallback |
| `Fences` (fences.dfy) | both route.ts files | the clean-up of a model reply: removing the ```` ```json ```` and ```` ``` ```` fences and `trim` |
| `Json`, `Routes`, `AnalyzeRoute`, `ExpandRoute` | src/app/api/analyze/route.ts, src/app/api/expand/route.ts | the decision chain of both handlers, from the request body to the status code and reply |
| `ProvenanceTree` (provenance_tree.dfy) | src/components/ProvenanceTree.tsx | the per-component expansion state machine as a class over a map, plus the pure helpers: filter by year, colour index and displayed history |
| `Page` (page.dfy) | src/app/page.tsx | the `idle`/`loading`/`results`/`error` machine as a class with the page's five state fields and its handlers |
| `Seqs`, `Wrappers` | — | generic sequence functions (`filter`, `slice`, `indexOf`) and `Option`/`Result` |

JavaScript semantics the model spells out:

- **Truthiness:** an empty string is falsy and any array is truthy.
- **`%`:** it truncates, so `indexOf` = -1 gives -1 and not 4.
- **`String.prototype.trim`:** it uses the ECMAScript whitespace set.
- **Global `replace`:** it is a left-to-right removal of matches that do not overlap.
- **`Math.round(a / b)`:** it is computed as `(2a + b) div 2b`.
- **Property read on `null`:** it throws a `TypeError`. Both handlers catch it in their catch-all.

The model follows the code wherever the two could differ. One such place is the
size budget. The code compares `length * 3 / 4` with 3 MiB as a rational
number. `ImageUtils.OverBudgetIsCeiling` proves that this is the same test as
comparing the decoded size `ceil(3 * length / 4)`.

## Model

| member | source | states |
|---|---|---|
| Storage.Encode | src/lib/storage.ts:48 | a scan written by `JSON.stringify` is always a record that `isValidScan` accepts |
| Storage.EncodeRoundTrip | src/lib/storage.ts:24-33 | a stored scan reads back as itself, and a valid record read and written back is the same record |
| Storage.ValidEntries | src/lib/storage.ts:20-37 | a read keeps exactly the valid records, in stored order, as a subsequence of what is stored. It keeps nothing when the key is absent or empty, when the text is not an array, or when a record is `null`. |
| Storage.ValidEntriesCounts | src/lib/storage.ts:26 | a read keeps every copy of a valid record and no copy of an invalid one |
| Storage.AfterSave | src/lib/storage.ts:39-48 | after saving, the new record is first and is followed by the first five records a read returned. The array holds 1 to 6 records. |
| Storage.RewriteOnlyWhenDropped | src/lib/storage.ts:28-31 | a read rewrites the store if and only if the store holds an array without nulls that contains some invalid record |
| Storage.ReadTwice | src/lib/storage.ts:17-37 | a second read returns the same scans and rewrites nothing |
| Storage.UnreadableReadsEmpty | src/lib/storage.ts:21-24 | an absent key or a value that is not an array reads as no scans and is left unchanged |
| Storage.SaveThenRead | src/lib/storage.ts:39-48 | after `saveScan(s)`, a read returns `s` in front of the scans read before, cut to six, and does not rewrite the store |
| Storage.SaveInvalidIsDropped | src/lib/storage.ts:39-48 | `saveScan` does not validate. An invalid record is stored in front, and the next read drops it together with the scan it pushed out. After a stored `null`, the next read returns nothing. |
| Storage.SavesPush | src/lib/storage.ts:43-47 | saving several scans one after another pushes each onto the front of the list a read returns, keeping six |
| Storage.SavesKeepNewest | src/lib/storage.ts:4-47 | after one or more saves, a read returns the saved scans newest first, ahead of the older scans, cut to `MAX_SCANS` |
| Storage.SevenSaves | src/lib/storage.ts:4 | after seven saves, exactly the last six remain, newest first |
| Storage.ScanStore.constructor | src/lib/storage.ts:21 | the store starts as the value under the key |
| Storage.ScanStore.GetRecentScans | src/lib/storage.ts:17-37 | returns the valid scans and leaves the store as `AfterRead` describes: rewritten with only the valid records if and only if some were dropped |
| Storage.ScanStore.SaveScan | src/lib/storage.ts:39-52 | the new store is the record followed by the scans read, cut to six |
| Storage.ScanStore.ClearScans | src/lib/storage.ts:54-62 | the key is removed, so a read returns nothing |
| Seqs.Filter | src/lib/storage.ts:26 | `filter` returns no more elements than its input, and each of them satisfies the predicate |
| Seqs.FilterExact | src/lib/storage.ts:26 | an element is in the filtered sequence if and only if it is in the input and satisfies the predicate. Every copy of a kept element stays: its count is its count in the input, and the count of a dropped element is 0. The filtered sequence is a subsequence of the input. |
| Seqs.FilterKeepsAll | src/lib/storage.ts:29 | the filtered sequence has the input's length if and only if every element satisfies the predicate, and then it is the input |
| Seqs.FilterIdempotent | src/lib/storage.ts:26 | filtering twice is filtering once |
| Seqs.Take | src/lib/storage.ts:47 | `slice(0, n)` has length `min(|s|, n)` and holds the first elements of `s` |
| Seqs.TakeOfConsTake | src/lib/storage.ts:45-47 | taking `n` after putting one element in front of an `n`-prefix is the same as taking `n` of the whole |
| Seqs.PushAllReversed | src/lib/storage.ts:45-47 | repeated bounded pushes leave the pushed elements newest first, ahead of the old ones, cut to `n` |
| Seqs.IndexOf | src/components/ProvenanceTree.tsx:117 | `indexOf` returns -1 if and only if the element is absent. Otherwise it returns the first position holding the element. |
| ImageUtils.RoundDiv | src/lib/imageUtils.ts:17 | the integer quotient is `Math.round(a / b)`: the nearest integer, with halves rounded up |
| ImageUtils.RoundedUnique | src/lib/imageUtils.ts:17 | only one integer satisfies the rounding bounds |
| ImageUtils.RoundedAtMost | src/lib/imageUtils.ts:17 | when `a <= b * m`, the rounded quotient is at most `m` |
| ImageUtils.ResizeUnique | src/lib/imageUtils.ts:14-25 | the canvas size is a function of the image size |
| ImageUtils.ResizeBounds | src/lib/imageUtils.ts:14-25 | neither canvas side exceeds 1500. The image exceeded 1500 if and only if the canvas differs from the image and its longest side is exactly 1500. A landscape image stays landscape or becomes square, and a portrait or square image stays portrait or square. |
| ImageUtils.OverBudgetIsCeiling | src/lib/imageUtils.ts:44-46 | the rational estimate exceeds 3 MiB if and only if the decoded size `ceil(3n/4)` does |
| ImageUtils.ResizeToFit | src/lib/imageUtils.ts:12-25 | the reassigned width and height are the resize of the image size: kept when within 1500, otherwise longest side 1500 and the other side scaled and rounded |
| ImageUtils.CompressImage | src/lib/imageUtils.ts:5-75 | a read failure or a decode failure rejects with its own message and draws no canvas. Without a 2D context it rejects before any encoding. Otherwise it encodes at 0.8 first. A 0.8 encoding within budget is returned. If 0.8 is over budget it tries 0.6, returns that if it is within budget, and rejects as too large if not. The canvas has the resized size. |
| Fences.RemoveAll | src/app/api/analyze/route.ts:102-103 | a global removal never lengthens the text |
| Fences.TrimStart | src/app/api/analyze/route.ts:104 | the result is a suffix that starts at a non-whitespace character, and everything removed is whitespace |
| Fences.TrimEnd | src/app/api/analyze/route.ts:104 | the result is a prefix that ends at a non-whitespace character, and everything removed is whitespace |
| Fences.Trim | src/app/api/analyze/route.ts:104 | the result has whitespace at neither end |
| Fences.RemoveFenceLeavesNone | src/app/api/analyze/route.ts:103 | after removing every ```` ``` ```` no three consecutive backticks remain |
| Fences.TrimKeepsNoFence | src/app/api/analyze/route.ts:104 | trimming creates no fence |
| Fences.CleanLeavesNoFence | src/app/api/analyze/route.ts:101-104 | the cleaned text never contains three consecutive backticks |
| Fences.RemoveAbsentToken | src/app/api/analyze/route.ts:102-103 | a token that starts with a fence is a no-op on fence-free text |
| Fences.TrimStartOfTrimmed | src/app/api/analyze/route.ts:104 | trimming trimmed text changes nothing |
| Fences.CleanIdempotent | src/app/api/analyze/route.ts:101-104 | cleaning twice is cleaning once |
| Fences.RemoveSkipsBacktickFree | src/app/api/analyze/route.ts:102-103 | a backtick-free prefix passes through a removal unchanged |
| Fences.RemoveFromBacktickFree | src/app/api/analyze/route.ts:102-103 | removal leaves backtick-free text unchanged |
| Fences.StripJsonFence | src/app/api/analyze/route.ts:102 | the first removal strips the opening ```` ```json ```` and its newline |
| Fences.StripClosingFence | src/app/api/analyze/route.ts:103 | the second removal strips the closing fence |
| Fences.TrimDropsNewline | src/app/api/analyze/route.ts:104 | trimming drops the newline that remains before the closing fence |
| Fences.CleanFenced | src/app/api/analyze/route.ts:101-105 | cleaning a fenced reply yields exactly the JSON inside the fence, and cleaning leaves an unfenced reply unchanged |
| Routes.Complete | src/app/api/analyze/route.ts:90-121 | after the model has answered, the status is 200 or 500. A thrown call gives the catch-all message. Empty content gives "No response from AI" and a failed parse gives "Failed to parse AI response". A parsed `null` throws on the first property read and gives the catch-all message. A parsed value with a missing or falsy required field gives "Invalid response structure from AI". The status is 200 if and only if every required field is truthy, and then the reply is the parsed value itself. |
| Routes.HasFieldsIsObjectWithKeys | src/app/api/analyze/route.ts:114 | a value passes a non-empty presence check if and only if it is an object holding every required key with a truthy value |
| Routes.CompleteIgnoresFence | src/app/api/analyze/route.ts:100-105 | a non-empty reply wrapped in a ```` ```json ```` fence is answered exactly as the bare reply |
| AnalyzeRoute.Analyze | src/app/api/analyze/route.ts:35-129 | an unreadable or `null` body gives the 500 catch-all. The status is 400 if and only if the image is missing or falsy. A missing key gives 500. A 200 reply carries the parsed model answer with four truthy fields. |
| AnalyzeRoute.AnalyzeAfterGuards | src/app/api/analyze/route.ts:90-128 | once the guards pass, each outcome of the model call maps to its own reply |
| AnalyzeRoute.GuardsPrecedeModelCall | src/app/api/analyze/route.ts:37-62 | with a missing image or key, the reply does not depend on the model or the parser |
| AnalyzeRoute.AnalyzeIgnoresFence | src/app/api/analyze/route.ts:100-121 | a fenced answer and the bare answer give the same reply |
| AnalyzeRoute.OkReplyHasProvenanceFields | src/app/api/analyze/route.ts:114-121 | a 200 reply is an object whose `title`, `summary`, `timeline` and `components` are present and truthy |
| ExpandRoute.UserMessage | src/app/api/expand/route.ts:59 | the message is the fixed text with the two inputs interpolated, and its length is the sum of the parts |
| ExpandRoute.UserMessageDeterminesRequest | src/app/api/expand/route.ts:59 | when the component names contain no double quote, equal messages come from equal name and title |
| ExpandRoute.Expand | src/app/api/expand/route.ts:23-105 | an unreadable or `null` body gives the 500 catch-all. The status is 400 if and only if either input is falsy. A missing key gives 500. A 200 reply carries the parsed answer with a truthy `name` and `history`. |
| ExpandRoute.ExpandAsksAboutStrings | src/app/api/expand/route.ts:25-59 | for string inputs, the model is asked exactly about those strings |
| ExpandRoute.ExpandAfterGuards | src/app/api/expand/route.ts:66-104 | once the guards pass, each outcome of the model call maps to its own reply |
| ExpandRoute.ExpandIgnoresFence | src/app/api/expand/route.ts:76-97 | a fenced answer and the bare answer give the same reply |
| ExpandRoute.OkReplyHasDetailFields | src/app/api/expand/route.ts:90-97 | a 200 reply is an object whose `name` and `history` are present and truthy |
| ProvenanceTree.Toggle | src/components/ProvenanceTree.tsx:28-53 | an expanded entry collapses with its other fields kept. A closed entry with a cached history opens with its other fields kept. Anything else becomes `{loading: true, expanded: false}` and a fetch starts. Only the clicked key changes. |
| ProvenanceTree.Resolve | src/components/ProvenanceTree.tsx:55-66 | success opens the entry on the fetched history. Failure closes it with nothing cached. Only that key changes. |
| ProvenanceTree.TransitionsKeepWellFormed | src/components/ProvenanceTree.tsx:28-66 | after every transition, a loading entry is closed with no history and an open entry has a history. A click that fetches nothing leaves the entry not loading. |
| ProvenanceTree.ToggleTwiceWithCache | src/components/ProvenanceTree.tsx:32-47 | with a cached history, two clicks restore the map and the `expanded` flag, and neither click fetches |
| ProvenanceTree.ClickWhileLoadingFetchesAgain | src/components/ProvenanceTree.tsx:41-53 | a click while a fetch is in flight starts another fetch |
| ProvenanceTree.AfterFetch | src/components/ProvenanceTree.tsx:41-66 | after a failed fetch the next click fetches again. After a successful one, the next two clicks reuse the history. |
| ProvenanceTree.ComponentsAtYear | src/components/ProvenanceTree.tsx:73-75 | returns exactly the components that connect at the year, every copy of each, in their original order. A result without components gives none. |
| ProvenanceTree.JsRem | src/components/ProvenanceTree.tsx:117 | JavaScript `%` takes the sign of the dividend. It agrees with the mathematical remainder for non-negative dividends and keeps dividends smaller than the divisor, so -1 stays -1. |
| ProvenanceTree.ColorIndex | src/components/ProvenanceTree.tsx:117 | a listed component gets a palette index from 0 to 4, and an unlisted one gets -1 |
| ProvenanceTree.ColorOfBranch | src/components/ProvenanceTree.tsx:114-118 | every branch the tree draws gets a colour from the palette |
| ProvenanceTree.ColorCycles | src/components/ProvenanceTree.tsx:117-118 | the first occurrence of a component at position `i` gets colour `i mod 5` |
| ProvenanceTree.DisplayHistory | src/components/ProvenanceTree.tsx:162-164 | the shown history is the component's own or the entry's cached one |
| ProvenanceTree.DisplayAfterTransitions | src/components/ProvenanceTree.tsx:162-164 | the fetched history is shown after a successful fetch and after reopening. The component's own history is shown while loading, after a failure and after collapsing. |
| ProvenanceTree.ExpansionState.constructor | src/components/ProvenanceTree.tsx:26 | no component starts expanded |
| ProvenanceTree.ExpansionState.HandleExpandComponent | src/components/ProvenanceTree.tsx:28-53 | the map and the decision to fetch are exactly `Toggle`'s, and the well-formedness invariant is kept |
| ProvenanceTree.ExpansionState.CompleteExpansion | src/components/ProvenanceTree.tsx:55-66 | the map is exactly `Resolve`'s, and the well-formedness invariant is kept |
| Page.ScanOutcome | src/app/page.tsx:31-67 | the scan succeeds if and only if compression succeeded and the reply was OK. A compression failure keeps its own message. A rejected reply shows its `error` when that is a non-empty string, and otherwise "Failed to analyze image". A thrown `Error` shows its message, and a thrown non-`Error` shows "An unexpected error occurred". |
| Page.RejectionsShowRouteMessage | src/app/page.tsx:45-48 | every non-OK reply of the analysis handler carries one of its own non-empty messages, and the page shows that message |
| Page.ErrorFieldIsErrorProperty | src/app/page.tsx:46-47 | the `error` read by the page is exactly the string that the property read `errorData.error` gives, and it reads back the message of every error reply the handlers build |
| Page.PageRequestHasImage | src/app/page.tsx:37-43 | the page's request with a non-empty image never gets "No image provided" |
| Page.Home.Render | src/app/page.tsx:93-151 | the header shows outside `results`. The results view shows if and only if the state is `results` with a result and a non-empty image. The other states show the picker with the recent scans, the loading preview, or the error message. |
| Page.Home.constructor | src/app/page.tsx:16-25 | the page starts `idle` with nothing current, and the recent scans are read once on mount |
| Page.Home.BeginScan | src/app/page.tsx:27-29 | the state becomes `loading` and the error is cleared. The image and result are kept, so until compression ends the preview shows the previous image. |
| Page.Home.CompressionSettled | src/app/page.tsx:33-34 | on success the compressed image becomes current while the state stays `loading`, so the preview switches to the new image. On failure the state is `error` with the compression's message, and the image is kept. The result and history are unchanged. |
| Page.Home.ReplySettled | src/app/page.tsx:37-67 | a failed request leaves the state `error` with the outcome's message, and the result, history and store unchanged. On success the result is set, the scan is saved, `recentScans` is the new scan ahead of the earlier ones, cut to six, and the state is `results`. |
| Page.Home.CompleteScan | src/app/page.tsx:31-67 | the two steps in order, with the request made only after a successful compression. `currentImage` is set only when compression succeeded. On failure the state is `error` with the outcome's message, and the result, history and store are unchanged. On success the result is set, the scan is saved, and `recentScans` is the new scan ahead of the earlier ones, cut to six. The state is `results`, which renders the new result. |
| Page.Home.SelectScan | src/app/page.tsx:70-74 | the state is `results` with the scan's image and result. The page renders them, or renders nothing when the stored image is empty. |
| Page.Home.ScanAgain | src/app/page.tsx:76-81 | the state is `idle` with image, result and error cleared |
| Page.Home.ClearHistory | src/app/page.tsx:83-86 | the store and `recentScans` are both emptied and nothing else changes |
| Page.Home.Retry | src/app/page.tsx:88-91 | the state is `idle` and only the error is cleared. The image and result of the failed attempt stay. |

## Left out

- **Network and model calls:** the model call (`chat.completions.create`) and the `fetch` calls are not modelled. Each is a parameter: `gateway`, `Completion` and `ApiResponse`.
- **Parsing:** `JSON.parse` and `request.json()` are parameters too, so the JSON grammar is not modelled.
- **Environment:** the API-key lookup is a boolean. `SITE_URL`, the headers, the prompt text, `max_tokens` and `temperature` are not modelled.
- **Browser image APIs:** `FileReader`, `Image` and `canvas.toDataURL` are not modelled. `CompressImage` takes the file's readability and decoded size, whether a 2D context exists, and the encoder as a function of quality.
- **Randomness and clocks:** `generateId`, `Math.random` and `Date.now` are parameters (`id`, `timestamp`).
- **Server-side rendering:** the `typeof window === 'undefined'` guard is not modelled, because the model is always the browser side.
- **Storage errors:** quota and security errors from `localStorage` are not modelled. Two consequences follow:
  - `saveScan` and `clearScans` swallow those errors, which the model does not show;
  - a failing rewrite inside `getRecentScans` would make that read return `[]`, which the model also does not show.
- **Stored values:** the store holds `Option<Stored>` rather than the raw string. Texts that are not arrays are all `Unreadable`. Primitive array elements other than `null` are treated like records without a result. Fields other than `result.components` and `result.timeline` are taken as well-typed.
- ExpandRoute.RequestMessage: numbers are converted to text by an abstract `numberText` parameter rather than JavaScript's number-to-string algorithm.
- ColorIndex: `indexOf` compares by value in the model and by reference in the source. The two differ only for two components with equal fields, where the model gives both the first one's colour.
- Page.ScanOutcome: a non-OK reply whose `error` is truthy but not a string would be converted with `String`. The model treats it as missing, which the analysis handler never produces.
- **Page results:** on the page side the result of an OK reply is taken to be a `ProvenanceResult`. A reply whose `timeline` or `components` is truthy but not an array is not modelled.
- RoundDiv: computes `Math.round` exactly on rationals. The source divides in floating point first, which can differ only when `height * 1500 / width` lies within rounding error of a half.
- **Concurrency:** the asynchronous interleavings are not modelled. These include two expansions of the same component in flight at once, where the later response wins, and the stale `current` captured by the click handler's closure. The model reads the current map, which equals the closure's value when clicks are handled one render apart.
- **Rendering:** class names, animation, the loading screen's timed messages and the other presentational components are not modelled.
