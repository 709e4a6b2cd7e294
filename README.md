# Trend-lens dashboard core, modelled in Dafny

This project models the service layer and two display helpers of a YouTube trend dashboard. The core is:

- **the video-listing client** (`src/services/youtube.ts`). It fetches the trending list page by page, up to a limit, following `nextPageToken`. It maps every API item to a video, and it looks up the details of one video.
- **the audience heuristic** (`src/services/analysis.ts`). It has a category-name table and six fixed demographic tables chosen by category id. A generative refinement falls back to the table on any failure.
- **the video summary** (`src/services/gemini.ts`). It makes one generation call and parses the whole reply. If that fails, it parses the block that `/\{[\s\S]*\}/` finds in the reply.
- **the hot keywords** (`src/services/trends.ts`). It has a guard and one generation call over the newline-joined titles. A parse failure yields `[]`.
- **the display helpers** (`src/components/dashboard/Views.tsx`). `formatViewCount` gives the compact Korean view count (회, 천회, 만회, 억회). `formatRelativeTime` gives the relative time.

The model has one module per source file: `YouTube`, `Analysis`, `Gemini`, `Trends` and `Views`. Two more modules support them: `Wrappers` holds `Option`, and `Strings` holds index search, truncation, join/split, and decimal show/parse.

Every outside service is a function parameter:

- The HTTP fetch is `fetch`, which answers a request with a page or a failure.
- The generation call is `generate`. It returns the reply text, or `None` when the call throws.
- `JSON.parse` is `parse`. It returns the document, or `None` when parsing throws.
- The API-key environment variables are `apiKey: bool`.
- "No call is made" is stated as: the result does not depend on the service parameter.

`GetTrendingVideos` is an imperative loop. It also returns the list of requests it issued. That list is specified by `IsRequestTrace`: each request is the one due after the earlier answers, and every answer but the last was a page with a next token.

## Model

| member | source | states |
|---|---|---|
| Analysis.GetCategoryName | src/services/analysis.ts:19-40 | a listed id gets its table name; the result is never empty; it is "Unknown" exactly when the id is not one of the sixteen listed |
| Analysis.TableTotals | src/services/analysis.ts:42-131 | every one of the six tables has six age shares; its gender shares and its age shares each add up to 100 |
| Analysis.PredictAudience | src/services/analysis.ts:42-134 | the estimate carries the category's display name; it has male then female with their colours and six age brackets; both share lists add up to 100; the brackets are the children's set for id "1" and the standard set otherwise; any id outside "20", "28", "26", "1", "25" gets 50/50 and 15/25/25/15/12/8 |
| Analysis.TableValues | src/services/analysis.ts:60-133 | the gender shares and the age shares are exactly the table row for the id, in order |
| Analysis.GamingAndUnknownScenarios | src/services/analysis.ts:61-74 | Gaming ("20") reads "Gaming" with 78/22 and ages 35/40/15/6/3/1; an unlisted id reads "Unknown" with the 50/50 and 15/25/25/15/12/8 default |
| Analysis.AudiencePromptFor | src/services/analysis.ts:149-173 | the request carries the title, a prefix of the description of length min(500, its length), and the heuristic's category name |
| Analysis.PredictAudienceWithAI | src/services/analysis.ts:136-184 | without a key the result is the heuristic table; with a key, a reply that parses gives exactly the parsed document; a result other than the table comes from a successful call whose reply parsed to exactly that document |
| Analysis.AIFailureFallsBack | src/services/analysis.ts:175-183 | a failed call or an unparseable reply gives exactly the heuristic table |
| Analysis.NoKeyIgnoresInputs | src/services/analysis.ts:137-139 | without a key neither the title, nor the description, nor the generation service changes the result |
| Analysis.OnlyDescriptionPrefixMatters | src/services/analysis.ts:153 | two descriptions that agree on their first 500 characters give the same refined estimate |
| Analysis.AIResultIsNotValidated | src/services/analysis.ts:177-179 | a parsed reply is returned even when its gender shares add up to 180 and it has no age brackets |
| Gemini.BraceSpan | src/services/gemini.ts:51 | there is no bound exactly when the text has no match of the pattern; a bound is the leftmost, then longest, match; no '{' lies before it and no '}' after it |
| Gemini.BraceBlock | src/services/gemini.ts:51-52 | the block starts with '{' and ends with '}'; it is the text of the reported match; there is none exactly when the pattern does not match |
| Gemini.GetAISummary | src/services/gemini.ts:11-61 | without a key the result is null; with a key, a reply whose whole text parses gives exactly that parse; any summary comes from a successful call and is the parse of the whole reply, or, when that fails, the parse of its brace block |
| Gemini.BraceBlockOfWrapped | src/services/gemini.ts:51-53 | a document wrapped in text with no '{' before it and no '}' after it is recovered exactly |
| Gemini.WrappedReplyIsSummarised | src/services/gemini.ts:46-54 | when the whole reply does not parse but the wrapped document does, that document is the summary |
| Gemini.NoKeyNoSummary | src/services/gemini.ts:13-16 | without a key the result is null, whatever the generation service would answer |
| Gemini.SummaryIsNotValidated | src/services/gemini.ts:47-48 | a reply that parses is returned as it is, even with no popularity factors |
| Trends.Titles | src/services/trends.ts:25 | one title per video, in input order |
| Trends.KeywordPromptFor | src/services/trends.ts:25-43 | the request lists every title in input order: when no title holds a newline, splitting the joined titles at newlines gives them all back |
| Trends.GetHotKeywords | src/services/trends.ts:14-60 | without a key or without videos the result is []; with both, a reply that parses gives exactly the parsed list; a non-empty result is the parse of the reply to the titles request |
| Trends.KeywordsAreNotValidated | src/services/trends.ts:50-51 | a parsed list is returned as it is, duplicates and an empty trend included |
| Trends.ParseFailureGivesNothing | src/services/trends.ts:49-55 | a reply that does not parse yields [] |
| Trends.GuardIgnoresService | src/services/trends.ts:15 | without a key or without videos the result is [], whatever the generation service would answer |
| YouTube.Thumbnail | src/services/youtube.ts:46 | the high-resolution URL when present and non-empty, otherwise the default one |
| YouTube.ListVideo | src/services/youtube.ts:42-50 | a listed video copies the item's id, title, channel, view count, publication time and category; its thumbnail is the `Thumbnail` choice; it carries no description |
| YouTube.PageVideos | src/services/youtube.ts:42-50 | one video per item, in item order, each the list mapping of its item; a failed answer has none |
| YouTube.DetailVideo | src/services/youtube.ts:81-90 | the detail mapping is the list mapping with the item's description added |
| YouTube.Iterations | src/services/youtube.ts:26 | the number of passes is the ceiling of limit / 50, and zero for a limit of zero or less |
| YouTube.GetTrendingVideos | src/services/youtube.ts:16-63 | without a key nothing is fetched and the result is []; at most ceil(limit / 50) requests; each request is the one due after the earlier answers (min(50, limit − gathered) results, the previous page's token); the loop stops early only after a failure or a page without a next token; a failure gives []; otherwise the result is every page's videos concatenated in fetch order |
| YouTube.TraceBounds | src/services/youtube.ts:26-30 | when the service never returns more items than asked for, every request asks for 1 to 50 results, and the gathered videos never exceed the limit |
| YouTube.GetVideoDetails | src/services/youtube.ts:65-95 | there is a result exactly when a key is set, the answer succeeded and it has at least one item; the result is the detail mapping of the first item |
| Strings.FirstIndexOf | src/services/gemini.ts:51 | the first position of the character, or none exactly when it does not occur |
| Strings.LastIndexOf | src/services/gemini.ts:51 | the last position of the character, or none exactly when it does not occur |
| Strings.Truncate | src/services/analysis.ts:153 | `substring(0, n)`: a prefix of length min(n, length) |
| Strings.Join | src/services/trends.ts:25 | `join`: no parts give "", the first part is a prefix of the result, and with two or more parts the separator follows it; `Strings.SplitJoin` is its inverse |
| Strings.SplitJoin | src/services/trends.ts:25 | splitting a newline join gives the parts back, when no part contains the separator |
| Strings.NatToString | src/components/dashboard/Views.tsx:51 | the decimal numeral of a count: at least one digit, only digits, no leading zero; `Strings.ParseNatToString` reads it back |
| Strings.ParseNatToString | src/components/dashboard/Views.tsx:51 | the decimal numeral of a count reads back as that count |
| Views.RoundToTenths | src/components/dashboard/Views.tsx:43-49 | the count in tenths of a unit, rounded to the nearest tenth with ties upwards |
| Views.ToFixed1 | src/components/dashboard/Views.tsx:43-49 | `toFixed(1)` of a count of tenths: digits, then a point, then one digit, with no other point |
| Views.ToFixed1ReadsBack | src/components/dashboard/Views.tsx:43-49 | `toFixed(1)` of a count of tenths reads back as that count and has no superfluous leading zero |
| Views.StripPointZero | src/components/dashboard/Views.tsx:43-49 | `replace(/\.0$/, '')`: a trailing ".0" is removed and nothing else; any other string is unchanged |
| Views.ShowTenthsReadsBack | src/components/dashboard/Views.tsx:43-49 | `toFixed(1)` followed by removing ".0" never ends in ".0" and has no superfluous leading zero; it keeps a decimal point exactly when the tenth is not zero; it reads back as the same count of tenths |
| Views.ShowWholeUnits | src/components/dashboard/Views.tsx:43-49 | a whole number of units is shown as its plain integer numeral |
| Views.ShowFractionalUnits | src/components/dashboard/Views.tsx:43-49 | any other count keeps its one decimal digit |
| Views.FormatViewCount | src/components/dashboard/Views.tsx:40-52 | the tier is chosen on the unrounded count: 억회 from 1e8, 만회 from 1e4, 천회 from 1e3; the numeral reads back as the count rounded to a tenth of the unit, never ends in ".0" and has no superfluous leading zero; below 1000 it is the plain count, without leading zero, with 회 |
| Views.WholeTenThousands | src/components/dashboard/Views.tsx:45-46 | k · 10000 views, for k from 1 to 9999, read "k만회" without a decimal (20000 views read "2만회") |
| Views.FractionalTenThousands | src/components/dashboard/Views.tsx:45-46 | t · 1000 views with t not a multiple of 10 read `toFixed(1)` of t tenths followed by 만회 (15000 views read "1.5만회") |
| Views.TierChosenBeforeRounding | src/components/dashboard/Views.tsx:45-50 | from 9951 to 9999 views the count reads "10천회", not "1만회" (9950 is a decimal tie, covered under `Views.RoundToTenths` in "## Left out") |
| Views.FormatRelativeTime | src/components/dashboard/Views.tsx:55-66 | "방금 전" exactly when less than an hour has passed, a future date included; the locale date exactly from 30 days on, and of the publication instant |
| Views.HoursAgoLabel | src/components/dashboard/Views.tsx:59-62 | from h to h + 1 hours ago, for h from 1 to 23, the label is "h시간 전" |
| Views.DaysAgoLabel | src/components/dashboard/Views.tsx:59-64 | from d to d + 1 days ago, for d from 1 to 29, the label is "d일 전" |

## Left out

- React components, hooks, the charts and the rest of `Views.tsx` are left out. They render state and hold no logic of the core.
- The fixed instruction wording of the three generation prompts is left out. A prompt is modelled by the values it interpolates.
- The model name and the generation configuration are left out, and so is console logging.
- The parsed JSON is assumed to have the document type the code casts it to. A cast does not check this, so a malformed shape is not modelled. Numbers in parsed documents are modelled as integers.
- `Analysis.GetCategoryName` does not model JavaScript prototype lookups. In the source, ids such as "constructor" or "toString" find an inherited member instead of "Unknown".
- `YouTube.GetTrendingVideos`: a non-OK status, a thrown network error, an unreadable body and a missing `items` array are all modelled as one failed answer.
- `YouTube.GetTrendingVideos`: an absent `nextPageToken` is modelled as the empty token. Both are falsy in the client.
- `YouTube.GetTrendingVideos`: the region code, the limit and the key are sent inside a URL, which is not modelled. The default arguments ("KR", 100) are not modelled either.
- The returned request list is a device for stating the calls the loop makes. The source returns only the videos.
- Each API item is assumed to have its `snippet`, `thumbnails` and `statistics` objects. In the source, an item without one of them throws inside the mapping, and the whole list becomes []; that case is not modelled.
- The `rank` field of a video is never set by these functions, so it is not modelled. A missing `categoryId` from the API is modelled as a string.
- A missing thumbnail URL is modelled as `None`. In the source it is `undefined`.
- `Strings.Truncate` counts characters, whereas JavaScript's `substring` counts UTF-16 code units.
- `Views.FormatViewCount` takes a non-negative integer. The source first converts a string with `Number`, which gives `NaN` for non-numeric input; that path is not modelled, and neither are fractional or negative counts.
- `Views.RoundToTenths` rounds exact ties upwards on the exact quotient. JavaScript's `toFixed(1)` rounds the binary double, which can differ at ties. Counts above 2^53 are also not modelled.
- `Views.FormatViewCount`: below 1000 the count is shown as a plain numeral. `toLocaleString` adds no grouping separator below 1000, but locale digits are not modelled.
- `Views.FormatRelativeTime` takes both instants in milliseconds. The clock (`new Date()`), the date parsing, invalid dates (`NaN`) and the formatting done by `toLocaleDateString` are left out. The locale date is returned as the instant it formats.
- The concurrency of the asynchronous calls is not modelled. Each function makes its service calls in sequence.
