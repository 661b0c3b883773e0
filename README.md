# youtube-search: a Dafny model

The model covers the logic of a football-highlights web app (gerasimovpk/youtube-search) and of its small football-data.org proxy, with proofs.

**Spoiler sanitiser.**
- Hides match scores in video titles.
- Nine score regular expressions run one after another. Each is a global replace that writes a `__SCORE_<i>__` placeholder.
- A placeholder wrapped in brackets then collapses to `***`, and every remaining placeholder becomes `***`.
- Each pattern is matched by a backtracking matcher over `seq<char>`. It covers `\b`, greedy `\d{1,2}`, `\d+`, `\s*`, character classes and the case-insensitive `to`.
- A global replace is the leftmost, non-overlapping scan of JavaScript's `String.prototype.replace` with the `g` flag.

**Duration formatter.**
- Turns a YouTube ISO 8601 duration such as `PT4M13S` into a clock text.
- It reads the text after the first `PT` through the optional groups `(\d+H)?(\d+M)?(\d+S)?`.
- The digit strings are copied unchanged. Seconds are always padded to two characters, minutes only when hours are present.

**Video lookups.**
- The durations record filled from a `videos.list` reply.
- The `Video` built for a permalinked id.

**Video store.**
- The Redux slice that holds the search state, as a class whose methods are the reducers.
- Its invariant: every list title is the sanitised original title while spoilers are hidden, and the original title otherwise.

**Featured matches.**
- The top-club list and the match priority.
- An in-place sort of the reply's array by the two-key comparator, then the first nine matches.
- The badges and the search text a match click produces.

**Relative dates.** The "N hours/days/weeks ago" label.

**Routes.** The root and `search` loaders, the two revalidation rules, and the route table with its catch-all redirect.

**Proxy.**
- The target URL and the outbound headers.
- The Express response on success and on failure.
- The start-up check for the API key.

Files:
- `wrappers.dfy`: `Option`, and the `||` fallback on optional strings.
- `text.dfy`: digits, decimal printing, `padStart`, `indexOf`, `replace` with a string pattern.
- `spoiler.dfy`, `spoiler_cases.dfy`: the sanitiser, and its worked cases from the test file.
- `types.dfy`: the `Video` record.
- `youtube.dfy`: `formatDuration`, `fetchVideoDetails` and `fetchVideoById`.
- `video_slice.dfy`: the store.
- `featured_matches.dfy`: the featured-matches component.
- `date_utils.dfy`: `formatPublishedDate`.
- `router.dfy`, `router_tsx.dfy`: the two router files.
- `proxy_server.dfy`: the proxy.

Modelling choices:
- Network calls are inputs to the model: their outcomes arrive as values (`YouTube.Fetched`, `Router.SearchOutcome`, `FeaturedMatches.Reply`), and the proxy's upstream call is a function parameter.
- The clock is the parameter `now`. Timestamps are integer milliseconds.
- `toLocaleDateString`'s output is the parameter `localeDate`. The year of a kickoff is the parameter `year`.
- The proxy server file has no response cache, so none is modelled.

## Model

| member | source | states |
|---|---|---|
| Text.PadStart | src/utils/youtube.ts:59-65 | `padStart` pads on the left with the fill character up to the width. It never truncates, and the original text is the suffix. |
| Text.IndexOf | src/utils/youtube.ts:53 | None exactly when the pattern does not occur. Otherwise the result is an occurrence with no earlier one. |
| Text.ReplaceFirst | football-proxy-server/src/server.ts:38 | Text without the pattern is unchanged. |
| Text.ReplaceFirstAtLeftmost | football-proxy-server/src/server.ts:38 | A string-pattern `replace` cuts out exactly the leftmost occurrence and keeps the text on both sides. |
| Spoiler.SpaceRun | src/utils/spoilerUtils.ts:6-7 | `\s*` takes the whole run of white-space characters, and the next character is not white space. |
| Spoiler.Downward | src/utils/spoilerUtils.ts:5-19 | The end order of the greedy `\d+` and `\s*`: every end of the run, longest first. |
| Spoiler.AtomEnds | src/utils/spoilerUtils.ts:5-19 | Every end an atom offers lies in the text. A digit atom needs a digit where it starts. |
| Spoiler.Match | src/utils/spoilerUtils.ts:5-19 | A match ends inside the text. A pattern containing a digit atom consumes at least one character. |
| Spoiler.FirstOfNone | src/utils/spoilerUtils.ts:5-19 | Backtracking fails exactly when the rest of the pattern fails from every alternative. |
| Spoiler.FirstOfPicksFirst | src/utils/spoilerUtils.ts:5-19 | Backtracking takes the match of the first alternative that succeeds. |
| Spoiler.FindFrom | src/utils/spoilerUtils.ts:26 | A found match starts at or after the search position, within the text, and is the match the pattern makes there. |
| Spoiler.FindFromLeftmost | src/utils/spoilerUtils.ts:26 | The found match is the leftmost one, with none before it. None means no match from any position. |
| Spoiler.Scan | src/utils/spoilerUtils.ts:26 | A global regular expression finds spans in order, without overlaps. |
| Spoiler.ReplaceFromStep | src/utils/spoilerUtils.ts:26 | A global replace copies text up to the leftmost match, writes the replacement, and goes on after the match. |
| Spoiler.SpliceOriginals | src/utils/spoilerUtils.ts:26 | Outside the replaced spans the text is copied verbatim and in order. |
| Spoiler.ReplaceAllOnlyInMatches | src/utils/spoilerUtils.ts:26 | A global replace changes the text only inside the matches found, and putting their own text back gives the input. |
| Spoiler.PatternsHaveDigits | src/utils/spoilerUtils.ts:5-19 | Every score pattern and both placeholder patterns need a digit. |
| Spoiler.PlaceholderIsPlaceholder | src/utils/spoilerUtils.ts:26 | `__SCORE_<i>__` has the placeholder form. |
| Spoiler.NoDigitNoMatch | src/utils/spoilerUtils.ts:5-19 | A pattern that needs a digit matches nowhere in text without digits. |
| Spoiler.NoDigitUnchanged | src/utils/__tests__/spoilerUtils.test.ts:57-60 | Text without an ASCII digit is returned unchanged. |
| Spoiler.EmptyUnchanged | src/utils/__tests__/spoilerUtils.test.ts:62-64 | The empty string maps to the empty string. |
| Spoiler.MatchesPlaceholder | src/utils/spoilerUtils.ts:33 | The final pattern matches every placeholder occurrence, exactly up to its end. |
| Spoiler.NoPlaceholderLeft | src/utils/spoilerUtils.ts:33 | The sanitised text contains no `__SCORE_<digits>__`. |
| Spoiler.SanitizeFootballScore | src/utils/spoilerUtils.ts:1-36 | The loop of nine passes in list order, the bracket collapse and the final pass compute `Sanitize`. The output has no placeholder left, and text without digits comes back unchanged. |
| SpoilerCases.WholeScore | src/utils/spoilerUtils.ts:25-33 | A text matched whole by the k-th pattern, and by no earlier pattern anywhere, becomes `***`. |
| SpoilerCases.DashScore | src/utils/__tests__/spoilerUtils.test.ts:11-12 | The bare score `2-1` of the test title becomes `***`. The whole title is not proved. |
| SpoilerCases.SpacedScore | src/utils/__tests__/spoilerUtils.test.ts:52-55 | The bare score `2  :  1` of the test title becomes `***`. The whole title is not proved. |
| SpoilerCases.ToScore | src/utils/__tests__/spoilerUtils.test.ts:31-32 | The bare score `3 to 1` of the test title becomes `***`. The whole title is not proved. |
| SpoilerCases.AggregateScore | src/utils/__tests__/spoilerUtils.test.ts:7-8 | The bare score `1 (2)`, the first of the test title's two, becomes `***`. The whole title is not proved. |
| SpoilerCases.BracketScore | src/utils/__tests__/spoilerUtils.test.ts:23-24 | The bracketed score `(5:3)` becomes `***`, brackets included. |
| SpoilerCases.WrappedCollapses | src/utils/spoilerUtils.ts:30 | A placeholder wrapped in one of `[(` and one of `])` collapses, brackets included, to `***`. |
| SpoilerCases.NoOpenerUnchanged | src/utils/spoilerUtils.ts:30 | The bracket pass leaves text without `[` or `(` alone. |
| SpoilerCases.StarsStay | src/utils/spoilerUtils.ts:33 | The final pass leaves `***` alone. |
| YouTube.ReadGroup | src/utils/youtube.ts:53 | An optional `(\d+X)` group captures digits only. A skipped group leaves the text as it was; a taken group is its digits and designator at the head of the text, and matching goes on right after it. |
| YouTube.MatchDurationFacts | src/utils/youtube.ts:53-55 | The duration pattern matches exactly when `PT` occurs. Every capture is a string of digits. |
| YouTube.NoMatchZero | src/utils/youtube.ts:53-55 | Without `PT` the result is `0:00`. |
| YouTube.PrefixIgnored | src/utils/youtube.ts:53 | Text before the first `PT` changes neither the captures nor the result. |
| YouTube.IsoCaptures | src/utils/youtube.ts:53 | `PT[<h>H][<m>M][<s>S]` yields exactly the given digit strings as captures, empty for an absent group. |
| YouTube.IsoDuration | src/utils/youtube.ts:57-65 | With hours the result is `h:MM:SS`, where an absent group gives `00`. Without hours it is minutes, or `0` if absent, then `:SS`. Digit strings are copied as they are. |
| YouTube.MinutesAndSeconds | src/utils/youtube.ts:65 | `PT4M13S` gives `4:13`. |
| YouTube.HoursPadded | src/utils/youtube.ts:57-62 | `PT1H5S` gives `1:00:05`. |
| YouTube.SecondsNotCarried | src/utils/youtube.ts:59-65 | `PT90S` gives `0:90`. Nothing is carried or truncated. |
| YouTube.EmptyDuration | src/utils/youtube.ts:53-65 | `PT` alone gives `0:00`. |
| YouTube.DaysDropped | src/utils/youtube.ts:53-55 | `P1DT2H3M` has no `PT` and gives `0:00`. |
| YouTube.ReplyItems | src/utils/youtube.ts:36-41 | Items are read only from an ok response with a parsed body that has an `items` field. |
| YouTube.DurationsSnoc | src/utils/youtube.ts:41-43 | Each item in turn writes its formatted duration under its id. |
| YouTube.DurationsKeys | src/utils/youtube.ts:41-43 | The record's keys are exactly the item ids. |
| YouTube.DurationsLastWins | src/utils/youtube.ts:41-43 | The last item with an id decides the value under that id. |
| YouTube.FetchVideoDetails | src/utils/youtube.ts:30-50 | A failed or non-ok request, a reply without items, or an item without a duration gives `{}`. Otherwise the loop builds exactly the `Durations` record. |
| YouTube.FirstItem | src/utils/youtube.ts:12-14 | The first item of an ok reply with items, if there is one. |
| YouTube.FetchVideoById | src/utils/youtube.ts:3-28 | There is a video exactly when the first item has its snippet, thumbnail and duration. Its title and original title are both the snippet title, its other fields are copied, and its duration is formatted. |
| VideoSlice.Retitled | src/store/videoSlice.ts:64-67 | Only the title changes. It becomes the sanitised original title when hidden, the original title otherwise. |
| VideoSlice.WithTitles | src/store/videoSlice.ts:64-67 | The same videos in the same order, each retitled, so the titles follow the flag. |
| VideoSlice.WithTitlesTwice | src/store/videoSlice.ts:62-67 | Retitling for two flags in a row equals retitling for the second. |
| VideoSlice.WithTitlesFixed | src/store/videoSlice.ts:64-67 | Retitling changes nothing exactly when the titles already follow the flag. |
| Wrappers.OrIfEmpty | src/store/videoSlice.ts:101 | A logical-or fallback on an optional string: a present, non-empty value wins, and otherwise the fallback. A non-empty fallback gives a non-empty result. `VideoSlice.ErrorMessage` (fallback `An error occurred`) and `ProxyServer.AllowOrigin` (fallback `*`, for the proxy's Origin header) are this function. |
| VideoSlice.SearchState.constructor | src/store/videoSlice.ts:50-57 | The initial state: empty, not loading, spoilers hidden. |
| VideoSlice.SearchState.SetSelectedVideo | src/store/videoSlice.ts:59-61 | The selection becomes the payload and every other field stays. |
| VideoSlice.SearchState.ToggleSpoilers | src/store/videoSlice.ts:62-76 | The flag flips. The list and a non-null selection are retitled for the new flag, a null selection stays null, and the invariant holds afterwards. |
| VideoSlice.SearchState.ClearVideos | src/store/videoSlice.ts:77-83 | Empty list, no selection, no last query, no error, not loading. The flag is kept. |
| VideoSlice.SearchState.SearchPending | src/store/videoSlice.ts:87-90 | Loading, with the error cleared. All else stays. |
| VideoSlice.SearchState.SearchFulfilled | src/store/videoSlice.ts:91-98 | The payload becomes the list, titled for the current flag. The search term becomes the last query, and the error is untouched. |
| VideoSlice.SearchState.SearchRejected | src/store/videoSlice.ts:99-102 | Not loading, and the error set to `ErrorMessage`. All else stays. |
| VideoSlice.ToggleTwiceRestores | src/store/videoSlice.ts:62-67 | Toggling twice from a valid state gives back the same list. |
| FeaturedMatches.IncludesIsIn | src/components/FeaturedMatches.tsx:49-51 | `includes` holds exactly for names in the list. |
| FeaturedMatches.TopClubMembership | src/components/FeaturedMatches.tsx:35-51 | A team is a top club exactly when its name is one of the listed strings. |
| FeaturedMatches.TopClubsDistinct | src/components/FeaturedMatches.tsx:35-46 | The list holds ten distinct names. |
| FeaturedMatches.BayernSpelling | src/components/FeaturedMatches.tsx:38 | Only the listed spelling `FC Bayern MÃ¼nchen` counts. `FC Bayern München` does not. |
| FeaturedMatches.MissingGoalsCountZero | src/components/FeaturedMatches.tsx:56-63 | A missing goal count weighs the same as a count of 0. A match with neither count has 0 goals, never gets priority 3 and never shows the High Score badge. |
| FeaturedMatches.MatchPriority | src/components/FeaturedMatches.tsx:53-66 | The priority is between 1 and 4. |
| FeaturedMatches.PriorityMeaning | src/components/FeaturedMatches.tsx:53-66 | 1 exactly when both teams are top clubs and 2 exactly when one is. 3 exactly when neither is and there are 4 goals or more, and 4 otherwise. |
| FeaturedMatches.CompareMeaning | src/components/FeaturedMatches.tsx:107-118 | The comparator orders by priority ascending, then kickoff descending. It is antisymmetric, and its "not after" is total and transitive. |
| FeaturedMatches.SortedMeaning | src/components/FeaturedMatches.tsx:107-118 | In a sorted list, priorities never decrease and, within one priority, kickoffs never increase. |
| FeaturedMatches.Sort | src/components/FeaturedMatches.tsx:106-118 | The in-place sort leaves the array in comparator order, as a permutation of what it held. |
| FeaturedMatches.Insert | src/components/FeaturedMatches.tsx:106-118 | One insertion step extends the sorted prefix by one element and keeps the elements. |
| FeaturedMatches.TopNine | src/components/FeaturedMatches.tsx:119 | `slice(0, 9)`: the first min(9, n) elements. |
| FeaturedMatches.BadgesAndPriority | src/components/FeaturedMatches.tsx:216-222 | The Top Match badge shows exactly for priority 1. The High Score badge shows for every priority-3 match and for no priority-4 match. |
| Text.IntToStringReadsBack | src/components/FeaturedMatches.tsx:131-134 | A printed integer starts with `-` exactly when it is negative. The rest is decimal digits without leading zeros that parse back to the magnitude. |
| FeaturedMatches.ClickQuery | src/components/FeaturedMatches.tsx:131-134 | The query starts with the home team and ` vs `, ends with ` full match`, and has the total length. |
| FeaturedMatches.ClickQueryParts | src/components/FeaturedMatches.tsx:132-134 | The away team, a space and the year fill the middle of the query. |
| FeaturedMatches.FailureMessage | src/components/FeaturedMatches.tsx:99-124 | A thrown value gives its message or `Failed to load matches`. A non-ok response gives `HTTP error! status: N`, and an unreadable body gives the parse error's message. |
| FeaturedMatches.FeaturedState.constructor | src/components/FeaturedMatches.tsx:29-31 | No matches, loading, no error. |
| FeaturedMatches.FeaturedState.FetchRecentMatches | src/components/FeaturedMatches.tsx:73-128 | Loading ends either way. A failure sets the error and keeps the matches. A reply without `matches` shows `[]`; otherwise the array is sorted in place and its first nine are shown. |
| FeaturedMatches.ShownMatches | src/components/FeaturedMatches.tsx:106-121 | The shown list is sorted and at most nine long, and its matches all come from the reply, none duplicated. |
| DateUtils.Distance | src/utils/dateUtils.ts:4 | The absolute difference of the two times. |
| DateUtils.CeilDivBounds | src/utils/dateUtils.ts:5-9 | `Math.ceil(n / d)` is the least count of `d` that reaches `n`. |
| DateUtils.DiffDaysMeaning | src/utils/dateUtils.ts:5 | The day count is k exactly when the distance lies in ((k-1) days, k days], and 0 only for the same instant. |
| DateUtils.DependsOnDistance | src/utils/dateUtils.ts:4 | The label depends only on the distance, so future and past dates read alike. |
| DateUtils.HoursBranch | src/utils/dateUtils.ts:8-11 | For a day count of 1 the label is `<h> hours ago`, with h between 1 and 24 and always plural. |
| DateUtils.DaysBranch | src/utils/dateUtils.ts:13-15 | For a day count of 0 or 2 to 6 the label is `<days> days ago`. |
| DateUtils.SameInstant | src/utils/dateUtils.ts:4-15 | The same instant gives `0 days ago`. |
| DateUtils.WeeksBranch | src/utils/dateUtils.ts:17-20 | For 7 to 29 days there are 1 to 4 weeks, and the unit is singular only for 1. |
| DateUtils.LocaleOnlyWhenOld | src/utils/dateUtils.ts:17-27 | From 30 days the label is the locale date. Below that, the locale date has no influence. |
| DateUtils.CountReadsBack | src/utils/dateUtils.ts:8-20 | The label starts with the decimal count, which parses back to the number it was printed from. |
| Router.SearchDecision | src/router.ts:26 | A search runs exactly for a non-empty query other than the last query. It never runs for a missing or empty query, nor for the last query again. |
| Router.RevalidateSearchMeaning | src/router.ts:48-54 | The child rule is symmetric and fires when `q` appears or disappears. When it does not fire, the loader would reach the same search decision. |
| Router.ShouldRevalidateRoot | src/router.ts:57-60 | Revalidation only on arriving at `/` from another path, never from `/`. |
| Router.RootLoader | src/router.ts:12-15 | The store is cleared, and the result has no query and no video id. |
| Router.SearchLoader | src/router.ts:19-47 | From one snapshot of the store: the search runs exactly when `ShouldSearch` holds, and its fulfilment or rejection updates the store as the reducers do. A found video becomes the selection only when the id is non-empty and nothing was selected; otherwise the selection stays. The parameters come back as read, and the store's invariant is kept. |
| RouterTsx.RouteOf | src/router.tsx:14-58 | No segment selects the index route. A single `search` segment, in any ASCII case, selects the search route, and everything else the catch-all. So `/search` and `/Search` reach the search loader, and `/search/x` and `/videos` are redirected. |
| RouterTsx.Navigate | src/router.tsx:9-60 | The index route clears the store and returns nulls. The search route returns its parameters and changes the store as the search loader does: the search runs exactly when `ShouldSearch` holds, and a found video becomes the selection only when the id is non-empty and nothing was selected. The catch-all redirects to `/` with replace and leaves the store alone. The spoiler flag never changes. |
| ProxyServer.TargetUrlBase | football-proxy-server/src/server.ts:38 | The target URL always starts with `https://api.football-data.org/v4`. |
| ProxyServer.TargetUrlUnmounted | football-proxy-server/src/server.ts:38 | A URL without `/api/football` is appended as it is. |
| ProxyServer.TargetUrlCutsFirst | football-proxy-server/src/server.ts:38 | Only the leftmost `/api/football` is cut out. |
| ProxyServer.OutboundHeaders | football-proxy-server/src/server.ts:44-47 | Exactly `X-Auth-Token` with the API key, and `Accept: application/json`. |
| ProxyServer.ForwardedRequest | football-proxy-server/src/server.ts:38-48 | The upstream call uses the incoming method and only the API key and JSON accept headers, so no incoming header, the Origin included, is carried. Its URL is the base followed by the request URL with the leftmost `/api/football` cut out, or by the whole request URL when it has none. |
| ProxyServer.CorsHeaders | football-proxy-server/src/server.ts:54-57 | Exactly the four CORS headers with their values. |
| ProxyServer.CorsInOrder | football-proxy-server/src/server.ts:54-57 | Setting the four headers one by one adds exactly those headers. |
| ProxyServer.Response.constructor | football-proxy-server/src/server.ts:59 | A new response has status 200, no header and no body. |
| ProxyServer.Response.Header | football-proxy-server/src/server.ts:54-57 | `res.header` sets one header. |
| ProxyServer.Response.Status | football-proxy-server/src/server.ts:62 | `res.status` sets the status. |
| ProxyServer.Response.Json | football-proxy-server/src/server.ts:59 | `res.json` sets the body. |
| ProxyServer.Handle | football-proxy-server/src/server.ts:30-64 | It sends exactly the forwarded request. Upstream JSON is passed on with the CORS headers and the status untouched, whatever the upstream status. A thrown call or a non-JSON body gives status 500, `{error: "Internal Server Error"}` and no handler headers. |
| ProxyServer.Startup | football-proxy-server/src/server.ts:12-68 | A missing or empty API key exits with code 1, so nothing listens. Otherwise the server listens on `PORT` when that is non-empty, on 3001 otherwise. |

## Left out

- Response cache: football-proxy-server/src/server.ts has none, so no cache, expiry or sweep is modelled.
- Network calls, `response.json()`, `dotenv`, `console` output and `app.listen` are not modelled. Their outcomes or values are inputs.
- The request URLs the app builds are not modelled, including the unencoded search text in the YouTube search URL.
- The Express `cors` middleware, its origin whitelist and the preflight route are not modelled. Neither is the mount-path stripping Express does before the handler sees `req.url`.
- Express header names are case-insensitive. The model keeps header names as written.
- The mapping the `searchVideos` thunk does from search results to `Video`s (lines 31-44 of src/store/videoSlice.ts) is not modelled. The fulfilled payload is an input.
- React rendering, effects, `navigate`, `URLSearchParams` encoding and `formatMatchDate` are not modelled.
- `toLocaleDateString` and `getFullYear` depend on locale and time zone, so their results are parameters.
- Date parsing is not modelled: timestamps are integers, so invalid dates, which make `NaN`, are not considered.
- The model assumes that `diffTime / 86400000` and `diffTime / 3600000` followed by `Math.ceil` are exact. That holds for millisecond distances below 2^53.
- DateUtils.FormatPublishedDate: the locale branch returns the `localeDate` parameter as given, not a formatted date.
- FeaturedMatches.Sort: `Array.prototype.sort` is stable, and the model proves only the order and the permutation, not that equal matches keep their relative order.
- FeaturedMatches.Sort: the model sorts with an insertion sort. Which comparisons the engine makes is not modelled, only the result.
- YouTube.FetchVideoDetails: ids such as `__proto__` behave specially as keys of a JavaScript object. The record is modelled as a plain map.
- YouTube.FetchVideoById: a reply whose `items` is present but whose entries lack `id` or `snippet` fields is read as a missing snippet. An `undefined` field copied into a `Video` is not distinguished from a present one.
- String fields that may be missing from a reply (titles, channel names, dates) are always strings in the model.
- SpoilerCases.DashScore: only the bare `2-1` is proved. The whole title of src/utils/__tests__/spoilerUtils.test.ts:11-12, `Manchester United *** Liverpool | …`, is not.
- SpoilerCases.SpacedScore: only the bare `2  :  1` is proved. The whole title of src/utils/__tests__/spoilerUtils.test.ts:52-55, `Team A *** Team B`, is not.
- SpoilerCases.ToScore: only the bare `3 to 1` is proved. The whole title of src/utils/__tests__/spoilerUtils.test.ts:31-32, `Ajax *** PSV | Eredivisie Classic`, is not.
- SpoilerCases.AggregateScore: only the bare `1 (2)` is proved. The whole two-score title of src/utils/__tests__/spoilerUtils.test.ts:7-8, `… *** - *** …`, is not, and neither is its second score `0 (4)`.
- SpoilerCases.BracketScore: only the bracketed part `(5:3)` is proved. The whole two-score title `PSG 2:2 (5:3) …` of src/utils/__tests__/spoilerUtils.test.ts:23-24 is not.
- SpoilerCases: apart from the digit-free text and the empty string, no test title of src/utils/__tests__/spoilerUtils.test.ts is proved as a whole. These are the titles at lines 7-8, 11-12, 15-16, 19-20, 23-24, 27-28, 31-32, 35-36, 47-50 and 52-55. Only whole single scores (`WholeScore` and the cases built on it) and the general properties of a pass are proved. Those general properties do not give these titles' expected outputs.
- RouterTsx.RouteOf: route matching works on path segments that are already split and percent-decoded. Trailing slashes and the matcher's ranking are not modelled.
- Router.SearchLoader, RouterTsx.Navigate: each loader is modelled as one atomic step. Dispatches that interleave while the `await`s are pending (src/router.ts:28 and 37, src/router.tsx:33 and 42) are not modelled, such as a spoiler toggle between the snapshot and the fulfilment, or overlapping navigations that each run a loader.
- The `try`/`catch` around the loaders' dispatches is not modelled. The model's search and lookup outcomes never throw, which is also true of the source, since a thunk dispatch and `fetchVideoById` both resolve.
