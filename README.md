# URLify, modelled in Dafny

URLify is a URL shortener. A Spring/Java server stores short URLs in a
document store, resolves short codes through a Redis cache, and records
every click. A React/TypeScript client keeps the signed-in session in
`localStorage`, talks to the server through one API gateway, and shows
three pages: the create form, the list of the user's URLs, and the click
analytics.

This project models the core of both halves, one Dafny module per source
file:

| module | file | form |
|---|---|---|
| `Base62` | `util/Base62Encoder.java` | methods with loops, proved against `Encoded` / `DecodedValue` |
| `UrlValidation` | `util/UrlValidator.java` | functions; the pattern matcher proved equal to the pattern |
| `UrlEntity` | `entity/Url.java` | class `Url` with `IncrementClicks` and `IsExpired` |
| `Repositories` | the Mongo repositories | class `Database` (URL documents by short code, click log, users) |
| `UrlServices` | `service/UrlService.java` | class `UrlService` over a `Database` |
| `AnalyticsServices` | `service/AnalyticsService.java` | class `AnalyticsService` over the same `Database` |
| `RedirectServices` | `service/RedirectService.java` | class `RedirectService` holding the cache map |
| `Web` | browser globals | class `Browser`: `localStorage`, location, clipboard, toasts, sent requests |
| `Session` | `context/AuthContext.tsx` | class `AuthStore` over the `Browser` |
| `ApiClient` | `services/api.ts` | the two interceptors as methods; the expiry arithmetic as functions |
| `UrlsPages`, `DashboardPages`, `AnalyticsPages` | `pages/*.tsx` | one class per page; each awaited request is a parameter holding its outcome |
| `PasswordStrength` | `components/Input.tsx` | the scorer as functions; the component state as a class |
| `ShortUrlRedirects` | `components/ShortUrlRedirect.tsx` | the backend-root rewrite and the redirect effect |
| `Common`, `Sorting` | — | Java `trim`, ASCII case folding, `slice(-n)` / `limit(n)`, UTF-16 lengths, and a sort by key |

Server times are integer milliseconds on one clock, passed in as `now`.
The draws `System.currentTimeMillis() + random` of the code generator are
the function `draw`. Redis is a map from key to value and expiry instant.
Whether a Redis call throws is a Boolean parameter.

On the client, these foreign operations are parameters:

- `JSON.parse` and `JSON.stringify`;
- WHATWG `new URL`;
- `new Date(text).getTime()`;
- the answer to `confirm()`;
- whether the clipboard accepts a write.

The code is followed wherever it differs from the system's design notes:

- A 401 response only removes the two storage keys and navigates to the
  login page. It does not reset the in-memory session.
- `isAuthenticated` is `!!token`, so it is false for an empty token as
  well as for a missing one.
- Page fetches have no guard against out-of-order responses: the last
  response to arrive wins.

## Model

Paths are relative to the repository root.

| member | source | states |
|---|---|---|
| Common.Utf16LengthBounds | src/main/java/com/urlify/util/UrlValidator.java:95 | `length()` is between the number of characters and twice it; equal to it iff no character is beyond U+FFFF, twice it iff all are |
| Common.Utf16LengthAppend | frontend/src/components/Input.tsx:33-34 | code units add up over concatenation |
| Common.Trim | src/main/java/com/urlify/service/UrlService.java:63-64 | Java `trim`: the slice between the first and the last character above U+0020, empty exactly when every character is blank |
| Sorting.SortBy | src/main/java/com/urlify/service/AnalyticsService.java:88 | the result is ordered by the key and is a permutation (same multiset) of the input |
| Base62.IndexOf | src/main/java/com/urlify/util/Base62Encoder.java:47 | -1 exactly for characters outside the 62-character alphabet, otherwise the one position holding the character |
| Base62.Digits | src/main/java/com/urlify/util/Base62Encoder.java:27-34 | the numeral uses only alphabet characters, is empty only for 0, and has no leading `0` for a positive number |
| Base62.Encode | src/main/java/com/urlify/util/Base62Encoder.java:22-35 | the digit loop with its reversal yields `Encoded(num)`: "0" for zero, "" for a negative number, the most-significant-first numeral otherwise |
| Base62.Decode | src/main/java/com/urlify/util/Base62Encoder.java:43-54 | succeeds exactly when every character is in the alphabet, with the positional value; otherwise the error names the first offending character |
| Base62.FirstInvalid | src/main/java/com/urlify/util/Base62Encoder.java:45-50 | the position the decode loop stops at: outside the alphabet, with only alphabet characters before it |
| Base62.EncodedInAlphabet | src/main/java/com/urlify/util/Base62Encoder.java:28-31 | every encoding is drawn from the alphabet, with no leading `0` for positive input |
| Base62.EncodedLastDigit | src/main/java/com/urlify/util/Base62Encoder.java:27-34 | for n ≥ 62 the encoding is the encoding of n/62 followed by the digit for n mod 62 |
| Base62.DecodeEncoded | src/main/java/com/urlify/util/Base62Encoder.java:22-54 | round trip: decoding the encoding of any n ≥ 0 gives back n |
| Base62.EncodedInjective | src/main/java/com/urlify/util/Base62Encoder.java:22-35 | two non-negative numbers with the same encoding are equal |
| Base62.DecodedAppend | src/main/java/com/urlify/util/Base62Encoder.java:44-52 | appending a character multiplies the value by 62 and adds the character's index |
| Base62.DecodedTail | src/main/java/com/urlify/service/UrlService.java:143-145 | the last k characters of a code carry its value modulo 62^k |
| UrlValidation.ParseHostSound | src/main/java/com/urlify/util/UrlValidator.java:18-20 | whatever host the matcher returns is the host group of a full match of the URL pattern |
| UrlValidation.ParseHostComplete | src/main/java/com/urlify/util/UrlValidator.java:18-20 | every match of the pattern is found by the matcher, with the same host group |
| UrlValidation.ParseHostMatchesPattern | src/main/java/com/urlify/util/UrlValidator.java:18-20 | the matcher returns a host iff the pattern matches with that host group |
| UrlValidation.ValidationError | src/main/java/com/urlify/util/UrlValidator.java:90-127 | no message means a present, non-empty URL of at most 2048 UTF-16 code units |
| UrlValidation.ValidationErrorCases | src/main/java/com/urlify/util/UrlValidator.java:90-127 | each message is returned iff all earlier checks pass and its own fails (blank, over 2048 UTF-16 code units, pattern, loopback, private range); the protocol message is never returned |
| UrlValidation.IsValid | src/main/java/com/urlify/util/UrlValidator.java:40-82 | the Boolean form accepts iff the message form returns no message |
| UrlValidation.ProtocolAlwaysHttp | src/main/java/com/urlify/util/UrlValidator.java:117-120 | any URL the pattern accepts has protocol http or https |
| UrlValidation.LoopbackIpv6Unreachable | src/main/java/com/urlify/util/UrlValidator.java:23-27 | the `::1` entry can never equal a host the pattern accepts |
| UrlValidation.AcceptedUrlShape | src/main/java/com/urlify/util/UrlValidator.java:40-82 | an accepted URL is non-empty and has at most 2048 UTF-16 code units, starts with http:// or https:// in any case, and names a host that is neither blocked nor private |
| UrlValidation.RejectsPrivateRange | src/main/java/com/urlify/util/UrlValidator.java:29-32 | `http://172.20.1.1` gets the private-address message |
| UrlValidation.RejectsOtherScheme | src/main/java/com/urlify/util/UrlValidator.java:99-101 | `ftp://example.com` gets the format message |
| UrlValidation.RejectsBlank | src/main/java/com/urlify/util/UrlValidator.java:91-93 | a blank URL gets the empty message |
| UrlEntity.Url.constructor | src/main/java/com/urlify/entity/Url.java:30 | a new entity has zero clicks, no id, no expiry |
| UrlEntity.Url.IncrementClicks | src/main/java/com/urlify/entity/Url.java:38-40 | clicks grows by exactly one and no other field changes |
| UrlEntity.ExpiryIsStrict | src/main/java/com/urlify/entity/Url.java:42-44 | no expiry never expires; otherwise expired iff now is strictly after it, so live at the expiry instant itself |
| Repositories.ClicksOf | src/main/java/com/urlify/repository/AnalyticsRepository.java:12 | the records of one code, a sub-multiset of the log |
| Repositories.ClicksOfComplete | src/main/java/com/urlify/repository/AnalyticsRepository.java:12 | no record of the code is left out: each occurs in the result exactly as often as in the log, and records of other codes never occur |
| Repositories.NewestFirst | src/main/java/com/urlify/repository/AnalyticsRepository.java:12 | exactly the records of the code (same multiset), timestamps non-increasing |
| Repositories.Database.SaveUrl | src/main/java/com/urlify/service/UrlService.java:80 | the document is filed under its own code, the store's id and creation time are written back to the entity, and the store stays keyed by short code |
| Repositories.Database.DeleteUrl | src/main/java/com/urlify/service/UrlService.java:125 | removes that one code and nothing else |
| UrlServices.ShortUrlIdentifiesCode | src/main/java/com/urlify/service/UrlService.java:159-169 | the short link is `http://localhost:<port>/<code>`, and two links on one server are equal iff their codes are |
| UrlServices.Candidate | src/main/java/com/urlify/service/UrlService.java:140-145 | an attempt's code has at most 7 characters |
| UrlServices.CandidateValue | src/main/java/com/urlify/service/UrlService.java:140-145 | an attempt's code denotes the draw modulo 62^7 |
| UrlServices.CodeOfDraw | src/main/java/com/urlify/service/UrlService.java:140-145 | the code is the encoding of the draw when it is 7 characters or fewer, otherwise its last 7 characters |
| UrlServices.FirstFree | src/main/java/com/urlify/service/UrlService.java:134-151 | every earlier candidate is taken and the one found (if any) is free |
| UrlServices.FirstFreeCode | src/main/java/com/urlify/service/UrlService.java:134-153 | a code it returns is one of the candidates and not taken; it fails, with "Failed to generate unique short code", iff every candidate is taken |
| UrlServices.GeneratedCodeIsFresh | src/main/java/com/urlify/service/UrlService.java:131-154 | a generated code is not in the store and has at most 7 characters; generation fails with "Failed to generate unique short code" iff all ten candidates are taken |
| UrlServices.GeneratedCodeIsFirstFree | src/main/java/com/urlify/service/UrlService.java:134-151 | the first free candidate is the one returned, even when later ones are free too |
| UrlServices.UrlService.GenerateUniqueShortCode | src/main/java/com/urlify/service/UrlService.java:131-154 | the do-while loop returns exactly `GeneratedCode`: a fresh code of at most 7 characters, or the failure after the eleventh draw |
| UrlServices.ExpiryFor | src/main/java/com/urlify/service/UrlService.java:75-77 | an expiry is set iff the hours are given and positive, and it lies exactly that many hours after now |
| UrlServices.AliasOf | src/main/java/com/urlify/service/UrlService.java:63-64 | an alias is used iff one is given and it is not blank, and it is the trimmed text |
| UrlServices.ShortenedOutcome | src/main/java/com/urlify/service/UrlService.java:46-83 | validator message, unknown user, alias in use and exhausted generation are the only errors; a created URL has a code new to the store (the alias when given), the request's URL, the caller's id, no clicks, and the expiry `ExpiryFor` gives |
| UrlServices.ShortenedKeepsFreshAlias | src/main/java/com/urlify/service/UrlService.java:63-68 | a valid URL from a known user with a free alias is stored under exactly the trimmed alias |
| UrlServices.UrlService.ShortenUrl | src/main/java/com/urlify/service/UrlService.java:46-83 | an error saves nothing; a success adds exactly the new document and returns its response |
| UrlServices.SettledCode | src/main/java/com/urlify/service/UrlService.java:62-72 | a settled code, alias or generated, is never already in the store |
| UrlServices.ShortenedStores | src/main/java/com/urlify/service/UrlService.java:57-80 | with a valid URL, a known user and a settled code, the stored document holds the request's URL, the caller's id, that code, no clicks and the `ExpiryFor` expiry |
| UrlServices.NewUrl | src/main/java/com/urlify/service/UrlService.java:58-77 | a new entity with no id, no creation time and no clicks, holding the URL, the owner's id, the code and the expiry `ExpiryFor` gives |
| UrlServices.UrlService.SettleShortCode | src/main/java/com/urlify/service/UrlService.java:62-72 | the alias branch and the generation branch yield exactly `SettledCode` |
| UrlServices.DeletionError | src/main/java/com/urlify/service/UrlService.java:113-123 | no error iff the code exists, the user exists and owns it; an unknown code is "URL not found" |
| UrlServices.OwnedCodes | src/main/java/com/urlify/service/UrlService.java:92 | exactly the codes whose document belongs to the user |
| UrlServices.UrlService.GetUserUrls | src/main/java/com/urlify/service/UrlService.java:88-96 | unknown user throws "User not found"; otherwise exactly one response per owned URL, each built from its stored document |
| UrlServices.UrlService.DeleteUrl | src/main/java/com/urlify/service/UrlService.java:113-126 | for the owner only that URL is removed; every error leaves the store unchanged |
| AnalyticsServices.RecentClicksAreNewest | src/main/java/com/urlify/service/AnalyticsService.java:105-125 | a report lists min(count, limit) clicks of its own code, newest first, the newest ones, every click when below the limit; its total is the stored counter |
| AnalyticsServices.TrackedClickIsListed | src/main/java/com/urlify/service/AnalyticsService.java:44-54 | a tracked click adds one record to its own code's list and changes no other code's list |
| AnalyticsServices.NewestCreatedFirst | src/main/java/com/urlify/service/AnalyticsService.java:88 | the same reports, most recently created first |
| AnalyticsServices.AnalyticsService.TrackClick | src/main/java/com/urlify/service/AnalyticsService.java:38-55 | an unknown code throws "URL not found" and changes nothing; otherwise that URL's counter grows by one and one record with the request data is appended |
| AnalyticsServices.AnalyticsService.GetAllAnalytics | src/main/java/com/urlify/service/AnalyticsService.java:60-90 | unknown user throws; otherwise one 10-click report per owned URL, most recently created first |
| AnalyticsServices.AnalyticsService.GetAnalytics | src/main/java/com/urlify/service/AnalyticsService.java:95-126 | unknown code, unknown user and non-owner are the three errors; the owner gets the 100-click report |
| RedirectServices.ChosenIp | src/main/java/com/urlify/service/RedirectService.java:83-89 | X-Forwarded-For unless missing, empty or `unknown` in any case, then X-Real-IP by the same rule, then the remote address |
| RedirectServices.FirstSegment | src/main/java/com/urlify/service/RedirectService.java:91 | the longest comma-free prefix: followed by a comma when shorter than the text |
| RedirectServices.DropTrailingEmpty | src/main/java/com/urlify/service/RedirectService.java:91 | a prefix of the pieces, with only empty pieces dropped and a non-empty last piece |
| RedirectServices.SplitEmptyIffCommasOnly | src/main/java/com/urlify/service/RedirectService.java:91 | for text containing a comma, `split(",")` is empty iff the text is commas only, and otherwise starts with the text before the first comma |
| RedirectServices.ClientIp | src/main/java/com/urlify/service/RedirectService.java:82-94 | the address is missing iff the chosen source is, and never contains a comma |
| RedirectServices.ClientIpAsWrittenFailsOnCommasOnly | src/main/java/com/urlify/service/RedirectService.java:90-92 | the code as written throws iff the chosen value is made of commas only, and otherwise agrees with `ClientIp` |
| RedirectServices.CommaOnlyForwardedForThrows | src/main/java/com/urlify/service/RedirectService.java:90-92 | a lone-comma X-Forwarded-For makes the code as written throw; `ClientIp` answers "" |
| RedirectServices.ClientIpIsFirstHop | src/main/java/com/urlify/service/RedirectService.java:90-92 | a comma-free value is returned unchanged; a list yields its first piece, trimmed |
| RedirectServices.CacheKeyInjective | src/main/java/com/urlify/service/RedirectService.java:42 | distinct codes never share a cache key |
| RedirectServices.CacheRead | src/main/java/com/urlify/service/RedirectService.java:45-49 | a value comes back iff the read works and the key is present and not yet expired |
| RedirectServices.CacheAfter | src/main/java/com/urlify/service/RedirectService.java:66-71 | at most the code's key is written; every other entry is kept |
| RedirectServices.ResolutionCases | src/main/java/com/urlify/service/RedirectService.java:45-64 | a hit answers without the store; a miss answers the stored URL unless it is unknown ("Short URL not found") or expired ("Short URL has expired"); a failed read is a miss |
| RedirectServices.WarmCacheAnswersForAnHour | src/main/java/com/urlify/service/RedirectService.java:66-68 | after a miss warms the cache, every lookup in the next hour returns the same URL even if the store has dropped it or it has expired |
| RedirectServices.RedirectService.GetClientIp | src/main/java/com/urlify/service/RedirectService.java:82-94 | the step-by-step reassignments yield `ClientIp` |
| RedirectServices.RedirectService.GetOriginalUrl | src/main/java/com/urlify/service/RedirectService.java:34-77 | the answer is `Resolution` and the cache becomes `CacheAfter`; a click is tracked (counter and record) exactly when the request resolved and the code is stored; users unchanged |
| RedirectServices.RedirectService.ResolveMiss | src/main/java/com/urlify/service/RedirectService.java:57-76 | after a miss: "Short URL not found" or "Short URL has expired" with nothing changed, otherwise the stored URL, the cache warmed unless the write fails, and the click tracked |
| Web.ErrorText | frontend/src/pages/UrlsPage.tsx:25 | the server's non-empty message, or the fallback |
| Web.ShortLink | frontend/src/pages/UrlsPage.tsx:36 | the link starts with origin + "/" and ends with the code |
| Web.ShortLinkInjective | frontend/src/pages/DashboardPage.tsx:40 | on one origin, equal links mean equal codes |
| Session.InitialToken | frontend/src/context/AuthContext.tsx:16-18 | the stored token exactly, or none when the key is absent |
| Session.InitialState | frontend/src/context/AuthContext.tsx:20-30 | no user without a parseable stored text; a failed parse drops the user key alone and keeps the token |
| Session.LoggedIn | frontend/src/context/AuthContext.tsx:36-38 | both keys hold the new values and every other key is kept |
| Session.LoggedOut | frontend/src/context/AuthContext.tsx:43-45 | both keys are absent and every other key is kept |
| Session.LoggedOutIdempotent | frontend/src/services/api.ts:33-34 | clearing an already cleared session changes nothing |
| Session.LoginSurvivesReload | frontend/src/context/AuthContext.tsx:36-41 | when the user's JSON parses back, a login is restored whole on the next start-up |
| Session.SignedInWithoutUser | frontend/src/context/AuthContext.tsx:23-27 | a corrupt stored user next to a token gives a signed-in session with no user |
| Session.AuthStore.constructor | frontend/src/context/AuthContext.tsx:32-34 | start-up state is `InitialUser` and `InitialToken`; storage becomes `StorageAfterInit` |
| Session.AuthStore.Login | frontend/src/context/AuthContext.tsx:36-41 | storage is `LoggedIn`, the state holds the new pair, authenticated iff the token is non-empty |
| Session.AuthStore.Logout | frontend/src/context/AuthContext.tsx:43-48 | storage is `LoggedOut`, both state values cleared, not authenticated |
| ApiClient.ApiBaseUrl | frontend/src/services/api.ts:3 | the configured base unless unset or empty, else `http://localhost:8080/api` |
| ApiClient.AuthorizeRequest | frontend/src/services/api.ts:17-26 | a Bearer header with the stored token iff that token is present and non-empty; otherwise the headers are unchanged |
| ApiClient.HandleResponseError | frontend/src/services/api.ts:29-39 | a 401 clears both keys and navigates to /login; any other error leaves storage and location alone; the error is re-rejected unchanged |
| ApiClient.HoursUntil | frontend/src/services/api.ts:61 | at least 1; 1 iff within the hour; the least whole number of hours reaching the instant |
| ApiClient.HoursUntilExamples | frontend/src/services/api.ts:61 | past, now and one hour give 1; 150 minutes gives 3; 48 hours gives 48 |
| ApiClient.HoursUntilIsLeast | frontend/src/services/api.ts:61 | no smaller positive number of hours reaches the instant |
| ApiClient.ExpiryHours | frontend/src/services/api.ts:56-66 | sent iff a non-empty expiry text parses as a date, then `HoursUntil` of the difference; otherwise null |
| UrlsPages.PreviousPage | frontend/src/pages/UrlsPage.tsx:156 | one page back, never below 0 |
| UrlsPages.NextPage | frontend/src/pages/UrlsPage.tsx:166 | one page on, never past the last |
| UrlsPages.PagingStaysInRange | frontend/src/pages/UrlsPage.tsx:152-171 | from a page in range both buttons stay in range and move by at most one |
| UrlsPages.UrlsPage.constructor | frontend/src/pages/UrlsPage.tsx:12-15 | no URLs, loading, page 0 of 0 |
| UrlsPages.UrlsPage.FetchUrls | frontend/src/pages/UrlsPage.tsx:18-29 | requests the current page; success replaces list and page count wholesale and keeps toasts, storage and location; failure keeps both, shows the message toast, and on a 401 signs out and goes to the login page; loading ends |
| UrlsPages.UrlsPage.Previous | frontend/src/pages/UrlsPage.tsx:156 | page becomes `PreviousPage`; a changed page is fetched and the list, page count, toasts, storage and location end as `FetchUrls` leaves them; an unchanged page sends nothing and changes nothing |
| UrlsPages.UrlsPage.Next | frontend/src/pages/UrlsPage.tsx:166 | page becomes `NextPage`; a changed page is fetched and the list, page count, toasts, storage and location end as `FetchUrls` leaves them; an unchanged page sends nothing and changes nothing |
| UrlsPages.UrlsPage.HandleCopy | frontend/src/pages/UrlsPage.tsx:35-43 | the clipboard gets `origin/code` and a success toast, or keeps its content and shows the failure toast |
| UrlsPages.UrlsPage.HandleDelete | frontend/src/pages/UrlsPage.tsx:45-55 | nothing without confirmation; a successful delete shows its toast, then re-fetches the current page with every effect of `FetchUrls` (list, page count, failure toast, 401 sign-out); a failed one shows the failure toast, keeps the list and applies the 401 rule |
| DashboardPages.ExpiryArgument | frontend/src/pages/DashboardPage.tsx:39 | an empty expiry field is sent as absent, any other text as it is |
| DashboardPages.DashboardPage.constructor | frontend/src/pages/DashboardPage.tsx:11-16 | an empty form, not loading, not copied |
| DashboardPages.DashboardPage.HandleSubmit | frontend/src/pages/DashboardPage.tsx:20-50 | error cleared first; empty or unparseable URL sets its message and sends nothing; otherwise one shorten request; success shows `origin/code` and empties the form; failure keeps the form, toasts the message and on a 401 signs out and goes to the login page; storage and location are kept otherwise |
| DashboardPages.DashboardPage.HandleCopy | frontend/src/pages/DashboardPage.tsx:52-61 | the shown link goes to the clipboard and the button shows copied, or the failure toast appears; the form fields, link, inline error and loading flag are unchanged |
| DashboardPages.DashboardPage.CopiedTimerFires | frontend/src/pages/DashboardPage.tsx:57 | the copied state ends; the form fields, link, inline error and loading flag are unchanged |
| DashboardPages.DashboardPage.CreateAnother | frontend/src/pages/DashboardPage.tsx:142-146 | link, URL and expiry fields emptied; the inline error, loading flag and copied state are unchanged |
| AnalyticsPages.DateKey | frontend/src/pages/AnalyticsPage.tsx:124 | the text before the first `T`, or all of it |
| AnalyticsPages.FirstOccurrencesDistinct | frontend/src/pages/AnalyticsPage.tsx:123-129 | the dictionary's keys, in creation order, list no date twice |
| AnalyticsPages.Tally | frontend/src/pages/AnalyticsPage.tsx:123-127 | one key per date that occurs, mapped to the number of clicks on it (at least 1) |
| AnalyticsPages.TallyTotal | frontend/src/pages/AnalyticsPage.tsx:123-127 | the counts of the tally add up to the number of clicks |
| AnalyticsPages.TallyByDate | frontend/src/pages/AnalyticsPage.tsx:123-127 | the `reduce` loop builds exactly `Tally` and the dates in first-seen order |
| AnalyticsPages.SortedEntriesOrder | frontend/src/pages/AnalyticsPage.tsx:129-131 | the sorted bars have distinct dates in ascending date order |
| AnalyticsPages.ChartBars | frontend/src/pages/AnalyticsPage.tsx:122-133 | at most 7 bars, ascending, on distinct dates that occur, each with that date's exact count (never zero) |
| AnalyticsPages.ChartKeepsLatest | frontend/src/pages/AnalyticsPage.tsx:132 | a date left off the chart is no later than any date shown |
| AnalyticsPages.ChartComplete | frontend/src/pages/AnalyticsPage.tsx:122-133 | with 7 dates or fewer every date is shown and the bars add up to the number of clicks |
| AnalyticsPages.BuildChart | frontend/src/pages/AnalyticsPage.tsx:122-133 | the tally, its entries sorted and cut to the last 7 give `ChartOf` |
| AnalyticsPages.TotalClicksAppend | frontend/src/pages/AnalyticsPage.tsx:33 | the total over a concatenation is the sum of the totals |
| AnalyticsPages.AverageClicks | frontend/src/pages/AnalyticsPage.tsx:94 | 0 with no URLs; otherwise the whole number nearest to the mean, halves up |
| AnalyticsPages.AverageIsUnique | frontend/src/pages/AnalyticsPage.tsx:94 | only one whole number meets that bound |
| AnalyticsPages.AverageExamples | frontend/src/pages/AnalyticsPage.tsx:94 | 5 over 2 gives 3, 7 over 3 gives 2, 8 over 3 gives 3, none gives 0 |
| AnalyticsPages.AnalyticsPage.FetchAnalytics | frontend/src/pages/AnalyticsPage.tsx:15-28 | the list as received, or an empty list with no toast on failure; a 401 signs out and goes to the login page, anything else keeps storage and location; loading ends |
| AnalyticsPages.AnalyticsPage.Summary | frontend/src/pages/AnalyticsPage.tsx:33-34 | total clicks, number of URLs and the rounded average |
| PasswordStrength.Score | frontend/src/components/Input.tsx:33-40 | the six one-point checks, the length ones on UTF-16 code units, give a score of at most 6 |
| PasswordStrength.NonEmptyScoresAtLeastOne | frontend/src/components/Input.tsx:37-40 | every non-empty password scores at least 1 |
| PasswordStrength.ScoreMonotone | frontend/src/components/Input.tsx:33-40 | appending characters never lowers the score |
| PasswordStrength.FacesScore | frontend/src/components/Input.tsx:33-34 | four characters beyond U+FFFF are eight code units and earn the first length point: score 2 |
| PasswordStrength.ScoreExamples | frontend/src/components/Input.tsx:33-40 | "Password" 3, "Password1!" 5, "123456789012" 3, "a" 1 |
| PasswordStrength.StrengthOf | frontend/src/components/Input.tsx:28-46 | empty gives no strength; otherwise Weak iff score ≤ 2, Medium iff 3–4, Strong iff ≥ 5, each label with its colour (red, yellow, green) |
| PasswordStrength.PasswordInput.constructor | frontend/src/components/Input.tsx:12-17 | score 0 with empty label and colour, password hidden |
| PasswordStrength.PasswordInput.OnValueChange | frontend/src/components/Input.tsx:21-26 | recomputed only for a meter on a string value; otherwise kept |
| PasswordStrength.PasswordInput.ToggleShowPassword | frontend/src/components/Input.tsx:63 | visibility flips, strength kept |
| ShortUrlRedirects.BackendRoot | frontend/src/components/ShortUrlRedirect.tsx:17 | one trailing `/api/` or `/api` removed; any other base unchanged |
| ShortUrlRedirects.BackendRootExamples | frontend/src/components/ShortUrlRedirect.tsx:4-17 | the default base gives `http://localhost:8080`; a doubled suffix loses only the last copy |
| ShortUrlRedirects.RedirectTarget | frontend/src/components/ShortUrlRedirect.tsx:18 | root + "/" + code |
| ShortUrlRedirects.RedirectTargetInjective | frontend/src/components/ShortUrlRedirect.tsx:18 | distinct codes go to distinct addresses |
| ShortUrlRedirects.RedirectEffect | frontend/src/components/ShortUrlRedirect.tsx:14-20 | navigates to the target iff the code is present and non-empty; nothing else changes |

## Left out

- Java `long` overflow: `decode` of more than 10 characters and `encode` near `Long.MAX_VALUE` use unbounded integers here.
- Unicode case folding: `equalsIgnoreCase` and `toLowerCase` are ASCII only, so for example the Kelvin sign matching `k` is not modelled.
- `java.net.URL`: its host and protocol are taken to be the pattern's groups, so the `MalformedURLException` branch of `getValidationError` is not modelled.
- JSON, WHATWG `new URL`, `Date` parsing and `date-fns` formatting are parameters, not models.
- HTTP transport, axios and the servlet API are not modelled. Requests are recorded in `Browser.requests`, and their outcomes are method parameters.
- `@Async` on `trackClick` is modelled as a synchronous call whose exception never reaches the redirect.
- Concurrency and interleaved page requests are not modelled. Each handler runs to completion with the outcome it is given.
- `RateLimitConfig.java`, the controllers and `AuthService.java` are not part of this model.
- `RedirectController.java` calls a `trackClick` overload that `AnalyticsService` does not define, so that path is not modelled.
- The order of steps inside `shortenUrl`: the model settles the short code before it builds the entity, while the source builds the entity first. Nothing is stored until both are done, so no outcome depends on the order.
- The paginated `getUserUrls(email, pageable)` overload is not modelled. Mongo paging has no visible logic.
- Repositories.NewestFirst: the order among clicks with equal timestamps is left open, because a Mongo query sorted on `timestamp` does not promise an order for ties.
- UrlServices.UrlService.GetUserUrls: the order of the list is left open, because the store returns documents in an order the code does not choose.
- AnalyticsServices.AnalyticsService.GetAllAnalytics: the order among URLs created at the same instant is left open, for the same reason.
- AnalyticsPages.SortedEntries: JavaScript `Object.entries` puts integer-like keys first. Date texts are not integer-like, so first-seen order is used for the key list.
- The `console.error` call in `fetchAnalytics` is not modelled: logging has no effect on the page state.
- The password-strength bar width `score / 6 * 100` is floating point and is not modelled.
- Session.InitialUser: a stored text that parses as JSON but not as a user object (for example `42`) is taken to parse as no user. Session.StorageAfterInit then removes the `user` key, whereas the source only removes it when `JSON.parse` throws, so it keeps such a text.
- RedirectServices.RedirectService.GetClientIp: an `X-Forwarded-For` value made only of commas gives the empty address here, where the source throws (see Findings).
- RedirectServices.RedirectService.GetOriginalUrl: for a request whose `X-Forwarded-For` is made only of commas, the model answers from the cache or the store, refreshes the cache and records a click with an empty address, where the source fails before it reads the cache.
- The Redis TTL is modelled as an expiry instant compared with `now`. Redis's own eviction timing is not modelled.

## Findings

`RedirectServices.ClientIpAsWritten` is the address rule as written, and
`RedirectServices.CommaOnlyForwardedForThrows` exhibits the failing input.
`RedirectServices.ClientIp` is the corrected rule that the service uses:
`RedirectService.GetClientIp` computes it, and
`ClientIpAsWrittenFailsOnCommasOnly` proves that the two rules agree on every
other request.

| source | as written | input that shows it | evidently intended | confidence | as-written member | corrected member |
|---|---|---|---|---|---|---|
| src/main/java/com/urlify/service/RedirectService.java:90-92 | `ip.split(",")[0]` on a value made only of commas: Java's `split` drops trailing empty strings, so the array is empty and element 0 throws, failing the redirect | a request with the header `X-Forwarded-For: ,` | take the text before the first comma, trimmed (here the empty string), without throwing | not executed | RedirectServices.CommaOnlyForwardedForThrows | RedirectServices.ClientIp |
