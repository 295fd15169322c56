# Availability cache, backfill and URL builders of a movie/TV catalog site

This project models the rule-bearing core of a movie and TV browsing site
in Dafny. The site fetches metadata from a catalog API (TMDB) and checks
whether each title can be played by an embed provider (vidsrc). It caches
the answer per title in a document collection, and two maintenance scripts
fill that collection and backfill season data.

The model covers six parts, one module each:

- **ContentCache**: the availability cache of `src/api/mongodb.ts`.
  - The collection is a sequence of records with at most one record per catalog id.
  - It models a point check with a 24-hour freshness window, the batched filter and the one-week cleanup.
  - It models the popular-list refresh, which types each batch of ten by its first index.
- **ContentQuery**: the category query of `src/api/mongodb.ts`. It models the filter, the descending sort in the database's mixed-type order, skip/limit and the page count.
- **Backfill**: the season backfill script `scripts/update-tv-episodes.ts`.
  - It models the adaptive concurrency limit, the retry policy and the queue with its in-flight admission check.
  - It models the bulk-write buffer flushed at 100 entries and the batching in groups of 50.
  - Asynchrony is sequential. An event schedule says when the monitor ticks, which in-flight show completes next, and when the dispatcher wakes.
- **InitCache**: the crawler `scripts/init-cache.ts`. It models the page adapters, the capped page-by-page fetch and the available-count tally.
- **Vidsrc** and **Tmdb**: the two API clients. They cover request fallbacks, endpoint paths, embed URLs in path or query form, image URLs with placeholders, the API key check and the list/search wrappers.
- **Auth**: the demo admin login of `src/lib/auth.ts`. This is a credential check plus a browser-stored session that expires two hours after login.

Shared modules:

- **Prelude**: `Option`, `Result` and sequence helpers.
- **Decimal**: integers printed as JavaScript prints them, with a parser proved to invert the printer. The printing agrees with JavaScript for integers below 10^21 in magnitude that a double holds exactly, which includes every safe integer up to 2^53. Larger values print in exponent form or are rounded in JavaScript and are outside the model.
- **UrlEncoding**: the `application/x-www-form-urlencoded` serializer and parser of section 5 of the WHATWG URL Standard, and `encodeURIComponent`. Both are modelled over UTF-8 and proved to round-trip.
- **Catalog**: the shared entities.

Things outside the program become parameters:

- Network calls are oracle functions: probe responses, fetch results, catalog replies.
- Clocks are integer milliseconds passed in as `now`.
- Browser storage is a map.
- Where the database or a request throws, that is a parameter of the environment.

Where the code and its documentation disagree, the model follows the code:

- The `latest` category filters and sorts on `release_date` for TV shows too. TV show metadata carries `first_air_date` instead, so in practice no show matches (src/api/mongodb.ts:323-326, 347-349).
- Two checks of the same title, the second awaited after the first has finished, do not both probe when the first check's lookup and write succeed and its probe gets a response. The second then finds the record the first wrote and answers from it (`ContentCache.SecondCheckHitsCache`). If the first probe or write throws, nothing is written and the second check probes again (`ContentCache.FailedCheckProbesAgain`). Checks started together in one `Promise.all` all look the key up before any of them writes, so this does not hold for them.
- Cleanup removes records last checked more than exactly seven days earlier. No other retention period appears in the code.

## Model

| member | source | states |
|---|---|---|
| Decimal.ParseIntToString | src/api/vidsrc.ts:77-78 | Printing an integer as a template literal or with `toString` loses nothing: parsing the text gives back the integer. This covers the integers JavaScript prints in plain decimal, those below 10^21 in magnitude that a double holds exactly. |
| Decimal.IntToStringInjective | src/api/vidsrc.ts:53-60 | Different integers print as different text, so different page numbers give different paths. |
| UrlEncoding.DecodeEncode | src/api/tmdb.ts:104-120 | Percent-decoding undoes both escapes: the form serializer and `encodeURIComponent`. The result is the UTF-8 bytes of the original text. |
| UrlEncoding.EncodeIsClean | src/api/tmdb.ts:104-120 | Escaped text never contains `&`, `=`, `?` or `#`, so a query value cannot split the query or start a fragment. |
| UrlEncoding.ParseSerialize | src/api/vidsrc.ts:74-82 | Parsing what `URLSearchParams.toString()` produced gives back every appended name and value, as UTF-8, in append order. |
| Vidsrc.MakeRequest | src/api/vidsrc.ts:42-50 | A successful request returns the decoded body unchanged. Any failure returns an empty list with 0 pages. |
| Vidsrc.FailureLooksLikeEmptyList | src/api/vidsrc.ts:42-50 | A caller cannot tell a failed request from a provider that answered with an empty list. |
| Vidsrc.LatestPathInjective | src/api/vidsrc.ts:53-60 | The latest-list paths `/{movies,tvshows,episodes}/latest/page-{n}.json` are different for different lists or pages. |
| Vidsrc.BuildEmbedUrl | src/api/vidsrc.ts:63-83 | A TV embed with a truthy season and episode gives `/embed/tv/{id}/{season}-{episode}`. Anything else gives `/embed/{type}?...`, whose query parses back to exactly the parameters appended. |
| Vidsrc.QueryParamsLookup | src/api/vidsrc.ts:74-80 | The query form starts with `tmdb` carrying the id. `season`, `episode`, `sub_url` and `ds_lang` each appear exactly when their option is truthy, so 0 and "" are dropped, and each carries its value. |
| Vidsrc.QueryParamsOrdered | src/api/vidsrc.ts:74-80 | The parameters always come in the order tmdb, season, episode, sub_url, ds_lang, so no name occurs twice. |
| Vidsrc.GetMovieEmbedUrl | src/api/vidsrc.ts:86-87 | A movie embed URL is always the query form on `/embed/movie`, carrying the id and the truthy subtitle and language options. |
| Vidsrc.GetTvShowEmbedUrl | src/api/vidsrc.ts:89-90 | A show embed URL is always the query form on `/embed/tv`, carrying only `tmdb` and, when truthy, `ds_lang`. |
| Vidsrc.GetEpisodeEmbedUrl | src/api/vidsrc.ts:92-100 | With a non-zero season and episode, the episode URL is exactly what the generic builder makes for those values. |
| Vidsrc.EpisodeAlwaysPathForm | src/api/vidsrc.ts:92-100 | For every season and episode, 0 included, the episode URL is the path form with no query, and the options make no difference. |
| Vidsrc.SeasonZeroFormsDiffer | src/api/vidsrc.ts:63-100 | For season 0 the two differ. The episode helper still gives the path form without a query, while the generic builder falls back to the query form. |
| Tmdb.GetApiKey | src/api/tmdb.ts:45-52 | It succeeds exactly when the key is set and non-empty, and then returns it unchanged. Otherwise it fails with the missing-key error. |
| Tmdb.GetPosterUrl | src/api/tmdb.ts:123-126 | It returns the poster placeholder exactly when the path is null or empty. Otherwise it returns the image base, the size (default `w500`) and then the path. |
| Tmdb.GetBackdropUrl | src/api/tmdb.ts:128-131 | It returns the backdrop placeholder exactly when the path is null or empty. Otherwise it returns the image base, the size (default `original`) and then the path. |
| Tmdb.GetPopular | src/api/tmdb.ts:76-92 | A missing key fails before any request. Otherwise it succeeds exactly when the fetch of the popular endpoint does, passing `results` and `total_pages` on unchanged. |
| Tmdb.Search | src/api/tmdb.ts:104-120 | A missing key fails before any request. Otherwise it succeeds exactly when the fetch of the search endpoint does, passing `results` and `total_pages` on unchanged. |
| Tmdb.PopularUrlQuery | src/api/tmdb.ts:76-92 | The popular URL is `/{movie,tv}/popular` with a query that parses back to exactly `api_key` and `page`, in that order. |
| Tmdb.SearchUrlQuery | src/api/tmdb.ts:104-120 | The search URL is `/search/{movie,tv}` with a query that parses back to `api_key`, the query text (any characters, as UTF-8) and `page`, in that order. |
| Auth.AuthenticateUser | src/lib/auth.ts:23-29 | It returns the admin user if and only if the username is `admin` and the password is `admin123`. |
| Auth.SetAuthUser | src/lib/auth.ts:32-42 | In the browser it stores the user with an expiry two hours after now under `auth_user` and changes no other key. On the server it changes nothing. |
| Auth.GetAuthUser | src/lib/auth.ts:45-65 | Nothing stored, or a blank or malformed entry, gives no user and leaves storage alone. A strictly expired session gives no user and removes the entry. Any other session gives its user. |
| Auth.Logout | src/lib/auth.ts:67-70 | It removes exactly the session key in the browser and does nothing on the server. |
| Auth.IsAdmin | src/lib/auth.ts:72-75 | It holds exactly when the current session has a user whose role is admin. An expired session is removed on the way. |
| Auth.SessionLifetime | src/lib/auth.ts:32-65 | A login is honoured up to and including two hours later. After that it is refused and cleared. |
| Auth.LogoutEndsSession | src/lib/auth.ts:45-70 | After a logout no user is returned, whatever was stored before. |
| Auth.AdminLoginIsAdmin | src/lib/auth.ts:23-75 | Logging in as admin and asking within two hours says admin. |
| Auth.InvalidDateNeverExpires | src/lib/auth.ts:53-61 | A stored session whose expiry is not a valid date is never treated as expired. |
| ContentCache.FindSpec | src/api/mongodb.ts:74 | The lookup by id returns a stored record, and misses exactly when no record carries the id. |
| ContentCache.KeyedCount | src/api/mongodb.ts:88-103 | In a collection keyed by id, an id is carried by one record if it is found and by none otherwise. |
| ContentCache.Upsert | src/api/mongodb.ts:88-103 | After the upsert, the id finds a record with the new type, data, availability and check time, keeping the seasons it had. A record is appended only if the id was absent. |
| ContentCache.UpsertOthers | src/api/mongodb.ts:88-103 | The upsert leaves every other id as it was. |
| ContentCache.UpsertKeyed | src/api/mongodb.ts:88-103 | The upsert keeps at most one record per id. |
| ContentCache.ProbeUrlInjective | src/api/mongodb.ts:80-83 | The probe URL depends only on type and id, and different titles are probed at different URLs. |
| ContentCache.CheckAndCacheAvailability | src/api/mongodb.ts:64-110 | A lookup that throws answers false and changes nothing. A record checked less than 24 hours ago answers its cached value with no probe and no write. Otherwise it probes the movie or show URL. A probe or write that throws answers false, and a throwing probe writes nothing. A response upserts `available = ok` at `now` and answers `ok`. |
| ContentCache.CheckLeavesOthers | src/api/mongodb.ts:72-109 | A check writes at most the record of the title checked. |
| ContentCache.CheckKeyed | src/api/mongodb.ts:72-109 | A check keeps at most one record per id. |
| ContentCache.DayOldIsProbed | src/api/mongodb.ts:74-78 | A record exactly 24 hours old is not fresh: the title is probed again. |
| ContentCache.ProbedOnceRecorded | src/api/mongodb.ts:85-105 | After a successful probe exactly one record carries the id, with the new answer, type and time. This holds even when a record of the other type held that id before. |
| ContentCache.SecondCheckHitsCache | src/api/mongodb.ts:74-105 | Two checks at the same time, the second after the first has finished: when the first check's lookup and write succeed and its probe gets a response, the second gives the first's answer, with no probe and no change. |
| ContentCache.FailedCheckProbesAgain | src/api/mongodb.ts:74-110 | A check without a fresh record whose probe or write throws leaves the collection as it was, so the next check of the title probes the same URL again. |
| ContentCache.CheckEachKeyed | src/api/mongodb.ts:123-133 | Checking a list of titles one after another keeps at most one record per id. |
| ContentCache.CheckEachAppend | src/api/mongodb.ts:123-133 | Checking one list and then another is the same as checking their concatenation, so slicing into batches of ten changes nothing. |
| ContentCache.FilterAvailableContent | src/api/mongodb.ts:112-136 | It checks every title once, in order, ten at a time. It returns exactly the titles whose check answered true, in their original order, and leaves the collection as that sweep does. |
| ContentCache.CleanupOldContent | src/api/mongodb.ts:138-155 | A record survives exactly when it was last checked no more than seven days before `now`. |
| ContentCache.CleanupKeepsOrder | src/api/mongodb.ts:138-155 | Cleanup returns exactly the subsequence of fresh records: survivors keep their relative order and duplicates, and nothing else is kept. |
| ContentCache.CleanupFind | src/api/mongodb.ts:143-150 | Seen by id, a record survives unchanged if it is at most a week old, and is gone otherwise. |
| ContentCache.CleanupBoundary | src/api/mongodb.ts:143-150 | A record exactly seven days old stays, and one a millisecond older goes. |
| ContentCache.CleanupIdempotent | src/api/mongodb.ts:143-150 | Cleaning twice at the same time removes nothing more. |
| ContentCache.CleanupKeyed | src/api/mongodb.ts:143-150 | Cleanup keeps at most one record per id. |
| ContentCache.UpdatePopularContent | src/api/mongodb.ts:157-190 | Failed list fetches change nothing. Otherwise every item of movies followed by shows is checked once, in order, with the type of the first item of its batch of ten. |
| ContentCache.StraddlingBatchMislabelsShows | src/api/mongodb.ts:174-184 | With 15 movies, items 15 to 19 are shows but are checked as movies. |
| ContentCache.BatchLabelsAgreeOnBoundary | src/api/mongodb.ts:174-184 | Typing by batch agrees with typing by item if and only if the movie count is a multiple of ten or there are no shows. |
| ContentCache.ItemLabelsFollowLists | src/api/mongodb.ts:175-182 | Typed by item, every movie is checked as a movie and every show as a show: the jobs of the joined list are the movie jobs followed by the show jobs. |
| ContentCache.UpdatePopularByItem | src/api/mongodb.ts:174-184 | Failed list fetches change nothing. Otherwise the corrected refresh checks exactly the movies, each as a movie, then the shows, each as a show, in order and still in batches of ten, and the store is what those checks leave. |
| ContentQuery.KeyOrder | src/api/mongodb.ts:341-363 | The sort order (missing below numbers below strings, strings by character code) is a strict total order. |
| ContentQuery.SortDesc | src/api/mongodb.ts:357-363 | Sorting only reorders: the result is a permutation of its input. |
| ContentQuery.SortDescSorted | src/api/mongodb.ts:357-363 | Sorting puts no record below a later one in the sort field. |
| ContentQuery.FilterField | src/api/mongodb.ts:315-336 | Only the empty category adds no field filter. `popular`, `latest` and `top_rated` filter on popularity, release_date and vote_average, and any other category filters on itself. |
| ContentQuery.SortField | src/api/mongodb.ts:341-355 | The three named categories sort on their filter field. Everything else sorts on popularity. |
| ContentQuery.Matching | src/api/mongodb.ts:316-339 | A record matches exactly when it is in the collection, of the type asked for, available, and carries the filter field. |
| ContentQuery.Window | src/api/mongodb.ts:358-363 | Skip and limit return the consecutive rows starting at the skip, as many as the limit allows and the input holds: exactly the slice from the skip to skip plus limit, cut at the end. A skip past the end returns nothing. |
| ContentQuery.TotalPages | src/api/mongodb.ts:368 | A limit of 0 gives no finite page count. A positive limit gives the least page count that covers the total. A negative limit gives the ceiling of a negative quotient. |
| ContentQuery.GetContentByCategory | src/api/mongodb.ts:307-370 | A negative skip is an error. Otherwise it returns the count of all matches, the page count for that count, and the page asked for. The page holds at most as many items as the limit's magnitude. For a page from 1 and a positive limit it always succeeds. Page `p` then holds the data of the matches sorted descending by the category field, from `(p-1)*limit` up to `p*limit`, and every page after the last is empty. |
| ContentQuery.PageRecordsSpec | src/api/mongodb.ts:357-363 | Every record of a page comes from the collection, matches the query, and the page is in descending order. |
| ContentQuery.PagesTile | src/api/mongodb.ts:313-363 | With a positive limit, page p holds the sorted matches from (p - 1) * limit up to p * limit, clipped to their number, so consecutive pages tile the sorted list. |
| ContentQuery.PagesPastTheEnd | src/api/mongodb.ts:313-368 | A page past the page count skips every match, so it is empty. |
| ContentQuery.PopularExample | src/api/mongodb.ts:307-370 | For three available movies with popularity 10, 50 and 30, page 1 with limit 2 returns the 50 and the 30, a total of 3, and 2 pages. |
| Backfill.Classify | scripts/update-tv-episodes.ts:207-221 | The host is strained exactly when memory use is above 0.8 or load above 0.8. It is relaxed exactly when memory use is below 0.56 and load below 0.6. |
| Backfill.AdjustLimit | scripts/update-tv-episodes.ts:207-221 | A limit in [10, 50] stays there. A strained tick lowers it unless it is already 10, a relaxed tick raises it unless it is already 50, and a steady tick keeps it. |
| Backfill.LimitStaysInRange | scripts/update-tv-episodes.ts:207-221 | Starting from 25, no sequence of monitor ticks takes the limit out of [10, 50]. |
| Backfill.FetchWithRetries | scripts/update-tv-episodes.ts:58-86 | It returns the details as soon as they arrive, if fewer than three errors came first. It rethrows on the third error. It waits 1000 ms before retrying a 429 and 200 ms times the attempt before retrying an error. |
| Backfill.GiveUpAfterThreeErrors | scripts/update-tv-episodes.ts:76-84 | A fetch that rethrows has seen exactly three errors and never the details. |
| Backfill.RateLimitsDoNotCount | scripts/update-tv-episodes.ts:69-74 | Any run of 429 replies followed by the details ends with the details, after a 1000 ms wait for each 429. |
| Backfill.ProcessTvShow | scripts/update-tv-episodes.ts:162-179 | The details with at least one season are an update. Details without seasons count as a success with nothing to write. A rethrown error is a failure. |
| Backfill.Fill | scripts/update-tv-episodes.ts:103-107 | Only the queue, the in-flight set and the admissions change. It stops when the queue is empty or as many shows as the limit are in flight. |
| Backfill.FillAdmits | scripts/update-tv-episodes.ts:103-107 | Earlier admissions are kept. The new ones are the head of the queue, in order, and they join the in-flight set. |
| Backfill.FillAdmitsBelowLimit | scripts/update-tv-episodes.ts:103-107 | Every show is admitted while fewer shows than the limit of that moment are in flight. |
| Backfill.FillRespectsLimit | scripts/update-tv-episodes.ts:103 | With as many shows in flight as the limit, nothing is admitted. |
| Backfill.LoweredLimitCanBeExceeded | scripts/update-tv-episodes.ts:103-110 | With 25 in flight, a strained tick lowers the limit to 20, and the 25 stay in flight. |
| Backfill.Complete | scripts/update-tv-episodes.ts:111-132 | One in-flight show leaves the in-flight set and is recorded as completed. The queue, limit and admissions are unchanged. |
| Backfill.CompleteBuffer | scripts/update-tv-episodes.ts:111-126 | A completion keeps everything staged split into full flushes of exactly 100 and a buffer of fewer than 100. |
| Backfill.CompleteGood | scripts/update-tv-episodes.ts:111-126 | Completing a show keeps the bookkeeping: counts, staged entries, full flushes of 100 and a buffer below 100. |
| Backfill.FillGood | scripts/update-tv-episodes.ts:103-110 | Filling keeps the bookkeeping and moves shows from the queue to the in-flight set without losing any. |
| Backfill.RunSchedule | scripts/update-tv-episodes.ts:100-136 | When the dispatcher loop ends, nothing is queued or in flight and the bookkeeping still holds. |
| Backfill.Drained | scripts/update-tv-episodes.ts:100 | Once nothing is queued or in flight, every show of the batch was admitted and completed exactly once, and success + failed is the batch size. |
| Backfill.FlushRest | scripts/update-tv-episodes.ts:139-141 | A non-empty remaining buffer becomes one last flush, so the flushes hold everything staged and the buffer is empty. |
| Backfill.ProcessBatch | scripts/update-tv-episodes.ts:89-188 | At the end, queue and in-flight set are empty. Every show was admitted once, in order, below the limit of its moment, and completed once, and success + failed is the batch size. The flushes hold exactly the staged entries in completion order. Every flush but the last holds 100, the last holds 1 to 100, and the limit stays in [10, 50]. |
| Backfill.TotalBatches | scripts/update-tv-episodes.ts:255 | The batch count is the least number of 50-show batches that covers the list. |
| Backfill.ReportBatch | scripts/update-tv-episodes.ts:260-265 | A batch's report carries its number and its shows, and its success and failure counts add up to its size. |
| Backfill.UpdateEpisodes | scripts/update-tv-episodes.ts:255-266 | Batch k (from 0) covers shows 50k up to 50(k+1), clipped to the list, and is numbered k + 1. The totals are the sums of the batch counts and add up to the number of shows. |
| InitCache.Adapt | scripts/init-cache.ts:29-43 | The adapters rename `content` and `totalPages` to `results` and `total_pages` without altering either, and pass errors on. |
| InitCache.AdaptRoundTrip | scripts/init-cache.ts:29-43 | Renaming back gives the page fetched, so the adapters lose nothing. |
| InitCache.PopularPages | scripts/init-cache.ts:29-43 | Without an API key every page fails with the missing-key error. With a key, a page succeeds exactly when the popular endpoint's fetch for that page does, and then carries its results and page count. |
| InitCache.CrawlWithoutKey | scripts/init-cache.ts:29-66 | Without an API key the crawl of a popular list requests page 1 only and fails with the missing-key error. |
| InitCache.PageCount | scripts/init-cache.ts:52 | The crawl covers the first page's total, capped at 100. A total of 1 or less, including 0, covers page 1 only. |
| InitCache.FailureSticks | scripts/init-cache.ts:58-62 | Once a page fails, every longer crawl fails with that page's error. |
| InitCache.FetchAllPages | scripts/init-cache.ts:46-66 | It requests pages 1, 2, ... in ascending order, each once and at most 100. It stops at the first failure with that page's error. Otherwise it returns the concatenation of the results of pages 1 to the page count, in page order. |
| InitCache.AvailableCount | scripts/init-cache.ts:91-92 | The tally is the number of checks that answered true. |
| InitCache.CountMatchesFilter | scripts/init-cache.ts:91-92 | The tally equals the number of titles the batched filter would keep for the same answers. |
| InitCache.SweepBoth | scripts/init-cache.ts:86-92 | The sweep of the joined list ends in the store the movie sweep then the show sweep leave, and its tally is the sum of theirs. |
| InitCache.CheckAll | scripts/init-cache.ts:86-92 | The checks of the joined list are the movie sweep, with every movie checked as a movie, followed by the show sweep, with every show checked as a show. The tally is the sum of the two sweeps' tallies and at most the number of titles. |

## Left out

- Database plumbing is not modelled: connecting, index creation, the driver and the environment checks at module load. It is I/O.
- `fetchAndCacheAllContent` (src/api/mongodb.ts:192-305) is left out. It relies on background prefetch promises that mutate shared arrays, and it ends only when a remote API says so.
- `getMovieDetails`, `getTVShowDetails` and the generic `makeRequest` of src/api/tmdb.ts are left out. They are plain HTTP calls with no rule of their own. A request or JSON failure of the list and search wrappers is one error value.
- Tmdb.GetPopular, Tmdb.Search: the source never checks `response.ok`. A non-2xx reply with a JSON error body resolves with `content` and `totalPages` undefined. The model's fetch oracle returns either an error or a body carrying both fields, so this case is not modelled.
- Real interleavings are not modelled: `Promise.all` batches, the fire-and-forget bulk write, and the `setInterval` and `setTimeout` timers. They are sequential steps, and a schedule of ticks, completions and wake-ups stands for the timing.
- InitCache.CheckAll, InitCache.SweepBoth: the source starts every check at once, so all lookups happen before any write. The model checks one title after another. With distinct `tmdbId`s the two agree. A repeated id differs. That includes a movie and a show that share a numeric id, since records are keyed by `tmdbId` alone. In the model the later check answers from the record the earlier one wrote. In the source both probe their own URL, both write, the last write to finish wins, and each counts its own answer in the tally.
- ContentCache.FilterAvailableContent, ContentCache.UpdatePopularContent, ContentCache.UpdatePopularByItem: each batch of ten is checked with `Promise.all`, and the model checks it one title after another. They differ only when an id repeats within one batch. The model then probes once and answers the repeat from the fresh record. The source probes twice and keeps whichever write finishes last.
- Backfill.ProcessBatch requires the ids of a batch to be distinct. With duplicate ids the source's in-flight `Set` holds fewer entries than are running, and that interleaving is not modelled.
- Backfill.ProcessBatch completes the remaining shows oldest first once the schedule is used up. This is one of the orders the source allows, not all of them.
- Backfill.FetchWithRetries reports a fetch that has not settled when the replies run out. An endless run of 429 replies, on which the source never returns, is represented only by its finite prefixes.
- A failed bulk write is not modelled. The source swallows the error and the entries are lost. The model records every flush as handed over, and the bulk writer is not part of this model.
- Floating point is not modelled exactly, and metadata numbers are reals.
- Backfill.AdjustLimit computes `c*4/5` and `c*6/5` in integers where the source floors `c*0.8` and `c*1.2` in binary floating point.
- Backfill.Classify takes the memory threshold `0.8*0.7` as exactly 0.56. In binary floating point it is slightly below 0.56.
- Calendar arithmetic (`setDate(-7)`, the local day length) is replaced by integer milliseconds and a week of exactly seven 24-hour days.
- Auth.SetAuthUser: the session expiry is a flat 7,200,000 ms after login. The source adds two to the local hour (`setHours(getHours() + 2)`, src/lib/auth.ts:35-36), which spans one or three hours of real time across a daylight-saving change.
- ContentQuery.GetContentByCategory takes `kind`, `category`, `page` and `limit` explicitly. The source's defaults (`'popular'`, page 1, limit 20, src/api/mongodb.ts:307) are not modelled as defaults. A caller relying on them is the call with those values.
- ContentQuery.GetContentByCategory treats a category as a flat field name. A category containing a dot, which the database would read as a nested path, is not modelled.
- ContentQuery.SortDesc breaks ties in natural collection order. The database makes no promise about ties, and each page is a separate `find().sort().skip().limit()` query (src/api/mongodb.ts:357-363). So ContentQuery.PagesTile holds for the model's fixed tie order only. In the source, records with equal keys, common for `vote_average` and `release_date`, may come back in a different order for each page, so consecutive pages can repeat one record and skip another. Strings compare by Unicode code point, which is the order of their UTF-8 bytes that the database uses.
- ContentCache.CheckEach, ContentCache.FilterAvailableContent: a whole sweep uses one `now`. The source reads the clock afresh in every check (src/api/mongodb.ts:70). A record that turns 24 hours old during a long sweep is fresh to the model but stale to the source, which probes it again.
- Backfill.UpdateEpisodes: memory-monitor ticks that the dispatcher loop of a batch has not used are dropped when the batch ends. In the source the monitor's `setInterval` (scripts/update-tv-episodes.ts:192) keeps firing during the final bulk update and between batches (scripts/update-tv-episodes.ts:139-141, 260-263). So a limit change before the next batch's first fill cannot happen in the model. No proved property depends on when the limit changes, since every limit stays in the proved range.
- Cleanup that throws is swallowed by the source. A partial delete is not modelled.
- The route handlers under `src/app/api`, all pages, components, hooks and `next.config.js` are left out. They are presentation.
- The `check-db`, `fetch-all` and `init-db` scripts are pure I/O drivers and are left out.
- The functions imported from outside the shown files are not part of this model: `bulkUpdateTVShowSeasonData`, `checkAndUpdateEpisodeAvailability`, `searchContent`, `cleanupOldCache`. The bulk update is an opaque sink.
- Vidsrc.MakeRequest: a 2xx reply whose body is not JSON does not make axios throw. It resolves with the body as text, which the source returns as if it were a list. The model's oracle yields a list or an error, so this case is not modelled.
- The latest-list functions of src/api/vidsrc.ts are covered by the rows for `Vidsrc.MakeRequest` and `Vidsrc.LatestPathInjective`.

## Findings

| source | as written | input that shows it | evidently intended | confidence | as-written member | corrected member |
|---|---|---|---|---|---|---|
| src/api/mongodb.ts:174-184 | Each batch of ten of the joined list `movies ++ shows` is typed by its first index, `i < movies.length ? 'movie' : 'tvshow'`. | 15 popular movies and any shows. The batch of items 10 to 19 starts at a movie, so shows 15 to 19 are probed at the movie embed URL and stored with type `movie`. | Each item is checked as the type of the list it came from. | not executed; medium (the two lists usually hold 20 items each, which hides it) | ContentCache.UpdatePopularContent, ContentCache.StraddlingBatchMislabelsShows | ContentCache.UpdatePopularByItem, ContentCache.ItemLabelsFollowLists |
