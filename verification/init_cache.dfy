/** The cache initialisation script (scripts/init-cache.ts): capped, ordered
    crawling of the popular lists, the adapters between the metadata client
    and the crawler, and the tally of available titles. */
module InitCache {
  import opened Prelude
  import opened Catalog
  import opened Tmdb
  import opened ContentCache

  /** Never more than this many pages: the catalog API serves no more. */
  const MaxPages: int := 100

  /** A page as the crawler expects it: `{results, total_pages}`. */
  datatype PageResponse<T> = PageResponse(results: seq<T>, totalPages: int)

  /** `getPopularMoviesAdapter` / `getPopularTVShowsAdapter`: renames the
      fields of a fetched page; an error passes through. */
  function Adapt<T>(r: Result<ContentPage<T>, TmdbError>): (a: Result<PageResponse<T>, TmdbError>)
    ensures a.Success? <==> r.Success?
    ensures a.Failure? ==> a.error == r.error
  {
    match r
    case Success(p) => Success(PageResponse(p.content, p.totalPages))
    case Failure(e) => Failure(e)
  }

  function Unadapt<T>(a: Result<PageResponse<T>, TmdbError>): Result<ContentPage<T>, TmdbError>
  {
    match a
    case Success(p) => Success(ContentPage(p.results, p.totalPages))
    case Failure(e) => Failure(e)
  }

  /** The adapters lose nothing: renaming back gives the page fetched. */
  lemma AdaptRoundTrip<T>(r: Result<ContentPage<T>, TmdbError>)
    ensures Unadapt(Adapt(r)) == r
  {
  }

  /** The popular list of a type, page by page, as the crawler sees it:
      without a key every page throws; with one, a page succeeds exactly
      when the catalog API's popular endpoint answers, and then carries
      that page's results and page count. */
  function PopularPages<T>(kind: ContentType, env: Option<string>, fetch: Tmdb.Fetcher<T>): (f: int -> Result<PageResponse<T>, TmdbError>)
    ensures !Truthy(env) ==> forall page :: f(page) == Failure(MissingApiKey)
    ensures Truthy(env) ==> forall page ::
      f(page).Success? <==> fetch(PopularUrl(kind, env.value, page)).Success?
    ensures Truthy(env) ==> forall page :: f(page).Success? ==>
      && f(page).value.results == fetch(PopularUrl(kind, env.value, page)).value.results
      && f(page).value.totalPages == fetch(PopularUrl(kind, env.value, page)).value.totalPages
  {
    page => Adapt(GetPopular(kind, env, fetch, page))
  }

  /** Without an API key the crawl asks for page 1 only and fails with the
      missing-key error. */
  method CrawlWithoutKey<T>(kind: ContentType, fetch: Tmdb.Fetcher<T>)
    returns (r: Result<seq<T>, TmdbError>, requested: seq<int>)
    ensures requested == [1] && r == Failure(MissingApiKey)
  {
    var pages := PopularPages(kind, None, fetch);
    r, requested := FetchAllPages(pages);
    assert requested[0] == 1 && pages(1).Failure?;
  }

  /** The pages 1 to `n`, concatenated in page order, or the error of the
      first page that fails. */
  function PagesUpTo<T>(fetch: int -> Result<PageResponse<T>, TmdbError>, n: int): Result<seq<T>, TmdbError>
    decreases n
  {
    if n <= 1 then
      (match fetch(1) case Success(p) => Success(p.results) case Failure(e) => Failure(e))
    else
      match PagesUpTo(fetch, n - 1)
      case Failure(e) => Failure(e)
      case Success(xs) =>
        match fetch(n)
        case Success(p) => Success(xs + p.results)
        case Failure(e) => Failure(e)
  }

  /** Once a page fails, every longer crawl fails with its error. */
  lemma {:induction false} FailureSticks<T>(fetch: int -> Result<PageResponse<T>, TmdbError>, k: int, n: int)
    requires 2 <= k <= n && PagesUpTo(fetch, k - 1).Success? && fetch(k).Failure?
    ensures PagesUpTo(fetch, n) == Failure(fetch(k).error)
    decreases n
  {
    if n > k {
      FailureSticks(fetch, k, n - 1);
    }
  }

  /** How many pages the crawl covers once the first page says how many
      there are: at least the first, at most 100. */
  function PageCount(totalPages: int): (n: int)
    ensures 1 <= n <= MaxPages
    ensures totalPages >= 1 ==> n == Min(totalPages, MaxPages)
  {
    Max(Min(totalPages, MaxPages), 1)
  }

  /** `fetchAllPages`: page 1, then pages 2 up to the first page's total
      capped at 100, in order, concatenated; the first failure ends the
      crawl. `requested` lists the pages asked for. */
  method FetchAllPages<T>(fetch: int -> Result<PageResponse<T>, TmdbError>)
    returns (r: Result<seq<T>, TmdbError>, requested: seq<int>)
    ensures 1 <= |requested| <= MaxPages && forall i :: 0 <= i < |requested| ==> requested[i] == i + 1
    ensures forall i :: 0 <= i < |requested| - 1 ==> fetch(requested[i]).Success?
    ensures r.Failure? <==> fetch(|requested|).Failure?
    ensures r.Failure? ==> r.error == fetch(|requested|).error
    ensures fetch(1).Success? && r.Success? ==> |requested| == PageCount(fetch(1).value.totalPages)
    ensures fetch(1).Success? ==> r == PagesUpTo(fetch, PageCount(fetch(1).value.totalPages))
  {
    requested := [1];
    var first := fetch(1);
    if first.Failure? {
      return Failure(first.error), requested;
    }
    var totalPages := Min(first.value.totalPages, MaxPages);
    var all := first.value.results;
    var page := 2;
    while page <= totalPages
      invariant 2 <= page <= Max(totalPages, 1) + 1
      invariant |requested| == page - 1
      invariant forall i :: 0 <= i < |requested| ==> requested[i] == i + 1
      invariant forall i :: 0 <= i < |requested| ==> fetch(requested[i]).Success?
      invariant PagesUpTo(fetch, page - 1) == Success(all)
    {
      var response := fetch(page);
      requested := requested + [page];
      if response.Failure? {
        FailureSticks(fetch, page, PageCount(first.value.totalPages));
        return Failure(response.error), requested;
      }
      all := all + response.value.results;
      page := page + 1;
    }
    r := Success(all);
  }

  /** `results.filter(Boolean).length`. */
  function AvailableCount(results: seq<bool>): (n: nat)
    ensures n == multiset(results)[true]
    ensures n <= |results|
  {
    CountTrueIsMultiplicity(results);
    SelectCount(results, results);
    assert |Select(results, results)| <= |results| by {
      SelectLength(results, results);
    }
    CountTrue(results)
  }

  lemma AvailableCountAppend(a: seq<bool>, b: seq<bool>)
    ensures AvailableCount(a + b) == AvailableCount(a) + AvailableCount(b)
  {
    assert multiset(a + b) == multiset(a) + multiset(b);
  }

  lemma {:induction false} SelectLength<X>(xs: seq<X>, keep: seq<bool>)
    requires |xs| == |keep|
    ensures |Select(xs, keep)| <= |xs|
  {
    if |xs| > 0 {
      SelectLength(xs[..|xs| - 1], keep[..|keep| - 1]);
    }
  }

  /** The sweep over the joined list is the movie sweep then the show sweep. */
  lemma SweepBoth(store: Store, movies: seq<Content>, shows: seq<Content>, now: int, env: Env)
    ensures var movieSweep := CheckEach(store, Jobs(movies, Movie), now, env);
      var showSweep := CheckEach(movieSweep.store, Jobs(shows, TvShow), now, env);
      var sweep := CheckEach(store, LabelJobs(movies + shows, |movies|, false), now, env);
      && AvailableCount(sweep.results) == AvailableCount(movieSweep.results) + AvailableCount(showSweep.results)
      && sweep.store == showSweep.store
  {
    var movieJobs, showJobs := Jobs(movies, Movie), Jobs(shows, TvShow);
    ItemLabelsFollowLists(movies, shows);
    CheckEachAppend(store, movieJobs, showJobs, now, env);
    var movieSweep := CheckEach(store, movieJobs, now, env);
    var showSweep := CheckEach(movieSweep.store, showJobs, now, env);
    AvailableCountAppend(movieSweep.results, showSweep.results);
  }

  /** `initCache` after both crawls: every movie checked as a movie, then
      every show as a show, and the number that answered true. It is the
      movie sweep followed by the show sweep, and the tally adds up. */
  function CheckAll(store: Store, movies: seq<Content>, shows: seq<Content>, now: int, env: Env): (r: (nat, Store))
    ensures var movieSweep := CheckEach(store, Jobs(movies, Movie), now, env);
      var showSweep := CheckEach(movieSweep.store, Jobs(shows, TvShow), now, env);
      r.0 == AvailableCount(movieSweep.results) + AvailableCount(showSweep.results) && r.1 == showSweep.store
    ensures r.0 <= |movies| + |shows|
  {
    var jobs := LabelJobs(movies + shows, |movies|, false);
    SweepBoth(store, movies, shows, now, env);
    var sweep := CheckEach(store, jobs, now, env);
    (AvailableCount(sweep.results), sweep.store)
  }

  /** The tally counts exactly the titles the filter would keep. */
  lemma CountMatchesFilter(items: seq<Content>, results: seq<bool>)
    requires |items| == |results|
    ensures AvailableCount(results) == |Select(items, results)|
  {
    SelectCount(items, results);
  }
}
