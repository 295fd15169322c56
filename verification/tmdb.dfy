/** The catalog metadata client: API key lookup, list and search wrappers,
    and image URL helpers (src/api/tmdb.ts). */
module Tmdb {
  import opened Prelude
  import opened Decimal
  import opened UrlEncoding
  import opened Catalog

  const TmdbBaseUrl: string := "https://api.themoviedb.org/3"
  const ImageBaseUrl: string := "https://image.tmdb.org/t/p/"
  const PosterPlaceholder: string := "/placeholder-poster.png"
  const BackdropPlaceholder: string := "/placeholder-backdrop.png"
  const DefaultPosterSize: string := "w500"
  const DefaultBackdropSize: string := "original"

  datatype TmdbError =
    | MissingApiKey   // the key is unset or empty
    | RequestFailed   // the request or its JSON decoding threw

  /** JavaScript truthiness of an optional string: present and not empty. */
  predicate Truthy(s: Option<string>) { s.Some? && s.value != "" }

  /** The API key from the environment; an unset or empty key throws. */
  function GetApiKey(env: Option<string>): (r: Result<string, TmdbError>)
    ensures r.Success? <==> Truthy(env)
    ensures r.Success? ==> r.value == env.value
    ensures r.Failure? ==> r.error == MissingApiKey
  {
    if env.Some? && env.value != "" then Success(env.value) else Failure(MissingApiKey)
  }

  /** An image URL, or the placeholder when there is no path. */
  function ImageUrl(path: Option<string>, size: string, placeholder: string): string
  {
    if Truthy(path) then ImageBaseUrl + size + path.value else placeholder
  }

  function SizeOr(size: Option<string>, default: string): string
  {
    if size.Some? then size.value else default
  }

  /** A poster URL: the placeholder exactly when the path is null or empty,
      otherwise the image base, the size (default w500) and the path. */
  function GetPosterUrl(path: Option<string>, size: Option<string>): (url: string)
    ensures url == PosterPlaceholder <==> !Truthy(path)
    ensures Truthy(path) ==>
      IsPrefix(ImageBaseUrl + SizeOr(size, DefaultPosterSize), url)
      && url[|ImageBaseUrl + SizeOr(size, DefaultPosterSize)|..] == path.value
  {
    var url := ImageUrl(path, SizeOr(size, DefaultPosterSize), PosterPlaceholder);
    assert Truthy(path) ==> url[0] == 'h' != PosterPlaceholder[0];
    url
  }

  /** A backdrop URL: the placeholder exactly when the path is null or
      empty, otherwise the image base, the size (default original) and the path. */
  function GetBackdropUrl(path: Option<string>, size: Option<string>): (url: string)
    ensures url == BackdropPlaceholder <==> !Truthy(path)
    ensures Truthy(path) ==>
      IsPrefix(ImageBaseUrl + SizeOr(size, DefaultBackdropSize), url)
      && url[|ImageBaseUrl + SizeOr(size, DefaultBackdropSize)|..] == path.value
  {
    var url := ImageUrl(path, SizeOr(size, DefaultBackdropSize), BackdropPlaceholder);
    assert Truthy(path) ==> url[0] == 'h' != BackdropPlaceholder[0];
    url
  }

  /** A page of results as the catalog API sends it. */
  datatype SearchResponse<T> = SearchResponse(page: int, results: seq<T>, totalPages: int, totalResults: int)

  /** A page of results as the wrappers hand it on. */
  datatype ContentPage<T> = ContentPage(content: seq<T>, totalPages: int)

  /** The catalog API as seen through `fetch` and `response.json()`. */
  type Fetcher<T> = string -> Result<SearchResponse<T>, TmdbError>

  function KindSegment(kind: ContentType): string
  {
    match kind
    case Movie => "movie"
    case TvShow => "tv"
  }

  /** The query fields of `/popular?api_key=${key}&page=${page}`. */
  function PopularFields(key: string, page: int): seq<Field>
  {
    [Field("api_key", key), Field("page", IntToString(page))]
  }

  /** The query fields of `?api_key=${key}&query=${encodeURIComponent(query)}&page=${page}`. */
  function SearchFields(key: string, query: string, page: int): seq<Field>
  {
    [Field("api_key", key), Field("query", EncodeUriComponent(query)), Field("page", IntToString(page))]
  }

  function PopularUrl(kind: ContentType, key: string, page: int): string
  {
    TmdbBaseUrl + "/" + KindSegment(kind) + "/popular" + "?" + JoinFields(PopularFields(key, page))
  }

  function SearchUrl(kind: ContentType, key: string, query: string, page: int): string
  {
    TmdbBaseUrl + "/search/" + KindSegment(kind) + "?" + JoinFields(SearchFields(key, query, page))
  }

  /** Hands a fetched page on as `{content: results, totalPages: total_pages}`. */
  function ToContentPage<T>(r: Result<SearchResponse<T>, TmdbError>): Result<ContentPage<T>, TmdbError>
  {
    match r
    case Success(data) => Success(ContentPage(data.results, data.totalPages))
    case Failure(e) => Failure(RequestFailed)
  }

  /** `getPopularMovies` / `getPopularTVShows`: a missing key throws before
      any request; otherwise the page's results and page count are passed
      on unchanged. */
  function GetPopular<T>(kind: ContentType, env: Option<string>, fetch: Fetcher<T>, page: int): (r: Result<ContentPage<T>, TmdbError>)
    ensures !Truthy(env) ==> r == Failure(MissingApiKey)
    ensures Truthy(env) ==> (r.Success? <==> fetch(PopularUrl(kind, env.value, page)).Success?)
    ensures Truthy(env) && r.Success? ==>
      r.value.content == fetch(PopularUrl(kind, env.value, page)).value.results
      && r.value.totalPages == fetch(PopularUrl(kind, env.value, page)).value.totalPages
  {
    match GetApiKey(env)
    case Failure(e) => Failure(e)
    case Success(key) => ToContentPage(fetch(PopularUrl(kind, key, page)))
  }

  /** `searchMovies` / `searchTVShows`: as `GetPopular`, against the search
      endpoint with the query escaped by `encodeURIComponent`. */
  function Search<T>(kind: ContentType, env: Option<string>, fetch: Fetcher<T>, query: string, page: int): (r: Result<ContentPage<T>, TmdbError>)
    ensures !Truthy(env) ==> r == Failure(MissingApiKey)
    ensures Truthy(env) ==> (r.Success? <==> fetch(SearchUrl(kind, env.value, query, page)).Success?)
    ensures Truthy(env) && r.Success? ==>
      r.value.content == fetch(SearchUrl(kind, env.value, query, page)).value.results
      && r.value.totalPages == fetch(SearchUrl(kind, env.value, query, page)).value.totalPages
  {
    match GetApiKey(env)
    case Failure(e) => Failure(e)
    case Success(key) => ToContentPage(fetch(SearchUrl(kind, key, query, page)))
  }

  /** A key that can stand in a query string as it is (TMDB keys are hex). */
  predicate PlainKey(key: string)
  {
    Clean(key) && '%' !in key && '+' !in key
  }

  lemma DecimalField(page: int)
    ensures Clean(IntToString(page)) && Decode(IntToString(page)) == Utf8(IntToString(page))
  {
    IntToStringChars(page);
    DecodePlain(IntToString(page));
  }

  /** The endpoint paths hold no '?': the query starts at the one the URL adds. */
  lemma EndpointsHaveNoQuery(kind: ContentType)
    ensures '?' !in TmdbBaseUrl + "/" + KindSegment(kind) + "/popular"
    ensures '?' !in TmdbBaseUrl + "/search/" + KindSegment(kind)
  {
    assert '?' !in TmdbBaseUrl && '?' !in KindSegment(kind);
    assert '?' !in "/" && '?' !in "/popular" && '?' !in "/search/";
  }

  lemma FixedNamesClean()
    ensures Clean("api_key") && Clean("query") && Clean("page")
  {
  }

  /** The popular-list fields are clean and decode to the key and the page number. */
  lemma PopularFieldsDecode(key: string, page: int)
    requires PlainKey(key)
    ensures forall i :: 0 <= i < |PopularFields(key, page)| ==>
      Clean(PopularFields(key, page)[i].name) && Clean(PopularFields(key, page)[i].value)
    ensures DecodeFields(PopularFields(key, page))
      == [BytePair(Decode("api_key"), Utf8(key)), BytePair(Decode("page"), Utf8(IntToString(page)))]
  {
    var fs := PopularFields(key, page);
    DecimalField(page);
    DecodePlain(key);
    FixedNamesClean();
    assert fs == [Field("api_key", key), Field("page", IntToString(page))];
    forall i | 0 <= i < |fs|
      ensures Clean(fs[i].name) && Clean(fs[i].value)
    {
      if i == 0 { assert fs[i] == Field("api_key", key); } else { assert fs[i] == Field("page", IntToString(page)); }
    }
    var d := DecodeFields(fs);
    assert |d| == 2 && d[0] == BytePair(Decode("api_key"), Utf8(key));
    assert d[1] == BytePair(Decode("page"), Utf8(IntToString(page)));
  }

  /** The search fields are clean and decode to the key, the query text (as
      UTF-8) and the page number. */
  lemma SearchFieldsDecode(key: string, query: string, page: int)
    requires PlainKey(key)
    ensures forall i :: 0 <= i < |SearchFields(key, query, page)| ==>
      Clean(SearchFields(key, query, page)[i].name) && Clean(SearchFields(key, query, page)[i].value)
    ensures DecodeFields(SearchFields(key, query, page))
      == [BytePair(Decode("api_key"), Utf8(key)), BytePair(Decode("query"), Utf8(query)),
          BytePair(Decode("page"), Utf8(IntToString(page)))]
  {
    var fs := SearchFields(key, query, page);
    DecimalField(page);
    DecodePlain(key);
    FixedNamesClean();
    EncodeIsClean(Component, query);
    DecodeEncode(Component, query);
    var q := EncodeUriComponent(query);
    assert fs == [Field("api_key", key), Field("query", q), Field("page", IntToString(page))];
    forall i | 0 <= i < |fs|
      ensures Clean(fs[i].name) && Clean(fs[i].value)
    {
      if i == 0 { assert fs[i] == Field("api_key", key); }
      else if i == 1 { assert fs[i] == Field("query", q); }
      else { assert fs[i] == Field("page", IntToString(page)); }
    }
    var d := DecodeFields(fs);
    assert |d| == 3 && d[0] == BytePair(Decode("api_key"), Utf8(key));
    assert d[1] == BytePair(Decode("query"), Utf8(query));
    assert d[2] == BytePair(Decode("page"), Utf8(IntToString(page)));
  }

  /** The popular-list URL carries exactly `api_key` and `page`, in that
      order, and a parser reads back the key and the page number. */
  lemma PopularUrlQuery(kind: ContentType, key: string, page: int)
    requires PlainKey(key)
    ensures Cut(PopularUrl(kind, key, page), '?').0 == TmdbBaseUrl + "/" + KindSegment(kind) + "/popular"
    ensures QueryOf(PopularUrl(kind, key, page)).Some?
    ensures Parse(QueryOf(PopularUrl(kind, key, page)).value)
      == [BytePair(Decode("api_key"), Utf8(key)), BytePair(Decode("page"), Utf8(IntToString(page)))]
  {
    EndpointsHaveNoQuery(kind);
    PopularFieldsDecode(key, page);
    ParseQueryUrl(TmdbBaseUrl + "/" + KindSegment(kind) + "/popular", PopularFields(key, page));
  }

  /** The search URL carries `api_key`, `query` and `page`, in that order,
      and a parser reads back the key, the query text (as UTF-8) and the page. */
  lemma SearchUrlQuery(kind: ContentType, key: string, query: string, page: int)
    requires PlainKey(key)
    ensures Cut(SearchUrl(kind, key, query, page), '?').0 == TmdbBaseUrl + "/search/" + KindSegment(kind)
    ensures QueryOf(SearchUrl(kind, key, query, page)).Some?
    ensures Parse(QueryOf(SearchUrl(kind, key, query, page)).value)
      == [BytePair(Decode("api_key"), Utf8(key)), BytePair(Decode("query"), Utf8(query)),
          BytePair(Decode("page"), Utf8(IntToString(page)))]
  {
    EndpointsHaveNoQuery(kind);
    SearchFieldsDecode(key, query, page);
    ParseQueryUrl(TmdbBaseUrl + "/search/" + KindSegment(kind), SearchFields(key, query, page));
  }
}
