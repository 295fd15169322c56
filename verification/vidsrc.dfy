/** The embed provider client: latest-list requests and embed URL builders
    (src/api/vidsrc.ts). */
module Vidsrc {
  import opened Prelude
  import opened Decimal
  import opened UrlEncoding

  const ApiBaseUrl: string := "https://vidsrc.xyz"

  /** A list response of the provider. */
  datatype ListResponse<T> = ListResponse(result: seq<T>, pages: int)

  /** Why a request produced no data: a network error or a non-2xx status.
      A 2xx reply whose body is not JSON does not raise in the source; it
      arrives as text, and such a body is not modelled. */
  datatype RequestError = RequestError

  /** The provider as seen through HTTP: full URL to decoded body or error. */
  type Fetcher<T> = string -> Result<ListResponse<T>, RequestError>

  /** Requests `endpoint` below the base URL; any error gives an empty list
      with zero pages instead of failing. */
  function MakeRequest<T>(fetch: Fetcher<T>, endpoint: string): (r: ListResponse<T>)
    ensures fetch(ApiBaseUrl + endpoint).Failure? ==> r == ListResponse([], 0)
    ensures fetch(ApiBaseUrl + endpoint).Success? ==> r == fetch(ApiBaseUrl + endpoint).value
  {
    match fetch(ApiBaseUrl + endpoint)
    case Success(data) => data
    case Failure(_) => ListResponse([], 0)
  }

  /** A failed request cannot be told apart from a provider that answered
      with an empty first page. */
  lemma FailureLooksLikeEmptyList<T>(fetch: Fetcher<T>, endpoint: string)
    requires fetch(ApiBaseUrl + endpoint).Failure?
    ensures exists other: Fetcher<T> ::
      other(ApiBaseUrl + endpoint).Success? && MakeRequest(other, endpoint) == MakeRequest(fetch, endpoint)
  {
    var other: Fetcher<T> := (u: string) => Success(ListResponse([], 0));
    assert other(ApiBaseUrl + endpoint).Success? && MakeRequest(other, endpoint) == MakeRequest(fetch, endpoint);
  }

  /** The three latest-lists the provider publishes. */
  datatype LatestList = LatestMovies | LatestTvShows | LatestEpisodes

  function ListSegment(list: LatestList): string
  {
    match list
    case LatestMovies => "movies"
    case LatestTvShows => "tvshows"
    case LatestEpisodes => "episodes"
  }

  /** `/{movies|tvshows|episodes}/latest/page-{page}.json`. */
  function LatestPath(list: LatestList, page: int): string
  {
    "/" + ListSegment(list) + "/latest/page-" + IntToString(page) + ".json"
  }

  /** Different lists or pages are always different endpoints. */
  lemma LatestPathInjective(l1: LatestList, p1: int, l2: LatestList, p2: int)
    requires LatestPath(l1, p1) == LatestPath(l2, p2)
    ensures l1 == l2 && p1 == p2
  {
    var s1, s2 := LatestPath(l1, p1), LatestPath(l2, p2);
    assert s1[1] == ListSegment(l1)[0] && s2[1] == ListSegment(l2)[0];
    assert l1 == l2;
    var head := "/" + ListSegment(l1) + "/latest/page-";
    var d1, d2 := IntToString(p1), IntToString(p2);
    assert s1 == head + d1 + ".json" && s2 == head + d2 + ".json";
    assert |d1| == |d2|;
    assert d1 == s1[|head|..|head| + |d1|];
    assert d2 == s2[|head|..|head| + |d2|];
    IntToStringInjective(p1, p2);
  }

  function GetLatestMovies<T>(fetch: Fetcher<T>, page: int): (r: ListResponse<T>)
  {
    MakeRequest(fetch, LatestPath(LatestMovies, page))
  }

  function GetLatestTvShows<T>(fetch: Fetcher<T>, page: int): (r: ListResponse<T>)
  {
    MakeRequest(fetch, LatestPath(LatestTvShows, page))
  }

  function GetLatestEpisodes<T>(fetch: Fetcher<T>, page: int): (r: ListResponse<T>)
  {
    MakeRequest(fetch, LatestPath(LatestEpisodes, page))
  }

  /** The embed player kinds. */
  datatype EmbedType = MovieEmbed | TvEmbed

  function TypeSegment(t: EmbedType): string
  {
    match t
    case MovieEmbed => "movie"
    case TvEmbed => "tv"
  }

  /** The optional settings of an embed URL; an omitted one is `None`. */
  datatype EmbedOptions = EmbedOptions(
    season: Option<int>,
    episode: Option<int>,
    subUrl: Option<string>,
    dsLang: Option<string>)

  const NoOptions: EmbedOptions := EmbedOptions(None, None, None, None)

  /** JavaScript truthiness of an optional number: present and not 0. */
  predicate NumberTruthy(x: Option<int>) { x.Some? && x.value != 0 }

  /** JavaScript truthiness of an optional string: present and not empty. */
  predicate TextTruthy(x: Option<string>) { x.Some? && x.value != "" }

  /** The documented episode form `/embed/tv/{id}/{season}-{episode}`. */
  function EpisodePathUrl(tmdbId: string, season: int, episode: int): string
  {
    ApiBaseUrl + "/embed/tv/" + tmdbId + "/" + IntToString(season) + "-" + IntToString(episode)
  }

  /** The base of the query form, `/embed/{type}`. */
  function QueryFormBase(t: EmbedType): string
  {
    ApiBaseUrl + "/embed/" + TypeSegment(t)
  }

  /** The parameters of the query form, in the order they are appended. */
  function QueryParams(tmdbId: string, opts: EmbedOptions): seq<Param>
  {
    [Param("tmdb", tmdbId)]
    + (if NumberTruthy(opts.season) then [Param("season", IntToString(opts.season.value))] else [])
    + (if NumberTruthy(opts.episode) then [Param("episode", IntToString(opts.episode.value))] else [])
    + (if TextTruthy(opts.subUrl) then [Param("sub_url", opts.subUrl.value)] else [])
    + (if TextTruthy(opts.dsLang) then [Param("ds_lang", opts.dsLang.value)] else [])
  }

  /** Whether `buildEmbedUrl` takes the path form. */
  predicate UsesPathForm(t: EmbedType, opts: EmbedOptions)
  {
    t == TvEmbed && NumberTruthy(opts.season) && NumberTruthy(opts.episode)
  }

  lemma BaseHasNoQuery(t: EmbedType)
    ensures '?' !in QueryFormBase(t)
  {
    assert forall i :: 0 <= i < |QueryFormBase(t)| ==> QueryFormBase(t)[i] != '?';
  }

  function BuildEmbedUrl(t: EmbedType, tmdbId: string, opts: EmbedOptions): (url: string)
    ensures UsesPathForm(t, opts) ==> url == EpisodePathUrl(tmdbId, opts.season.value, opts.episode.value)
    ensures !UsesPathForm(t, opts) ==>
      && Cut(url, '?').0 == QueryFormBase(t)
      && QueryOf(url).Some?
      && Parse(QueryOf(url).value) == Utf8Params(QueryParams(tmdbId, opts))
  {
    if UsesPathForm(t, opts) then
      EpisodePathUrl(tmdbId, opts.season.value, opts.episode.value)
    else
      var query := Serialize(QueryParams(tmdbId, opts));
      BaseHasNoQuery(t);
      CutAt(QueryFormBase(t), '?', query);
      ParseSerialize(QueryParams(tmdbId, opts));
      assert QueryFormBase(t) + "?" + query == QueryFormBase(t) + ['?'] + query;
      QueryFormBase(t) + "?" + query
  }

  /** The value of the first parameter called `name`, if any. */
  function Lookup(ps: seq<Param>, name: string): Option<string>
  {
    if |ps| == 0 then None
    else if ps[0].name == name then Some(ps[0].value)
    else Lookup(ps[1..], name)
  }

  lemma {:induction false} LookupAppend(a: seq<Param>, b: seq<Param>, name: string)
    ensures Lookup(a + b, name) == if Lookup(a, name).Some? then Lookup(a, name) else Lookup(b, name)
  {
    if |a| == 0 {
      assert a + b == b;
    } else {
      assert (a + b)[1..] == a[1..] + b;
      LookupAppend(a[1..], b, name);
    }
  }

  /** The text an optional number contributes, if it is truthy. */
  function NumberText(x: Option<int>): Option<string>
  {
    if NumberTruthy(x) then Some(IntToString(x.value)) else None
  }

  /** The text an optional string contributes, if it is truthy. */
  function TextValue(x: Option<string>): Option<string>
  {
    if TextTruthy(x) then x else None
  }

  lemma LookupSingle(p: Param, name: string)
    ensures Lookup([p], name) == if p.name == name then Some(p.value) else None
  {
    assert [p][1..] == [];
  }

  /** The five parameter names are pairwise different. */
  lemma NamesDistinct()
    ensures "tmdb" != "season" && "tmdb" != "episode" && "tmdb" != "sub_url" && "tmdb" != "ds_lang"
    ensures "season" != "episode" && "season" != "sub_url" && "season" != "ds_lang"
    ensures "episode" != "sub_url" && "episode" != "ds_lang" && "sub_url" != "ds_lang"
  {
    assert "tmdb"[0] == 't' && "season"[0] == 's' && "episode"[0] == 'e';
    assert "sub_url"[0] == 's' && "ds_lang"[0] == 'd';
    assert "season"[1] == 'e' && "sub_url"[1] == 'u';
  }

  /** The block a truthy option contributes to the query form. */
  function Block(name: string, value: Option<string>): seq<Param>
  {
    if value.Some? then [Param(name, value.value)] else []
  }

  lemma QueryParamsBlocks(tmdbId: string, opts: EmbedOptions)
    ensures QueryParams(tmdbId, opts)
      == [Param("tmdb", tmdbId)] + (Block("season", NumberText(opts.season))
         + (Block("episode", NumberText(opts.episode)) + (Block("sub_url", TextValue(opts.subUrl))
         + Block("ds_lang", TextValue(opts.dsLang)))))
  {
  }

  lemma LookupBlock(name: string, value: Option<string>, key: string)
    ensures Lookup(Block(name, value), key) == if name == key then value else None
  {
    if value.Some? {
      LookupSingle(Param(name, value.value), key);
    }
  }

  /** Lookup in the five blocks of the query form, block by block. */
  lemma LookupBlocks(tmdbId: string, opts: EmbedOptions, key: string)
    ensures Lookup(QueryParams(tmdbId, opts), key)
      == if key == "tmdb" then Some(tmdbId)
         else if key == "season" then NumberText(opts.season)
         else if key == "episode" then NumberText(opts.episode)
         else if key == "sub_url" then TextValue(opts.subUrl)
         else if key == "ds_lang" then TextValue(opts.dsLang)
         else None
  {
    var b1, b2 := Block("season", NumberText(opts.season)), Block("episode", NumberText(opts.episode));
    var b3, b4 := Block("sub_url", TextValue(opts.subUrl)), Block("ds_lang", TextValue(opts.dsLang));
    QueryParamsBlocks(tmdbId, opts);
    NamesDistinct();
    LookupSingle(Param("tmdb", tmdbId), key);
    LookupBlock("season", NumberText(opts.season), key);
    LookupBlock("episode", NumberText(opts.episode), key);
    LookupBlock("sub_url", TextValue(opts.subUrl), key);
    LookupBlock("ds_lang", TextValue(opts.dsLang), key);
    LookupAppend([Param("tmdb", tmdbId)], b1 + (b2 + (b3 + b4)), key);
    LookupAppend(b1, b2 + (b3 + b4), key);
    LookupAppend(b2, b3 + b4, key);
    LookupAppend(b3, b4, key);
  }

  /** `tmdb` comes first and carries the id; every other parameter is
      present exactly when its option is truthy, carrying its value. */
  lemma QueryParamsLookup(tmdbId: string, opts: EmbedOptions)
    ensures QueryParams(tmdbId, opts)[0] == Param("tmdb", tmdbId)
    ensures Lookup(QueryParams(tmdbId, opts), "tmdb") == Some(tmdbId)
    ensures Lookup(QueryParams(tmdbId, opts), "season") == NumberText(opts.season)
    ensures Lookup(QueryParams(tmdbId, opts), "episode") == NumberText(opts.episode)
    ensures Lookup(QueryParams(tmdbId, opts), "sub_url") == TextValue(opts.subUrl)
    ensures Lookup(QueryParams(tmdbId, opts), "ds_lang") == TextValue(opts.dsLang)
  {
    NamesDistinct();
    LookupBlocks(tmdbId, opts, "tmdb");
    LookupBlocks(tmdbId, opts, "season");
    LookupBlocks(tmdbId, opts, "episode");
    LookupBlocks(tmdbId, opts, "sub_url");
    LookupBlocks(tmdbId, opts, "ds_lang");
  }

  /** Position of a parameter name in the order `buildEmbedUrl` appends them. */
  function NameRank(name: string): int
  {
    if name == "tmdb" then 0
    else if name == "season" then 1
    else if name == "episode" then 2
    else if name == "sub_url" then 3
    else if name == "ds_lang" then 4
    else 5
  }

  predicate RanksIncrease(ps: seq<Param>)
  {
    forall i, j :: 0 <= i < j < |ps| ==> NameRank(ps[i].name) < NameRank(ps[j].name)
  }

  predicate RanksAbove(ps: seq<Param>, k: int)
  {
    forall i :: 0 <= i < |ps| ==> NameRank(ps[i].name) > k
  }

  lemma RanksIncreaseCons(p: Param, ps: seq<Param>)
    requires RanksIncrease(ps) && RanksAbove(ps, NameRank(p.name))
    ensures RanksIncrease([p] + ps)
  {
  }

  lemma BlockRank(name: string, value: Option<string>, rank: int)
    requires NameRank(name) == rank
    ensures RanksIncrease(Block(name, value))
    ensures forall k :: k < rank ==> RanksAbove(Block(name, value), k)
  {
  }

  lemma RanksIncreaseAppend(a: seq<Param>, b: seq<Param>, k: int)
    requires |a| <= 1 && RanksIncrease(b)
    requires forall i :: 0 <= i < |a| ==> NameRank(a[i].name) == k
    requires RanksAbove(b, k)
    ensures RanksIncrease(a + b)
    ensures forall m :: m < k ==> RanksAbove(a + b, m)
  {
  }

  /** The parameters keep the order tmdb, season, episode, sub_url, ds_lang,
      so no name occurs twice. */
  lemma QueryParamsOrdered(tmdbId: string, opts: EmbedOptions)
    ensures RanksIncrease(QueryParams(tmdbId, opts))
  {
    NamesDistinct();
    var b1, b2 := Block("season", NumberText(opts.season)), Block("episode", NumberText(opts.episode));
    var b3, b4 := Block("sub_url", TextValue(opts.subUrl)), Block("ds_lang", TextValue(opts.dsLang));
    QueryParamsBlocks(tmdbId, opts);
    assert NameRank("ds_lang") == 4 && NameRank("sub_url") == 3;
    assert NameRank("episode") == 2 && NameRank("season") == 1 && NameRank("tmdb") == 0;
    BlockRank("ds_lang", TextValue(opts.dsLang), 4);
    RanksIncreaseAppend(b3, b4, 3);
    RanksIncreaseAppend(b2, b3 + b4, 2);
    RanksIncreaseAppend(b1, b2 + (b3 + b4), 1);
    RanksIncreaseAppend([Param("tmdb", tmdbId)], b1 + (b2 + (b3 + b4)), 0);
  }

  /** Movie player options accepted by `getMovieEmbedUrl`. */
  datatype MovieOptions = MovieOptions(subUrl: Option<string>, dsLang: Option<string>)

  /** A movie embed URL is always in query form. */
  function GetMovieEmbedUrl(tmdbId: string, opts: MovieOptions): (url: string)
    ensures Cut(url, '?').0 == QueryFormBase(MovieEmbed)
    ensures QueryOf(url).Some?
    ensures Parse(QueryOf(url).value)
      == Utf8Params(QueryParams(tmdbId, EmbedOptions(None, None, opts.subUrl, opts.dsLang)))
  {
    BuildEmbedUrl(MovieEmbed, tmdbId, EmbedOptions(None, None, opts.subUrl, opts.dsLang))
  }

  /** A show embed URL never names a season or episode, so it is always the
      query form, carrying `tmdb` and at most `ds_lang`. */
  function GetTvShowEmbedUrl(tmdbId: string, dsLang: Option<string>): (url: string)
    ensures Cut(url, '?').0 == QueryFormBase(TvEmbed)
    ensures QueryOf(url).Some?
    ensures Parse(QueryOf(url).value)
      == Utf8Params([Param("tmdb", tmdbId)] + (if TextTruthy(dsLang) then [Param("ds_lang", dsLang.value)] else []))
  {
    BuildEmbedUrl(TvEmbed, tmdbId, EmbedOptions(None, None, None, dsLang))
  }

  /** An episode embed URL is always the path form: its options are
      ignored and a season or episode of 0 is printed as is. With a non-zero
      season and episode it is exactly what the generic builder makes. */
  function GetEpisodeEmbedUrl(tmdbId: string, season: int, episode: int, opts: MovieOptions): (url: string)
    ensures season != 0 && episode != 0 ==>
      url == BuildEmbedUrl(TvEmbed, tmdbId, EmbedOptions(Some(season), Some(episode), opts.subUrl, opts.dsLang))
  {
    EpisodePathUrl(tmdbId, season, episode)
  }

  /** The episode helper ignores its options and always gives the path form,
      with no query, for every season and episode, 0 included. */
  lemma EpisodeAlwaysPathForm(tmdbId: string, season: int, episode: int, opts: MovieOptions)
    requires '?' !in tmdbId
    ensures GetEpisodeEmbedUrl(tmdbId, season, episode, opts) == EpisodePathUrl(tmdbId, season, episode)
    ensures QueryOf(GetEpisodeEmbedUrl(tmdbId, season, episode, opts)).None?
    ensures forall other ::
      GetEpisodeEmbedUrl(tmdbId, season, episode, other) == GetEpisodeEmbedUrl(tmdbId, season, episode, opts)
  {
    IntToStringChars(season);
    IntToStringChars(episode);
    var url := EpisodePathUrl(tmdbId, season, episode);
    assert '?' !in ApiBaseUrl + "/embed/tv/";
    assert '?' !in url;
    CutNone(url, '?');
  }

  /** For season 0 the episode helper and the generic builder disagree: the
      builder drops the falsy season and falls back to the query form. */
  lemma SeasonZeroFormsDiffer(tmdbId: string, episode: int, opts: MovieOptions)
    requires '?' !in tmdbId
    ensures QueryOf(GetEpisodeEmbedUrl(tmdbId, 0, episode, opts)).None?
    ensures QueryOf(BuildEmbedUrl(TvEmbed, tmdbId, EmbedOptions(Some(0), Some(episode), None, None))).Some?
  {
    IntToStringChars(0);
    IntToStringChars(episode);
    var url := ApiBaseUrl + "/embed/tv/" + tmdbId + "/" + IntToString(0) + "-" + IntToString(episode);
    assert url == GetEpisodeEmbedUrl(tmdbId, 0, episode, opts);
    assert '?' !in ApiBaseUrl + "/embed/tv/";
    assert '?' !in url;
    CutNone(url, '?');
  }
}
