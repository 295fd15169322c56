/** The catalog entities shared by the cache, the metadata client and the
    scripts: a title's metadata and the two kinds of title. */
module Catalog {

  /** The `type` of a cached title: 'movie' or 'tvshow'. */
  datatype ContentType = Movie | TvShow

  /** One metadata field value: a number (popularity, vote average) or a
      string (title, release date). */
  datatype Value = Num(n: real) | Str(s: string)

  /** A title's metadata as the catalog API returns it (a `Movie` or a
      `TVShow`): its numeric id and its named fields. */
  datatype Content = Content(id: int, fields: map<string, Value>)

  /** A season entry of a TV show's details. */
  datatype Season = Season(seasonNumber: int, episodeCount: int)
}
