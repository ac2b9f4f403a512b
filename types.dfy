/**
 * Shared datatypes of the movie catalogue: the records of types/index.ts,
 * the feed identifiers, the parsed JSON values the client reads back from
 * storage, and the usual Option / Result wrappers.
 */
module Types {

  datatype Option<+T> = None | Some(value: T)

  datatype Result<+R, +E> = Success(value: R) | Failure(error: E)

  /** The two media types the provider distinguishes ("movie" | "tv"). */
  datatype MediaType = Movie | Tv

  /** FeedId: the tabs of the client, plus the synthetic "search" feed. */
  datatype Feed = Popular | Trending | NowPlaying | Upcoming | Discover | Favorites | Watchlist | Search

  /**
   * UiMovie: the normalised record the client renders. `runtime` and
   * `trending` are optional fields (absent is `None`); ratings are reals taken
   * as given.
   */
  datatype UiMovie = UiMovie(
    id: string,
    title: string,
    year: string,
    genres: seq<string>,
    rating: real,
    runtime: Option<real>,
    poster: string,
    overview: string,
    trending: Option<bool>,
    mediaType: MediaType)

  /**
   * TmdbMovie: one record of a provider list page. Every property but `id`
   * is optional; a `null` poster path is `None` like an absent one.
   */
  datatype TmdbMovie = TmdbMovie(
    id: int,
    title: Option<string>,
    name: Option<string>,
    releaseDate: Option<string>,
    firstAirDate: Option<string>,
    genreIds: Option<seq<int>>,
    voteAverage: Option<real>,
    overview: Option<string>,
    posterPath: Option<string>,
    mediaTypeField: Option<string>)

  /** TmdbListResponse: `results` or `items`, and the reported page count. */
  datatype ListResponse = ListResponse(
    results: Option<seq<TmdbMovie>>,
    items: Option<seq<TmdbMovie>>,
    totalPages: Option<int>)

  /** GenreState: id -> name, name -> id, and the names in payload order. */
  datatype GenreState = GenreState(dict: map<int, string>, nameToId: map<string, int>, names: seq<string>)

  /** One entry of a genre-list payload. */
  datatype Genre = Genre(id: int, name: string)

  /** SelectedItem: the title whose details overlay is open. */
  datatype SelectedItem = SelectedItem(id: string, mediaType: MediaType)

  /**
   * A value produced by JSON.parse. Object fields keep their order; JSON.parse
   * never yields two fields with the same name.
   */
  datatype Json =
    | JNull
    | JBool(b: bool)
    | JNumber(n: real)
    | JString(s: string)
    | JArray(items: seq<Json>)
    | JObject(fields: seq<(string, Json)>)

  /** The genre vocabularies of both media types (genreCache). */
  datatype GenreCache = GenreCache(movie: GenreState, tv: GenreState) {
    function For(m: MediaType): GenreState {
      if m == Tv then tv else movie
    }
  }

  /** JavaScript truthiness of an optional string: defined and non-empty. */
  predicate Present(o: Option<string>) {
    o.Some? && o.value != ""
  }

  function EmptyGenreState(): GenreState {
    GenreState(map[], map[], [])
  }

  /** True when no two entries of an association list share a key. */
  ghost predicate DistinctKeys<V>(entries: seq<(string, V)>) {
    forall i, j :: 0 <= i < j < |entries| ==> entries[i].0 != entries[j].0
  }

  function Max(a: int, b: int): int {
    if a >= b then a else b
  }

  function Min(a: int, b: int): int {
    if a <= b then a else b
  }
}
