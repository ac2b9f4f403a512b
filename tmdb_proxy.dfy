/**
 * The server-side proxy of pages/api/tmdb.ts: it turns an operation name and
 * the request's query into one upstream URL (or a 400 error), attaches the
 * configured credential, and decides the status and body of the response.
 * The upstream call itself is an input: the model receives what it returned.
 */
module TmdbProxy {
  import opened Types
  import opened SearchParams

  /** HttpError(status, message), thrown by the route table and caught by the handler. */
  datatype HttpError = HttpError(status: int, message: string)

  /** One property of req.query: a string, an array of strings, or undefined. */
  datatype QueryValue = Undefined | Str(s: string) | Arr(items: seq<string>)

  /** req.query in its enumeration order; a JavaScript object has distinct keys. */
  type Query = seq<(string, QueryValue)>

  /** req.query[key]; a key that is not there reads as undefined. */
  function Lookup(q: Query, key: string): QueryValue {
    if q == [] then Undefined
    else if q[|q| - 1].0 == key then q[|q| - 1].1
    else Lookup(q[..|q| - 1], key)
  }

  /** RESERVED_QUERY_KEYS: the routing parameters that are never forwarded. */
  const ReservedQueryKeys: set<string> := {"fn", "q", "movieId", "tvId", "mediaType", "timeWindow"}

  const MovieDetailsSections: string := "images,credits,release_dates,videos,recommendations"
  const TvDetailsSections: string := "images,credits,videos,recommendations"
  const DefaultBaseUrl: string := "http://api.themoviedb.org/3"

  /** toSingleValue: the first element of an array (undefined if it is empty), else the value. */
  function ToSingleValue(v: QueryValue): (r: Option<string>)
    ensures r.None? <==> v.Undefined? || v == Arr([])
    ensures v.Str? ==> r == Some(v.s)
    ensures v.Arr? && r.Some? ==> r.value == v.items[0]
  {
    match v
    case Undefined => None
    case Str(s) => Some(s)
    case Arr(items) => if items == [] then None else Some(items[0])
  }

  /** JavaScript truthiness of a raw query value: any array is truthy, "" is not. */
  predicate Truthy(v: QueryValue) {
    match v
    case Undefined => false
    case Str(s) => s != ""
    case Arr(_) => true
  }

  /** a || fallback, for an optional string. */
  function OrDefault(o: Option<string>, fallback: string): string {
    if Present(o) then o.value else fallback
  }

  /**
   * requireParam: the single value of `key`, or HttpError(400, message) when
   * it is absent or empty.
   */
  function RequireParam(q: Query, key: string, message: string): (r: Result<string, HttpError>)
    ensures r.Failure? <==> !Present(ToSingleValue(Lookup(q, key)))
    ensures r.Failure? ==> r.error == HttpError(400, message)
    ensures r.Success? ==> r.value != "" && ToSingleValue(Lookup(q, key)) == Some(r.value)
  {
    var value := ToSingleValue(Lookup(q, key));
    if !Present(value) then Failure(HttpError(400, message)) else Success(value.value)
  }

  /** resolveMediaType: "tv" exactly when the raw mediaType is "tv", else the default. */
  function ResolveMediaType(q: Query, defaultType: MediaType): (m: MediaType)
    ensures m == Tv <==> ToSingleValue(Lookup(q, "mediaType")) == Some("tv") || defaultType == Tv
  {
    if ToSingleValue(Lookup(q, "mediaType")) == Some("tv") then Tv else defaultType
  }

  /**
   * What one case of buildTmdbUrl decides: the path, the parameter it sets
   * before the passthrough (search text or the details sections), and the
   * names it adds to the reserved ones.
   */
  datatype Route = Route(path: string, preset: Option<Param>, extraReserved: seq<string>)

  /** The cases that pick a movie path or a tv path from the request's mediaType. */
  function MediaRoute(q: Query, moviePath: string, tvPath: string, preset: Option<Param>): (r: Route)
    ensures r.preset == preset && r.extraReserved == ["mediaType"]
    ensures r.path == if ToSingleValue(Lookup(q, "mediaType")) == Some("tv") then tvPath else moviePath
  {
    Route(if ResolveMediaType(q, Movie) == Tv then tvPath else moviePath, preset, ["mediaType"])
  }

  /** The per-title cases: `key` is required; the path is prefix + id + suffix. */
  function ItemRoute(q: Query, key: string, message: string, prefix: string, suffix: string,
                     preset: Option<Param>): (r: Result<Route, HttpError>)
    ensures r.Failure? <==> !Present(ToSingleValue(Lookup(q, key)))
    ensures r.Failure? ==> r.error == HttpError(400, message)
    ensures r.Success? ==> r.value.preset == preset && r.value.extraReserved == []
  {
    match RequireParam(q, key, message)
    case Failure(e) => Failure(e)
    case Success(id) => Success(Route(prefix + id + suffix, preset, []))
  }

  /** The details cases add their default sections unless the caller supplied any. */
  function DetailsPreset(q: Query, sections: string): Option<Param> {
    if Truthy(Lookup(q, "append_to_response")) then None else Some(("append_to_response", sections))
  }

  /** The cases of the switch of buildTmdbUrl; `Fallback` is its default branch. */
  datatype Endpoint =
    | PopularList | NowPlayingList | UpcomingList | DiscoverList | GenreList | SearchTitles
    | TrendingTitles | Configuration | MovieDetails | MovieCredits | MovieImages
    | MovieRecommendations | MovieSimilar | TvPopular | TvDetails | TvCredits | Fallback

  /** The case an operation name selects. */
  function EndpointOf(fn: string): (e: Endpoint)
    ensures e == Fallback <==> fn !in KnownOperations
  {
    if fn == "popular" then PopularList
    else if fn == "now_playing" then NowPlayingList
    else if fn == "upcoming" then UpcomingList
    else if fn == "discover" || fn == "discover_movie" then DiscoverList
    else if fn == "genre_list" then GenreList
    else if fn == "search" then SearchTitles
    else if fn == "trending" then TrendingTitles
    else if fn == "configuration" then Configuration
    else if fn == "movie_details" then MovieDetails
    else if fn == "movie_credits" then MovieCredits
    else if fn == "movie_images" then MovieImages
    else if fn == "movie_recommendations" then MovieRecommendations
    else if fn == "movie_similar" then MovieSimilar
    else if fn == "tv_popular" then TvPopular
    else if fn == "tv_details" then TvDetails
    else if fn == "tv_credits" then TvCredits
    else Fallback
  }

  /** The route of one case of the switch; the default branch reads movie/popular. */
  function EndpointRoute(e: Endpoint, q: Query): (r: Result<Route, HttpError>)
    ensures r.Failure? ==> r.error.status == 400
    ensures r.Failure? ==> e in {SearchTitles, MovieDetails, MovieCredits, MovieImages, MovieRecommendations,
                                 MovieSimilar, TvDetails, TvCredits}
  {
    match e
    case PopularList => Success(MediaRoute(q, "movie/popular", "tv/popular", None))
    case NowPlayingList => Success(MediaRoute(q, "movie/now_playing", "tv/on_the_air", None))
    case UpcomingList => Success(MediaRoute(q, "movie/upcoming", "tv/airing_today", None))
    case DiscoverList => Success(MediaRoute(q, "discover/movie", "discover/tv", None))
    case GenreList => Success(MediaRoute(q, "genre/movie/list", "genre/tv/list", None))
    case SearchTitles =>
      var text := ToSingleValue(Lookup(q, "q"));
      if !Present(text) then Failure(HttpError(400, "Missing search query"))
      else Success(MediaRoute(q, "search/movie", "search/tv", Some(("query", text.value))))
    case TrendingTitles =>
      var mediaType := OrDefault(ToSingleValue(Lookup(q, "mediaType")), "movie");
      var timeWindow := OrDefault(ToSingleValue(Lookup(q, "timeWindow")), "day");
      Success(Route("trending/" + mediaType + "/" + timeWindow, None, ["mediaType", "timeWindow"]))
    case Configuration => Success(Route("configuration", None, []))
    case MovieDetails =>
      ItemRoute(q, "movieId", "movieId is required for movie_details endpoint", "movie/", "",
                DetailsPreset(q, MovieDetailsSections))
    case MovieCredits =>
      ItemRoute(q, "movieId", "movieId is required for movie_credits endpoint", "movie/", "/credits", None)
    case MovieImages =>
      ItemRoute(q, "movieId", "movieId is required for movie_images endpoint", "movie/", "/images", None)
    case MovieRecommendations =>
      ItemRoute(q, "movieId", "movieId is required for movie_recommendations endpoint",
                "movie/", "/recommendations", None)
    case MovieSimilar =>
      ItemRoute(q, "movieId", "movieId is required for movie_similar endpoint", "movie/", "/similar", None)
    case TvPopular => Success(Route("tv/popular", None, []))
    case TvDetails =>
      ItemRoute(q, "tvId", "tvId is required for tv_details endpoint", "tv/", "",
                DetailsPreset(q, TvDetailsSections))
    case TvCredits =>
      ItemRoute(q, "tvId", "tvId is required for tv_credits endpoint", "tv/", "/credits", None)
    case Fallback => Success(Route("movie/popular", None, []))
  }

  /** The switch of buildTmdbUrl, case by case. */
  function RouteFor(fn: string, q: Query): (r: Result<Route, HttpError>)
    ensures r.Failure? ==> r.error.status == 400
    ensures fn !in KnownOperations ==> r == Success(Route("movie/popular", None, []))
  {
    EndpointRoute(EndpointOf(fn), q)
  }

  /** The operation names that have a case of their own. */
  const KnownOperations: set<string> := {
    "popular", "now_playing", "upcoming", "discover", "discover_movie", "genre_list", "search",
    "trending", "configuration", "movie_details", "movie_credits", "movie_images",
    "movie_recommendations", "movie_similar", "tv_popular", "tv_details", "tv_credits"
  }

  /** createUrl's base without its one trailing "/". */
  function TrimmedBase(base: string): (b: string)
    ensures |b| == |base| - (if base != [] && base[|base| - 1] == '/' then 1 else 0)
    ensures b == base[..|b|]
  {
    if |base| > 0 && base[|base| - 1] == '/' then base[..|base| - 1] else base
  }

  /** createUrl: drop one trailing "/" from the base, make sure the path starts with "/". */
  function CreateUrl(base: string, path: string): (url: string)
    ensures |url| == |base| + |path| + (if path != [] && path[0] == '/' then 0 else 1)
                     - (if base != [] && base[|base| - 1] == '/' then 1 else 0)
    ensures url[|url| - |path|..] == path
  {
    var trimmedBase := TrimmedBase(base);
    var normalizedPath := if |path| > 0 && path[0] == '/' then path else "/" + path;
    trimmedBase + normalizedPath
  }

  /** The blocked set of applyPassthroughParams. */
  function Blocked(extraReserved: seq<string>): set<string> {
    ReservedQueryKeys + set x | x in extraReserved
  }

  /** append(k, v) for every element of an array value, in order. */
  function AppendAll(ps: seq<Param>, k: string, items: seq<string>): (r: seq<Param>)
    ensures |r| == |ps| + |items|
    ensures r[..|ps|] == ps
    ensures forall i :: 0 <= i < |items| ==> r[|ps| + i] == (k, items[i])
  {
    if items == [] then ps
    else AppendAll(ps, k, items[..|items| - 1]) + [(k, items[|items| - 1])]
  }

  /** One iteration of the passthrough loop. */
  function ForwardEntry(ps: seq<Param>, entry: (string, QueryValue), blocked: set<string>): seq<Param> {
    if entry.0 in blocked then ps
    else match entry.1
      case Undefined => ps
      case Arr(items) => AppendAll(ps, entry.0, items)
      case Str(s) => SetParam(ps, entry.0, s)
  }

  /** applyPassthroughParams over the query entries, in order. */
  function Passthrough(ps: seq<Param>, q: Query, blocked: set<string>): seq<Param> {
    if q == [] then ps
    else ForwardEntry(Passthrough(ps, q[..|q| - 1], blocked), q[|q| - 1], blocked)
  }

  /** finalizeUrl: passthrough, then api_key when one is given and none is there yet. */
  function Finalized(ps: seq<Param>, q: Query, extraReserved: seq<string>, apiKey: Option<string>): seq<Param> {
    var forwarded := Passthrough(ps, q, Blocked(extraReserved));
    if Present(apiKey) && !HasKey(forwarded, "api_key") then SetParam(forwarded, "api_key", apiKey.value)
    else forwarded
  }

  /** The upstream request URL: its address and its ordered query pairs. */
  datatype Target = Target(href: string, params: seq<Param>)

  /** The parameters a route sets before the passthrough. */
  function PresetParams(r: Route): seq<Param> {
    match r.preset
    case None => []
    case Some(p) => SetParam([], p.0, p.1)
  }

  /** What buildTmdbUrl returns, as a function of its inputs. */
  function TmdbTarget(fn: string, q: Query, base: string, apiKey: Option<string>): (r: Result<Target, HttpError>)
    ensures r.Failure? <==> RouteFor(fn, q).Failure?
    ensures r.Failure? ==> r.error.status == 400
  {
    match RouteFor(fn, q)
    case Failure(e) => Failure(e)
    case Success(r) => Success(Target(CreateUrl(base, r.path), Finalized(PresetParams(r), q, r.extraReserved, apiKey)))
  }

  // ---------------------------------------------------------------------------
  // The imperative half: the URL object is built and updated step by step.

  /** applyPassthroughParams(url, req, extraReserved) */
  method ApplyPassthroughParams(url: Url, query: Query, extraReserved: seq<string>)
    modifies url
    ensures url.params == Passthrough(old(url.params), query, Blocked(extraReserved))
  {
    var blocked := Blocked(extraReserved);
    var i := 0;
    while i < |query|
      invariant 0 <= i <= |query|
      invariant url.params == Passthrough(old(url.params), query[..i], blocked)
    {
      assert query[..i + 1][..i] == query[..i];
      var key, rawValue := query[i].0, query[i].1;
      if key in blocked {
      } else if rawValue.Undefined? {
      } else if rawValue.Arr? {
        var items := rawValue.items;
        ghost var before := url.params;
        var j := 0;
        while j < |items|
          invariant 0 <= j <= |items|
          invariant url.params == AppendAll(before, key, items[..j])
        {
          assert items[..j + 1][..j] == items[..j];
          url.Append(key, items[j]);
          j := j + 1;
        }
        assert items[..j] == items;
      } else {
        url.Set(key, rawValue.s);
      }
      i := i + 1;
    }
    assert query[..i] == query;
  }

  /** finalizeUrl(url, req, extraReserved, apiKey) */
  method FinalizeUrl(url: Url, query: Query, extraReserved: seq<string>, apiKey: Option<string>)
    modifies url
    ensures url.params == Finalized(old(url.params), query, extraReserved, apiKey)
  {
    ApplyPassthroughParams(url, query, extraReserved);
    if Present(apiKey) && !url.Has("api_key") {
      url.Set("api_key", apiKey.value);
    }
  }

  /**
   * buildTmdbUrl(fn, req, base, apiKey): the upstream request, or the 400
   * error of a missing parameter. The path text is kept as it is, so no
   * reserved routing parameter reaches the upstream query; for path values
   * holding '?' or '#' the program as written differs (PathInjection).
   */
  method BuildTmdbUrl(fn: string, query: Query, base: string, apiKey: Option<string>)
    returns (r: Result<Target, HttpError>)
    ensures r == TmdbTarget(fn, query, base, apiKey)
    ensures r.Success? ==> forall k :: k in ReservedQueryKeys ==> !HasKey(r.value.params, k)
  {
    var route := RouteFor(fn, query);
    if route.Failure? {
      return Failure(route.error);
    }
    var url := new Url(CreateUrl(base, route.value.path));
    if route.value.preset.Some? {
      url.Set(route.value.preset.value.0, route.value.preset.value.1);
    }
    FinalizeUrl(url, query, route.value.extraReserved, apiKey);
    r := Success(Target(url.href, url.params));
    forall k | k in ReservedQueryKeys
      ensures !HasKey(r.value.params, k)
    {
      TargetValues(fn, query, base, apiKey, k);
    }
  }

  // ---------------------------------------------------------------------------
  // Properties of the translation.

  /** A key that no entry of the query has reads as undefined. */
  lemma {:induction false} LookupAbsent(q: Query, key: string)
    requires forall i :: 0 <= i < |q| ==> q[i].0 != key
    ensures Lookup(q, key) == Undefined
  {
    if q != [] {
      LookupAbsent(q[..|q| - 1], key);
    }
  }

  /** The values of `k` after a passthrough step for an entry of value `v`. */
  function Forwarded(prior: seq<string>, v: QueryValue): seq<string> {
    match v
    case Undefined => prior
    case Str(s) => [s]
    case Arr(items) => prior + items
  }

  /** Appending an array value adds its elements, in order, to that key only. */
  lemma {:induction false} AppendAllValues(ps: seq<Param>, k: string, items: seq<string>, k': string)
    ensures ValuesOf(AppendAll(ps, k, items), k') == ValuesOf(ps, k') + (if k' == k then items else [])
  {
    if items != [] {
      var init, last := items[..|items| - 1], items[|items| - 1];
      var before := AppendAll(ps, k, init);
      assert AppendAll(ps, k, items) == before + [(k, last)];
      AppendAllValues(ps, k, init, k');
      AppendValues(before, (k, last));
      if k' == k {
        assert ValuesOf(ps, k') + init + [last] == ValuesOf(ps, k') + items by {
          assert init + [last] == items;
        }
      }
    }
  }

  lemma ForwardEntryValues(ps: seq<Param>, entry: (string, QueryValue), blocked: set<string>, k: string)
    ensures ValuesOf(ForwardEntry(ps, entry, blocked), k) ==
            if entry.0 == k && k !in blocked then Forwarded(ValuesOf(ps, k), entry.1) else ValuesOf(ps, k)
  {
    if entry.0 !in blocked && entry.1.Arr? {
      AppendAllValues(ps, entry.0, entry.1.items, k);
    }
  }

  /** A blocked key keeps exactly the values it had before the passthrough. */
  lemma {:induction false} PassthroughBlocked(ps: seq<Param>, q: Query, blocked: set<string>, k: string)
    requires k in blocked
    ensures ValuesOf(Passthrough(ps, q, blocked), k) == ValuesOf(ps, k)
  {
    if q != [] {
      PassthroughBlocked(ps, q[..|q| - 1], blocked, k);
      ForwardEntryValues(Passthrough(ps, q[..|q| - 1], blocked), q[|q| - 1], blocked, k);
    }
  }

  /**
   * The passthrough, key by key: a blocked key is untouched; an unblocked
   * string value replaces the key's values; an array value appends its
   * elements in order; an undefined or missing key is untouched.
   */
  lemma {:induction false} PassthroughValues(ps: seq<Param>, q: Query, blocked: set<string>, k: string)
    requires DistinctKeys(q)
    ensures ValuesOf(Passthrough(ps, q, blocked), k) ==
            if k in blocked then ValuesOf(ps, k) else Forwarded(ValuesOf(ps, k), Lookup(q, k))
  {
    if q != [] {
      var init, last := q[..|q| - 1], q[|q| - 1];
      assert DistinctKeys(init);
      PassthroughValues(ps, init, blocked, k);
      ForwardEntryValues(Passthrough(ps, init, blocked), last, blocked, k);
      if last.0 == k {
        LookupAbsent(init, k);
      }
    }
  }

  /** The only name of a preset is "query" or "append_to_response". */
  lemma RouteShape(fn: string, q: Query)
    ensures RouteFor(fn, q).Success? ==>
      var r := RouteFor(fn, q).value;
      Blocked(r.extraReserved) == ReservedQueryKeys &&
      (r.preset.Some? ==> r.preset.value.0 in {"query", "append_to_response"})
  {
    EndpointExtras(EndpointOf(fn), q);
    EndpointPresets(EndpointOf(fn), q);
    if RouteFor(fn, q).Success? {
      var x := RouteFor(fn, q).value.extraReserved;
      if x == ["mediaType"] {
        assert Blocked(x) == ReservedQueryKeys;
      } else if x == ["mediaType", "timeWindow"] {
        assert Blocked(x) == ReservedQueryKeys;
      }
    }
  }

  /** The extra reserved keys of a case: none, mediaType, or mediaType and timeWindow. */
  lemma EndpointExtras(e: Endpoint, q: Query)
    ensures EndpointRoute(e, q).Success? ==>
      var x := EndpointRoute(e, q).value.extraReserved;
      x == [] || x == ["mediaType"] || x == ["mediaType", "timeWindow"]
  {
  }

  lemma EndpointPresets(e: Endpoint, q: Query)
    ensures EndpointRoute(e, q).Success? ==>
      var r := EndpointRoute(e, q).value;
      r.preset.Some? ==> r.preset.value.0 in {"query", "append_to_response"}
  {
    match e
    case SearchTitles =>
    case MovieDetails =>
    case TvDetails =>
    case _ =>
  }

  /** The values the preset of a route gives `k`. */
  function PresetValues(r: Route, k: string): seq<string> {
    if r.preset.Some? && r.preset.value.0 == k then [r.preset.value.1] else []
  }

  lemma PresetParamsValues(r: Route, k: string)
    ensures ValuesOf(PresetParams(r), k) == PresetValues(r, k)
  {
  }

  /**
   * The upstream query of a successful translation, key by key: reserved
   * keys never occur; every other key carries the route's preset (if any)
   * updated by what the caller passed for it; api_key carries the configured
   * key only when the caller passed none, so the proxy never adds a second.
   * This holds for the path kept as text, as TmdbTarget does; with path
   * values holding '?' or '#', new URL breaks it (PathInjection).
   */
  lemma TargetValues(fn: string, q: Query, base: string, apiKey: Option<string>, k: string)
    requires TmdbTarget(fn, q, base, apiKey).Success? && (k in ReservedQueryKeys || DistinctKeys(q))
    ensures var r := RouteFor(fn, q).value;
      ValuesOf(TmdbTarget(fn, q, base, apiKey).value.params, k) ==
        if k in ReservedQueryKeys then []
        else
          var forwarded := Forwarded(PresetValues(r, k), Lookup(q, k));
          if k == "api_key" && Present(apiKey) && forwarded == [] then [apiKey.value] else forwarded
  {
    var r := RouteFor(fn, q).value;
    RouteShape(fn, q);
    FinalizedValues(r, q, apiKey, k);
  }

  /** TargetValues for one route whose shape RouteShape describes. */
  lemma FinalizedValues(r: Route, q: Query, apiKey: Option<string>, k: string)
    requires Blocked(r.extraReserved) == ReservedQueryKeys
    requires r.preset.Some? ==> r.preset.value.0 in {"query", "append_to_response"}
    requires k in ReservedQueryKeys || DistinctKeys(q)
    ensures ValuesOf(Finalized(PresetParams(r), q, r.extraReserved, apiKey), k) ==
        if k in ReservedQueryKeys then []
        else
          var forwarded := Forwarded(PresetValues(r, k), Lookup(q, k));
          if k == "api_key" && Present(apiKey) && forwarded == [] then [apiKey.value] else forwarded
  {
    PresetParamsValues(r, k);
    var ps := PresetParams(r);
    var blocked := Blocked(r.extraReserved);
    var forwarded := Passthrough(ps, q, blocked);
    if k in ReservedQueryKeys {
      PassthroughBlocked(ps, q, blocked, k);
    } else {
      PassthroughValues(ps, q, blocked, k);
      if k == "api_key" {
        assert ValuesOf(ps, k) == [];
      }
    }
  }

  // ---------------------------------------------------------------------------
  // Credentials, masking and the handler's responses.

  predicate IsAsciiAlphanumeric(c: char) {
    ('A' <= c <= 'Z') || ('a' <= c <= 'z') || ('0' <= c <= '9')
  }

  /** /^[A-Za-z0-9]{32}$/ */
  predicate LooksLikeApiKey(s: string) {
    |s| == 32 && forall i :: 0 <= i < |s| ==> IsAsciiAlphanumeric(s[i])
  }

  datatype Credentials = Credentials(bearerToken: Option<string>, apiKey: Option<string>)

  /**
   * resolveCredentials over the configured read-access value (an unset
   * variable reads as ""): a 32-character alphanumeric value becomes the
   * api key, any other non-empty value the bearer token, "" neither.
   */
  function ResolveCredentials(raw: string): (c: Credentials)
    ensures c.apiKey.Some? || c.bearerToken.Some? <==> raw != ""
    ensures !(c.apiKey.Some? && c.bearerToken.Some?)
    ensures c.apiKey.Some? <==> raw != "" && LooksLikeApiKey(raw)
    ensures c.apiKey.Some? ==> c.apiKey.value == raw
    ensures c.bearerToken.Some? ==> c.bearerToken.value == raw
  {
    if raw == "" then Credentials(None, None)
    else if LooksLikeApiKey(raw) then Credentials(None, Some(raw))
    else Credentials(Some(raw), None)
  }

  /**
   * maskApiKey: the logged form of a URL. A present api_key is reduced to the
   * single value "***", every other parameter is unchanged; a URL without an
   * api_key is returned as it is.
   */
  function MaskApiKey(t: Target): (r: Target)
    ensures r.href == t.href
    ensures HasKey(t.params, "api_key") ==> ValuesOf(r.params, "api_key") == ["***"]
    ensures forall k :: k != "api_key" ==> ValuesOf(r.params, k) == ValuesOf(t.params, k)
    ensures !HasKey(t.params, "api_key") ==> r == t
  {
    if HasKey(t.params, "api_key") then Target(t.href, SetParam(t.params, "api_key", "***")) else t
  }

  /** A response body: the upstream data as it is, or {error: ...}. */
  datatype Body = Data(json: Json) | ErrorEnvelope(error: Json)

  datatype Response = Response(status: int, body: Body)

  /** The request the proxy sends upstream. */
  datatype Outbound = Outbound(target: Target, headers: seq<(string, string)>)

  /**
   * What the upstream call produced: a reply (any status, since every status
   * is accepted), or a transport failure with the status and data the handler
   * read from the error.
   */
  datatype Upstream = Reply(status: int, data: Json) | TransportFailure(status: int, data: Json)

  /** (req.query.fn as string) || "popular"; an array matches no case, like "". */
  function OperationName(v: QueryValue): (fn: string)
    ensures v.Str? && v.s != "" ==> fn == v.s
    ensures fn == "" <==> v.Arr?
  {
    match v
    case Undefined => "popular"
    case Str(s) => if s == "" then "popular" else s
    case Arr(_) => ""
  }

  function RequestHeaders(c: Credentials): (h: seq<(string, string)>)
    ensures |h| == if Present(c.bearerToken) then 2 else 1
    ensures h[0] == ("accept", "application/json")
    ensures Present(c.bearerToken) ==> h[1] == ("Authorization", "Bearer " + c.bearerToken.value)
  {
    [("accept", "application/json")]
    + (if Present(c.bearerToken) then [("Authorization", "Bearer " + c.bearerToken.value)] else [])
  }

  /**
   * The handler up to the upstream call: the outbound request, or the
   * response it sends without calling upstream (500 for missing credentials,
   * the HttpError's status and message otherwise).
   */
  function Plan(q: Query, baseEnv: string, credentialEnv: string): (r: Result<Outbound, Response>)
    ensures r.Failure? ==> r.error.body.ErrorEnvelope? && r.error.status in {400, 500}
    ensures r.Success? ==> |r.value.headers| >= 1 && r.value.headers[0] == ("accept", "application/json")
  {
    var fn := OperationName(Lookup(q, "fn"));
    var base := if baseEnv == "" then DefaultBaseUrl else baseEnv;
    var creds := ResolveCredentials(credentialEnv);
    if !Present(creds.bearerToken) && !Present(creds.apiKey) then
      Failure(Response(500, ErrorEnvelope(JString("Missing TMDB credentials"))))
    else match TmdbTarget(fn, q, base, creds.apiKey)
      case Failure(e) => Failure(Response(e.status, ErrorEnvelope(JString(e.message))))
      case Success(t) => Success(Outbound(t, RequestHeaders(creds)))
  }

  /** The handler after the upstream call: 2xx data is relayed, anything else wrapped in {error}. */
  function Relay(u: Upstream): (r: Response)
    ensures r.status == u.status
    ensures r.body.Data? <==> u.Reply? && 200 <= u.status < 300
    ensures (if r.body.Data? then r.body.json else r.body.error) == u.data
  {
    match u
    case Reply(status, data) =>
      if status < 200 || status >= 300 then Response(status, ErrorEnvelope(data)) else Response(status, Data(data))
    case TransportFailure(status, data) => Response(status, ErrorEnvelope(data))
  }

  /** handler(req, res), with the upstream service as a parameter. */
  function Handle(q: Query, baseEnv: string, credentialEnv: string, upstream: Outbound -> Upstream): (r: Response)
    ensures Plan(q, baseEnv, credentialEnv).Failure? ==> r == Plan(q, baseEnv, credentialEnv).error
    ensures Plan(q, baseEnv, credentialEnv).Success? ==> r.status == upstream(Plan(q, baseEnv, credentialEnv).value).status
  {
    match Plan(q, baseEnv, credentialEnv)
    case Failure(resp) => resp
    case Success(o) => Relay(upstream(o))
  }

  /** No credential: 500 {error: "Missing TMDB credentials"}, whatever the request. */
  lemma MissingCredentials(q: Query, baseEnv: string, upstream: Outbound -> Upstream)
    ensures Handle(q, baseEnv, "", upstream) == Response(500, ErrorEnvelope(JString("Missing TMDB credentials")))
  {
  }

  /** fn=search without q: 400 "Missing search query", and upstream is not consulted. */
  lemma SearchWithoutQuery(q: Query, baseEnv: string, credentialEnv: string, u1: Outbound -> Upstream, u2: Outbound -> Upstream)
    requires credentialEnv != ""
    requires Lookup(q, "fn") == Str("search")
    requires !Present(ToSingleValue(Lookup(q, "q")))
    ensures Handle(q, baseEnv, credentialEnv, u1) == Response(400, ErrorEnvelope(JString("Missing search query")))
    ensures Handle(q, baseEnv, credentialEnv, u1) == Handle(q, baseEnv, credentialEnv, u2)
  {
    assert OperationName(Lookup(q, "fn")) == "search";
    assert EndpointOf("search") == SearchTitles;
    assert RouteFor("search", q) == Failure(HttpError(400, "Missing search query"));
  }

  /**
   * With a credential configured and a request that translates, the upstream
   * status is relayed; a status outside [200, 300) comes with {error: data}.
   * A bearer token travels only in the Authorization header; an api key only
   * in the query.
   */
  lemma RelayedStatus(q: Query, baseEnv: string, credentialEnv: string, upstream: Outbound -> Upstream)
    requires Plan(q, baseEnv, credentialEnv).Success?
    ensures var o := Plan(q, baseEnv, credentialEnv).value;
      var resp := Handle(q, baseEnv, credentialEnv, upstream);
      resp.status == upstream(o).status &&
      (upstream(o).Reply? && (upstream(o).status < 200 || upstream(o).status >= 300) ==>
         resp.body == ErrorEnvelope(upstream(o).data)) &&
      (LooksLikeApiKey(credentialEnv) <==> |o.headers| == 1)
  {
  }

  /** An operation name without a case of its own reads the popular movies. */
  lemma UnknownOperation(fn: string, q: Query)
    requires fn !in KnownOperations
    ensures RouteFor(fn, q) == Success(Route("movie/popular", None, []))
  {
  }

  /** A missing fn is the popular feed; an array-valued fn reads like an unknown name. */
  lemma MissingOperation(items: seq<string>, q: Query)
    ensures OperationName(Undefined) == "popular" && OperationName(Str("")) == "popular"
    ensures OperationName(Arr(items)) !in KnownOperations
    ensures RouteFor(OperationName(Arr(items)), q) == Success(Route("movie/popular", None, []))
  {
    UnknownOperation(OperationName(Arr(items)), q);
  }

  /**
   * The cases that branch on mediaType take the tv path exactly when the raw
   * value is "tv".
   */
  lemma MediaTypeBranching(fn: string, q: Query)
    requires fn in {"popular", "now_playing", "upcoming", "discover", "discover_movie", "genre_list", "search"}
    requires RouteFor(fn, q).Success?
    ensures var path := RouteFor(fn, q).value.path;
      (ToSingleValue(Lookup(q, "mediaType")) == Some("tv")) <==> path in TvListPaths
  {
  }

  const TvListPaths: set<string> := {"tv/popular", "tv/on_the_air", "tv/airing_today", "discover/tv", "genre/tv/list", "search/tv"}

  /** trending defaults to movie and day and reads trending/{mediaType}/{timeWindow}. */
  lemma TrendingPath(q: Query)
    ensures RouteFor("trending", q).Success?
    ensures RouteFor("trending", q).value.path ==
      "trending/" + OrDefault(ToSingleValue(Lookup(q, "mediaType")), "movie") + "/" +
      OrDefault(ToSingleValue(Lookup(q, "timeWindow")), "day")
    ensures Lookup(q, "mediaType") == Undefined && Lookup(q, "timeWindow") == Undefined ==>
      RouteFor("trending", q).value.path == "trending/movie/day"
  {
  }

  /** An ordinary key (neither reserved nor api_key) carries the preset updated by the caller's value. */
  lemma OrdinaryKeyValues(fn: string, q: Query, base: string, apiKey: Option<string>, k: string)
    requires TmdbTarget(fn, q, base, apiKey).Success? && DistinctKeys(q)
    requires k !in ReservedQueryKeys && k != "api_key"
    ensures ValuesOf(TmdbTarget(fn, q, base, apiKey).value.params, k) ==
      Forwarded(PresetValues(RouteFor(fn, q).value, k), Lookup(q, k))
  {
    TargetValues(fn, q, base, apiKey, k);
  }

  /** The default sections are forwarded unless the caller's append_to_response is truthy. */
  lemma DetailsSectionsForwarded(q: Query, r: Route, sections: string)
    requires r.preset == DetailsPreset(q, sections)
    ensures Forwarded(PresetValues(r, "append_to_response"), Lookup(q, "append_to_response")) ==
      match Lookup(q, "append_to_response")
      case Undefined => [sections]
      case Str(s) => [s]
      case Arr(items) => items
  {
  }

  /**
   * movie_details: 400 without a movieId; otherwise append_to_response holds
   * the default sections unless the caller supplied a truthy value, in which
   * case the caller's values are forwarded instead.
   */
  lemma MovieDetailsSectionsDefault(q: Query, base: string, apiKey: Option<string>)
    requires DistinctKeys(q)
    ensures TmdbTarget("movie_details", q, base, apiKey).Failure? <==> !Present(ToSingleValue(Lookup(q, "movieId")))
    ensures TmdbTarget("movie_details", q, base, apiKey).Failure? ==>
      TmdbTarget("movie_details", q, base, apiKey).error == HttpError(400, "movieId is required for movie_details endpoint")
    ensures TmdbTarget("movie_details", q, base, apiKey).Success? ==>
      ValuesOf(TmdbTarget("movie_details", q, base, apiKey).value.params, "append_to_response") ==
        match Lookup(q, "append_to_response")
        case Undefined => [MovieDetailsSections]
        case Str(s) => [s]
        case Arr(items) => items
  {
    assert EndpointOf("movie_details") == MovieDetails;
    var route := RouteFor("movie_details", q);
    assert route == ItemRoute(q, "movieId", "movieId is required for movie_details endpoint", "movie/", "",
                              DetailsPreset(q, MovieDetailsSections));
    if route.Success? {
      assert "append_to_response" !in ReservedQueryKeys;
      OrdinaryKeyValues("movie_details", q, base, apiKey, "append_to_response");
      DetailsSectionsForwarded(q, route.value, MovieDetailsSections);
    }
  }

  /** search: the query parameter is q's value, unless the caller also passed "query". */
  lemma SearchQueryParam(q: Query, base: string, apiKey: Option<string>)
    requires DistinctKeys(q)
    requires Present(ToSingleValue(Lookup(q, "q")))
    ensures TmdbTarget("search", q, base, apiKey).Success?
    ensures Lookup(q, "query") == Undefined ==>
      ValuesOf(TmdbTarget("search", q, base, apiKey).value.params, "query") == [ToSingleValue(Lookup(q, "q")).value]
  {
    var text := ToSingleValue(Lookup(q, "q")).value;
    assert EndpointOf("search") == SearchTitles;
    var r := RouteFor("search", q).value;
    assert r.preset == Some(("query", text));
    assert PresetValues(r, "query") == [text];
    assert "query" !in ReservedQueryKeys;
    OrdinaryKeyValues("search", q, base, apiKey, "query");
  }

  /**
   * api_key: without a caller-supplied api_key a configured key is attached
   * exactly once; a caller-supplied string api_key is kept and no second one
   * is added.
   */
  lemma ApiKeyAttachedOnce(fn: string, q: Query, base: string, key: string)
    requires DistinctKeys(q) && key != ""
    requires TmdbTarget(fn, q, base, Some(key)).Success?
    ensures Lookup(q, "api_key") == Undefined ==>
      ValuesOf(TmdbTarget(fn, q, base, Some(key)).value.params, "api_key") == [key]
    ensures Lookup(q, "api_key").Str? ==>
      ValuesOf(TmdbTarget(fn, q, base, Some(key)).value.params, "api_key") == [Lookup(q, "api_key").s]
  {
    TargetValues(fn, q, base, Some(key), "api_key");
    RouteShape(fn, q);
  }

  /** createUrl joins with exactly one "/" when base and path carry at most one each. */
  lemma CreateUrlJoin(base: string, path: string, trailing: bool, leading: bool)
    requires base == [] || base[|base| - 1] != '/'
    requires path == [] || path[0] != '/'
    ensures CreateUrl(base + (if trailing then "/" else ""), (if leading then "/" else "") + path) == base + "/" + path
  {
    var b := base + (if trailing then "/" else "");
    var p := (if leading then "/" else "") + path;
    assert TrimmedBase(b) == base by {
      if trailing {
        assert b[..|b| - 1] == base;
      }
    }
    var normalized := if |p| > 0 && p[0] == '/' then p else "/" + p;
    assert normalized == "/" + path by {
      if leading {
        assert p[0] == '/' && p == "/" + path;
      } else {
        assert p == path;
      }
    }
    assert CreateUrl(b, p) == TrimmedBase(b) + normalized;
  }


  // ---------------------------------------------------------------------------
  // How `new URL` reads the joined text. The route table pastes the request's
  // ids and media values into the path without encoding them, so a '?' or a
  // '#' inside one of them ends the path early.

  /** The text before the first `c`, and what follows it when `c` occurs. */
  function SplitFirst(s: string, c: char): (r: (string, Option<string>))
    ensures c !in r.0
    ensures r.1.None? <==> c !in s
    ensures r.1.None? ==> r.0 == s
    ensures r.1.Some? ==> s == r.0 + [c] + r.1.value
  {
    if s == [] then ([], None)
    else if s[0] == c then ([], Some(s[1..]))
    else
      var rest := SplitFirst(s[1..], c);
      assert rest.1.Some? ==> s == [s[0]] + (rest.0 + [c] + rest.1.value);
      ([s[0]] + rest.0, rest.1)
  }

  /** The split is at the first `c`: whatever comes before it holds no `c`. */
  lemma SplitFirstAt(s: string, c: char, before: string, after: string)
    requires s == before + [c] + after && c !in before
    ensures SplitFirst(s, c) == (before, Some(after))
  {
    var r := SplitFirst(s, c);
    assert s[|before|] == c;
    var head := r.0;
    var tail := r.1.value;
    assert s[|head|] == c;
    assert head == s[..|head|] == before;
    assert tail == s[|head| + 1..] == after;
  }

  /** text.split(c): the pieces between the occurrences of `c`, in order. */
  function SplitAll(s: string, c: char): (parts: seq<string>)
    ensures |parts| >= 1
    ensures forall i :: 0 <= i < |parts| ==> c !in parts[i]
    decreases |s|
  {
    match SplitFirst(s, c).1
    case None => [s]
    case Some(rest) => [SplitFirst(s, c).0] + SplitAll(rest, c)
  }

  /** One name=value part of a query string: split at its first '='; a part without one has an empty value. */
  function PairOf(part: string): (p: Param)
    ensures '=' !in p.0
    ensures '=' !in part ==> p == (part, "")
  {
    var split := SplitFirst(part, '=');
    (split.0, if split.1.Some? then split.1.value else "")
  }

  /** new URLSearchParams(query) for text free of '%' and '+': the non-empty parts, in order, as pairs. */
  function ParseQuery(parts: seq<string>): (ps: seq<Param>)
    ensures |ps| <= |parts|
    ensures forall i :: 0 <= i < |ps| ==> '=' !in ps[i].0
  {
    if parts == [] then []
    else (if parts[0] == "" then [] else [PairOf(parts[0])]) + ParseQuery(parts[1..])
  }

  /** new URL(text): the address before any query or fragment, and the query pairs the text carries. */
  function ParseUrl(text: string): (t: Target)
    ensures '?' !in text && '#' !in text ==> t == Target(text, [])
  {
    var beforeFragment := SplitFirst(text, '#').0;
    var split := SplitFirst(beforeFragment, '?');
    Target(split.0, if split.1.Some? then ParseQuery(SplitAll(split.1.value, '&')) else [])
  }

  /** The case's preset, set on the URL that `new URL` returned. */
  function WithPreset(ps: seq<Param>, r: Route): (out: seq<Param>)
    ensures ps == [] ==> out == PresetParams(r)
  {
    match r.preset
    case None => ps
    case Some(p) => SetParam(ps, p.0, p.1)
  }

  /**
   * buildTmdbUrl as written: the joined text is parsed by `new URL`, so a
   * query written into the path becomes the URL's initial query, ahead of the
   * preset and the passthrough.
   */
  function TmdbTargetAsWritten(fn: string, q: Query, base: string, apiKey: Option<string>): Result<Target, HttpError> {
    match RouteFor(fn, q)
    case Failure(e) => Failure(e)
    case Success(r) =>
      var url := ParseUrl(CreateUrl(base, r.path));
      Success(Target(url.href, Finalized(WithPreset(url.params, r), q, r.extraReserved, apiKey)))
  }

  /**
   * When the joined text holds no '?' and no '#', the program and the model
   * of path values as plain path text agree, so TargetValues describes it.
   */
  lemma AsWrittenAgrees(fn: string, q: Query, base: string, apiKey: Option<string>)
    requires RouteFor(fn, q).Success? ==>
      var text := CreateUrl(base, RouteFor(fn, q).value.path);
      '?' !in text && '#' !in text
    ensures TmdbTargetAsWritten(fn, q, base, apiKey) == TmdbTarget(fn, q, base, apiKey)
  {
  }

  /** A text with a query and no fragment: the address is what precedes the first '?'. */
  lemma ParseUrlWithQuery(address: string, query: string)
    requires '?' !in address && '#' !in address && '#' !in query
    ensures ParseUrl(address + "?" + query) == Target(address, ParseQuery(SplitAll(query, '&')))
  {
    var text := address + "?" + query;
    assert text == address + ['?'] + query;
    SplitFirstAt(text, '?', address, query);
  }

  /** Two pieces joined by one separator split back into those two pieces. */
  lemma SplitAllTwo(first: string, second: string, c: char)
    requires c !in first && c !in second
    ensures SplitAll(first + [c] + second, c) == [first, second]
  {
    SplitFirstAt(first + [c] + second, c, first, second);
  }

  /** A name without '=' followed by "=" and a value reads as that pair. */
  lemma PairOfAt(name: string, value: string)
    requires '=' !in name
    ensures PairOf(name + "=" + value) == (name, value)
  {
    assert name + "=" + value == name + ['='] + value;
    SplitFirstAt(name + "=" + value, '=', name, value);
  }

  /** A query string of two name=value parts reads as those two pairs, in order. */
  lemma ParseTwoPairs(n1: string, v1: string, n2: string, v2: string)
    requires '=' !in n1 && '=' !in n2
    requires '&' !in n1 + "=" + v1 && '&' !in n2 + "=" + v2
    ensures ParseQuery(SplitAll(n1 + "=" + v1 + "&" + n2 + "=" + v2, '&')) == [(n1, v1), (n2, v2)]
  {
    var first := n1 + "=" + v1;
    var second := n2 + "=" + v2;
    assert n1 + "=" + v1 + "&" + n2 + "=" + v2 == first + ['&'] + second;
    SplitAllTwo(first, second, '&');
    PairOfAt(n1, v1);
    PairOfAt(n2, v2);
    assert first != "" && second != "";
    assert [first, second][1..] == [second];
  }

  /** A movie_details request whose only other key is its movieId. */
  function DetailsRequest(movieId: string): Query {
    [("fn", Str("movie_details")), ("movieId", Str(movieId))]
  }

  lemma DetailsRequestRoute(movieId: string)
    requires movieId != ""
    ensures RouteFor("movie_details", DetailsRequest(movieId)) ==
      Success(Route("movie/" + movieId, Some(("append_to_response", MovieDetailsSections)), []))
    ensures DistinctKeys(DetailsRequest(movieId))
    ensures Lookup(DetailsRequest(movieId), "api_key") == Undefined
  {
    var q := DetailsRequest(movieId);
    assert EndpointOf("movie_details") == MovieDetails;
    assert q[..1] == [("fn", Str("movie_details"))] && q[..1][..0] == [];
    assert Lookup(q, "movieId") == Str(movieId);
    assert q[..1][0].0 == "fn" && "fn" != "api_key" && "movieId" != "api_key";
    assert Lookup(q[..1], "append_to_response") == Undefined && Lookup(q[..1], "api_key") == Undefined;
    assert Lookup(q, "append_to_response") == Undefined;
    assert "movie/" + movieId + "" == "movie/" + movieId;
  }

  /** The query string a movieId smuggles in: fn=v&api_key=key. */
  function SmuggledQuery(v: string, key: string): string {
    "fn" + "=" + v + "&" + "api_key" + "=" + key
  }

  /** A movieId that carries fn=v&api_key=key after a '?'. */
  function SmuggledId(id: string, v: string, key: string): string {
    id + "?" + SmuggledQuery(v, key)
  }

  lemma SmuggledQueryParse(v: string, key: string)
    requires '&' !in v && '&' !in key
    ensures ParseQuery(SplitAll(SmuggledQuery(v, key), '&')) == [("fn", v), ("api_key", key)]
  {
    ParseTwoPairs("fn", v, "api_key", key);
  }


  /** The path of a smuggling movieId, joined to the base: the query starts after the id. */
  lemma SmuggledText(base: string, id: string, v: string, key: string)
    ensures CreateUrl(base, "movie/" + SmuggledId(id, v, key)) ==
      TrimmedBase(base) + "/movie/" + id + "?" + SmuggledQuery(v, key)
  {
    var path := "movie/" + SmuggledId(id, v, key);
    assert path == "movie/" + id + "?" + SmuggledQuery(v, key);
    assert path[0] == 'm';
  }

  /** new URL reads the smuggled pairs as the URL's own query. */
  lemma SmuggledParse(address: string, id: string, v: string, key: string)
    requires '?' !in address && '#' !in address && '?' !in id && '#' !in id
    requires '#' !in v && '&' !in v && '#' !in key && '&' !in key
    ensures ParseUrl(address + "/movie/" + id + "?" + SmuggledQuery(v, key)).params == [("fn", v), ("api_key", key)]
  {
    var query := SmuggledQuery(v, key);
    var path := address + "/movie/" + id;
    assert '?' !in path && '#' !in path && '#' !in query;
    ParseUrlWithQuery(path, query);
    SmuggledQueryParse(v, key);
  }

  /** Trimming the base adds no character. */
  lemma TrimmedBaseFree(base: string, c: char)
    requires c !in base
    ensures c !in TrimmedBase(base)
  {
  }

  /** The URL a smuggling movieId's path parses to carries the two smuggled pairs. */
  lemma SmuggledUrlParams(base: string, id: string, v: string, key: string)
    requires '?' !in base && '#' !in base && '?' !in id && '#' !in id
    requires '#' !in v && '&' !in v && '#' !in key && '&' !in key
    ensures ParseUrl(CreateUrl(base, "movie/" + SmuggledId(id, v, key))).params == [("fn", v), ("api_key", key)]
  {
    SmuggledText(base, id, v, key);
    TrimmedBaseFree(base, '?');
    TrimmedBaseFree(base, '#');
    SmuggledParse(TrimmedBase(base), id, v, key);
  }

  /**
   * Pairs already on the URL before finalizeUrl: a reserved key keeps them,
   * and so does an api_key the caller did not pass, with no configured key
   * added.
   */
  lemma FinalizedKeepsInitial(ps: seq<Param>, q: Query, apiKey: Option<string>, k: string)
    requires DistinctKeys(q) && Lookup(q, "api_key") == Undefined
    requires k in ReservedQueryKeys || (k == "api_key" && HasKey(ps, "api_key"))
    ensures ValuesOf(Finalized(ps, q, [], apiKey), k) == ValuesOf(ps, k)
  {
    var blocked := Blocked([]);
    assert blocked == ReservedQueryKeys;
    var forwarded := Passthrough(ps, q, blocked);
    PassthroughValues(ps, q, blocked, k);
    if k == "api_key" {
      assert ValuesOf(forwarded, k) != [];
      assert Finalized(ps, q, [], apiKey) == forwarded;
    }
  }

  /**
   * A movieId carrying a query string: as written, the routing key fn and a
   * caller's api_key reach the upstream query through the path, and the
   * configured key is not attached.
   */
  lemma PathInjection(base: string, id: string, v: string, key: string, configured: string)
    requires '?' !in base && '#' !in base && '?' !in id && '#' !in id
    requires '#' !in v && '&' !in v && '#' !in key && '&' !in key && configured != ""
    ensures var q := DetailsRequest(SmuggledId(id, v, key));
      var t := TmdbTargetAsWritten("movie_details", q, base, Some(configured));
      t.Success? && ValuesOf(t.value.params, "fn") == [v] && ValuesOf(t.value.params, "api_key") == [key]
  {
    var q := DetailsRequest(SmuggledId(id, v, key));
    DetailsRequestRoute(SmuggledId(id, v, key));
    var r := RouteFor("movie_details", q).value;
    SmuggledUrlParams(base, id, v, key);
    SmuggledPairsKept([("fn", v), ("api_key", key)], r, q, Some(configured));
  }

  /** The smuggled pairs survive the preset and finalizeUrl of a route that reserves nothing extra. */
  lemma SmuggledPairsKept(initial: seq<Param>, r: Route, q: Query, apiKey: Option<string>)
    requires |initial| == 2 && initial[0].0 == "fn" && initial[1].0 == "api_key"
    requires r.extraReserved == [] && r.preset == Some(("append_to_response", MovieDetailsSections))
    requires DistinctKeys(q) && Lookup(q, "api_key") == Undefined
    ensures var ps := Finalized(WithPreset(initial, r), q, r.extraReserved, apiKey);
      ValuesOf(ps, "fn") == [initial[0].1] && ValuesOf(ps, "api_key") == [initial[1].1]
  {
    assert ValuesOf(initial, "fn") == [initial[0].1] && ValuesOf(initial, "api_key") == [initial[1].1] by {
      assert initial[1..][1..] == [];
    }
    var preset := WithPreset(initial, r);
    FinalizedKeepsInitial(preset, q, apiKey, "fn");
    FinalizedKeepsInitial(preset, q, apiKey, "api_key");
  }


  /** The same request with the id kept as path text: no routing key leaks and the configured key is attached. */
  lemma PathTextKept(base: string, id: string, v: string, key: string, configured: string)
    requires configured != ""
    ensures var q := DetailsRequest(SmuggledId(id, v, key));
      var t := TmdbTarget("movie_details", q, base, Some(configured));
      t.Success? && !HasKey(t.value.params, "fn") && ValuesOf(t.value.params, "api_key") == [configured]
  {
    var q := DetailsRequest(SmuggledId(id, v, key));
    DetailsRequestRoute(SmuggledId(id, v, key));
    TargetValues("movie_details", q, base, Some(configured), "fn");
    TargetValues("movie_details", q, base, Some(configured), "api_key");
  }
}
