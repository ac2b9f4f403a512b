# FilmFinder catalogue and TMDb proxy, modelled in Dafny

This project models the logic core of a movie-recommendation web app that
browses The Movie Database (TMDb). It has three parts.

- **The server-side proxy** (`pages/api/tmdb.ts`). The proxy turns an
  operation name (`fn`) and the request's query into one upstream URL, or
  into a 400 error when a required parameter is missing. It forwards the
  caller's other parameters and never forwards the routing ones. It attaches
  the configured credential, as an `api_key` parameter or as a bearer token.
  It then decides the response: 500 when no credential is configured; the
  upstream status with the data for 2xx; the upstream status with
  `{error: data}` otherwise.
- **The client's catalogue state manager** (`components/MovieRecommendationsUI.tsx`,
  without its rendering). This covers:
  - how a provider record becomes a `UiMovie`;
  - how fetched pages and favourites are merged into the catalogue;
  - which list a feed shows, the rating/genre filter and client-side
    pagination;
  - the page-count and clamping rules;
  - the toggle and query handlers;
  - restoring the favourites from their stored JSON.
- **`truncate`** (`Utils/index.ts`).

Files:

| file | module | contents |
|---|---|---|
| `types.dfy` | `Types` | the records of `types/index.ts`, feeds, parsed JSON, Option/Result |
| `utils.dfy` | `Utils` | `truncate` |
| `search_params.dfy` | `SearchParams` | the URL object the proxy mutates: an address and ordered query pairs, with `set`/`append`/`getAll` as the URL Standard (WHATWG) defines them |
| `tmdb_proxy.dfy` | `TmdbProxy` | the request translator, credentials, masking and the handler's responses |
| `catalog.dfy` | `Catalog` | the pure derivations of the client: record mapping, merges, lists, filter, pagination, toggles |
| `favorites.dfy` | `Favorites` | restoring the favourites library from a parsed snapshot |
| `catalog_state.dfy` | `CatalogState` | the client state as a class whose methods are the handlers and effects |

Where the code builds something step by step, the model does too:
- `applyPassthroughParams` and `finalizeUrl` update a `Url` object in place.
- The restore loop, the merge loops and `toGenreState` are `while` loops.
- The component's state is a class with one method per handler or effect.

Each of these is proved equal to a specification function of its inputs.
The properties are then proved about those functions.

### Behaviour of the code worth knowing

- **Catalogue keys.** The catalogue and the favourites library are keyed by
  the id string alone. A tv title whose numeric id equals a movie's
  therefore replaces it (`Catalog.SameIdAcrossMediaTypes`). One might expect
  the media type to be part of an item's identity; in the code it is not.
- **The list is not cleared before a fetch.** A new page replaces `movies`
  only when it arrives. `ApplyListResponse` leaves `movies` alone when the
  page is clamped. One might expect the grid to be cleared before each
  fetch; the code does not do that.
- **`trending` has defaults.** It defaults to `movie` and `day` and never
  fails. Neither parameter is required.
- **Path values are not encoded.** `movieId`, `tvId`, `mediaType` and
  `timeWindow` are pasted into the path, and `new URL` splits the joined
  text at a '?'. A movieId such as `1?fn=x&api_key=k` thus puts `fn` and
  `api_key` into the upstream query (see Findings).
- **`page` is forwarded.** It is not reserved, so it is passed upstream
  like any other parameter; so is `api_key`.
- **Page count of the watchlist feed.** At the start of a load it comes from
  the raw number of watchlist ids (`StartLoad`). The separate page-count
  effect over the filtered list (`SyncLocalPages`) then recomputes it.

## Model

| member | source | states |
|---|---|---|
| Utils.Truncate | movie_recommendations-app/Utils/index.ts:1-4 | the result has at most n+1 characters; a text of at most n characters is returned unchanged (so "" stays ""); a longer one becomes its first n characters followed by "…", exactly n+1 characters |
| Utils.TruncateDefaultBound | movie_recommendations-app/Utils/index.ts:1-3 | with the default n = 140 no result is longer than 141 characters, and a shortened one is exactly 141 |
| SearchParams.SetParam | movie_recommendations-app/pages/api/tmdb.ts:52-53 | after `set(k, v)` the key has exactly the one value v, every other key keeps its values, and the pairs of other keys keep their order |
| SearchParams.Url.Set | movie_recommendations-app/pages/api/tmdb.ts:53 | `url.searchParams.set` replaces the URL's pairs with `SetParam` of the old ones |
| SearchParams.Url.Append | movie_recommendations-app/pages/api/tmdb.ts:48 | `url.searchParams.append` adds one pair at the end |
| TmdbProxy.RequireParam | movie_recommendations-app/pages/api/tmdb.ts:23-36 | it fails exactly when the single value (the first element of an array, or the value) is absent or empty; the failure is HttpError(400, message); a success carries that non-empty value |
| TmdbProxy.ResolveMediaType | movie_recommendations-app/pages/api/tmdb.ts:77-80 | the result is tv exactly when the raw mediaType's single value is "tv" or the default is tv |
| TmdbProxy.ApplyPassthroughParams | movie_recommendations-app/pages/api/tmdb.ts:38-55 | the loop leaves the URL's pairs equal to `Passthrough` of the old pairs, the query and the blocked set |
| TmdbProxy.FinalizeUrl | movie_recommendations-app/pages/api/tmdb.ts:63-74 | the URL's pairs become `Finalized`: the passthrough, then api_key only when a key is given and none is present |
| TmdbProxy.BuildTmdbUrl | movie_recommendations-app/pages/api/tmdb.ts:95-244 | the URL object built case by case equals `TmdbTarget`; a successful result carries no reserved routing key, for path values free of '?' and '#' (see Findings) |
| TmdbProxy.ForwardEntryValues | movie_recommendations-app/pages/api/tmdb.ts:41-54 | one loop step changes only its own key: undefined and blocked values change nothing, a string replaces the key's values, an array appends its elements in order |
| TmdbProxy.AppendAllValues | movie_recommendations-app/pages/api/tmdb.ts:45-50 | appending an array value adds its elements, in order, to that key's values and changes no other key |
| TmdbProxy.PassthroughBlocked | movie_recommendations-app/pages/api/tmdb.ts:39-42 | a key in RESERVED_QUERY_KEYS or extraReserved keeps exactly the values it had before the passthrough |
| TmdbProxy.PassthroughValues | movie_recommendations-app/pages/api/tmdb.ts:38-55 | key by key: a blocked key is untouched; every other defined key is forwarded, a string value replacing and an array value appending one pair per element |
| TmdbProxy.RouteShape | movie_recommendations-app/pages/api/tmdb.ts:101-243 | every case blocks exactly the reserved keys, and the only parameters set before the passthrough are query and append_to_response |
| TmdbProxy.EndpointExtras | movie_recommendations-app/pages/api/tmdb.ts:101-243 | a case reserves nothing beyond mediaType, or mediaType and timeWindow |
| TmdbProxy.EndpointPresets | movie_recommendations-app/pages/api/tmdb.ts:138-231 | the only parameters a case sets before the passthrough are query and append_to_response |
| TmdbProxy.TargetValues | movie_recommendations-app/pages/api/tmdb.ts:95-244 | for path values free of '?' and '#', the upstream query key by key: reserved keys never occur; other keys carry the case's preset updated by the caller's value; api_key carries the configured key only when the caller passed none |
| TmdbProxy.FinalizedValues | movie_recommendations-app/pages/api/tmdb.ts:63-74 | the per-key values that `finalizeUrl` produces for any case whose shape `RouteShape` describes |
| TmdbProxy.ResolveCredentials | movie_recommendations-app/pages/api/tmdb.ts:246-262 | a non-empty value is the api key exactly when it is 32 ASCII letters and digits, and the bearer token otherwise; exactly one is set for a non-empty value; neither is set for "" |
| TmdbProxy.MaskApiKey | movie_recommendations-app/pages/api/tmdb.ts:82-92 | a present api_key is reduced to the one value "***", every other key and the address are unchanged; without an api_key the URL is returned as it is |
| TmdbProxy.Relay | movie_recommendations-app/pages/api/tmdb.ts:314-336 | the status is the upstream one; the data is relayed bare exactly for a reply in [200, 300), and wrapped as {error: data} otherwise, including transport failures |
| TmdbProxy.MissingCredentials | movie_recommendations-app/pages/api/tmdb.ts:269-272 | with no credential every request is answered 500 {error: "Missing TMDB credentials"} |
| TmdbProxy.SearchWithoutQuery | movie_recommendations-app/pages/api/tmdb.ts:138-142 | search without q is answered 400 "Missing search query" whatever the upstream would say |
| TmdbProxy.RelayedStatus | movie_recommendations-app/pages/api/tmdb.ts:274-319 | a translated request relays the upstream status, a non-2xx reply comes as {error: data}, and an Authorization header is sent exactly when the credential is not key-shaped |
| TmdbProxy.UnknownOperation | movie_recommendations-app/pages/api/tmdb.ts:238-242 | an operation name without a case of its own reads movie/popular, with no preset and no extra reserved keys |
| TmdbProxy.MissingOperation | movie_recommendations-app/pages/api/tmdb.ts:265 | a missing or empty fn is "popular"; an array-valued fn, whatever its elements, matches no case and reads movie/popular |
| TmdbProxy.MediaTypeBranching | movie_recommendations-app/pages/api/tmdb.ts:102-149 | popular, now_playing, upcoming, discover, discover_movie, genre_list and search take their tv path exactly when mediaType is "tv" |
| TmdbProxy.TrendingPath | movie_recommendations-app/pages/api/tmdb.ts:150-156 | trending never fails and reads trending/{mediaType}/{timeWindow}, defaulting to movie and day |
| TmdbProxy.MovieDetailsSectionsDefault | movie_recommendations-app/pages/api/tmdb.ts:162-177 | movie_details fails with its 400 message exactly without a movieId; append_to_response is the default section list unless the caller supplied one, whose values are forwarded instead |
| TmdbProxy.OrdinaryKeyValues | movie_recommendations-app/pages/api/tmdb.ts:38-74 | a key that is neither reserved nor api_key carries the case's preset updated by the caller's value |
| TmdbProxy.DetailsSectionsForwarded | movie_recommendations-app/pages/api/tmdb.ts:162-177 | the default sections survive unless the caller's append_to_response is truthy; a caller's string or array is forwarded instead |
| TmdbProxy.SearchQueryParam | movie_recommendations-app/pages/api/tmdb.ts:138-149 | search with a q succeeds, and the upstream query parameter is q's value unless the caller also passed query |
| TmdbProxy.ApiKeyAttachedOnce | movie_recommendations-app/pages/api/tmdb.ts:63-74 | for path values free of '?' and '#': without a caller api_key the configured key is attached exactly once; with a caller string api_key that value is kept and no second one is added |
| TmdbProxy.ToSingleValue | movie_recommendations-app/pages/api/tmdb.ts:23-28 | undefined and the empty array give no value; a string is its own value; a non-empty array gives its first element |
| TmdbProxy.TrimmedBase | movie_recommendations-app/pages/api/tmdb.ts:58 | one trailing "/" is dropped from the base and nothing else |
| TmdbProxy.CreateUrl | movie_recommendations-app/pages/api/tmdb.ts:57-61 | the joined text ends with the path, and is the base and the path with one trailing "/" dropped and one leading "/" supplied |
| TmdbProxy.AppendAll | movie_recommendations-app/pages/api/tmdb.ts:45-50 | appending keeps the earlier pairs and adds one (key, element) pair per element, in order |
| TmdbProxy.Passthrough | movie_recommendations-app/pages/api/tmdb.ts:38-55 | no contract of its own; `PassthroughValues` and `PassthroughBlocked` state it key by key |
| TmdbProxy.Finalized | movie_recommendations-app/pages/api/tmdb.ts:63-74 | no contract of its own; `FinalizedValues` and `ApiKeyAttachedOnce` state it key by key |
| TmdbProxy.EndpointOf | movie_recommendations-app/pages/api/tmdb.ts:101-243 | an operation name falls to the default branch exactly when it is none of the named cases |
| TmdbProxy.EndpointRoute | movie_recommendations-app/pages/api/tmdb.ts:101-243 | a case fails only with status 400, and only the search and per-title cases can fail |
| TmdbProxy.RouteFor | movie_recommendations-app/pages/api/tmdb.ts:101-243 | a failure is a 400; an unknown operation name reads movie/popular with no preset and no extra reserved keys |
| TmdbProxy.TmdbTarget | movie_recommendations-app/pages/api/tmdb.ts:95-244 | the translation fails exactly when its case does, always with status 400 |
| TmdbProxy.OperationName | movie_recommendations-app/pages/api/tmdb.ts:265 | a non-empty string fn is used as it is; the name is "" exactly for an array-valued fn |
| TmdbProxy.RequestHeaders | movie_recommendations-app/pages/api/tmdb.ts:274-277 | accept is always sent first; an Authorization bearer header follows exactly when a bearer token is set |
| TmdbProxy.Plan | movie_recommendations-app/pages/api/tmdb.ts:264-277 | a request answered without calling upstream gets an error envelope with status 400 or 500; an outbound request always sends accept first |
| TmdbProxy.Handle | movie_recommendations-app/pages/api/tmdb.ts:264-336 | an early answer is sent as planned; otherwise the status is the upstream one |
| TmdbProxy.SplitFirst | movie_recommendations-app/pages/api/tmdb.ts:60 | the text before the first separator holds no separator and, with the rest, rebuilds the text; without a separator the whole text comes back |
| TmdbProxy.SplitFirstAt | movie_recommendations-app/pages/api/tmdb.ts:60 | given a split of the text at a separator with none before it, that split is the one found |
| TmdbProxy.SplitAll | movie_recommendations-app/pages/api/tmdb.ts:60 | the pieces hold no separator, and there is at least one |
| TmdbProxy.PairOf | movie_recommendations-app/pages/api/tmdb.ts:60 | a query part's name holds no "="; a part without "=" has an empty value |
| TmdbProxy.ParseQuery | movie_recommendations-app/pages/api/tmdb.ts:60 | at most one pair per part, and no name holds "=" |
| TmdbProxy.ParseUrl | movie_recommendations-app/pages/api/tmdb.ts:60 | a text without '?' and '#' parses to itself with an empty query |
| TmdbProxy.WithPreset | movie_recommendations-app/pages/api/tmdb.ts:138-231 | on an empty query the preset gives exactly the route's preset pairs |
| TmdbProxy.TmdbTargetAsWritten | movie_recommendations-app/pages/api/tmdb.ts:57-74 | no contract of its own: buildTmdbUrl with the joined text parsed by `new URL`; `AsWrittenAgrees` and `PathInjection` state it |
| TmdbProxy.AsWrittenAgrees | movie_recommendations-app/pages/api/tmdb.ts:57-74 | when the joined text holds no '?' and '#', the program as written and `TmdbTarget` give the same request |
| TmdbProxy.ParseUrlWithQuery | movie_recommendations-app/pages/api/tmdb.ts:60 | a text with a query and no fragment splits at its first '?' |
| TmdbProxy.SplitAllTwo | movie_recommendations-app/pages/api/tmdb.ts:60 | two pieces joined by one separator split back into those two |
| TmdbProxy.PairOfAt | movie_recommendations-app/pages/api/tmdb.ts:60 | name=value reads as that pair when the name holds no "=" |
| TmdbProxy.ParseTwoPairs | movie_recommendations-app/pages/api/tmdb.ts:60 | a query string of two name=value parts reads as those two pairs in order |
| TmdbProxy.DetailsRequestRoute | movie_recommendations-app/pages/api/tmdb.ts:162-169 | movie_details with a non-empty movieId reads movie/{movieId} with the default sections preset |
| TmdbProxy.SmuggledText | movie_recommendations-app/pages/api/tmdb.ts:57-61 | the path of a movieId that carries a query string joins to base + "/movie/" + id + "?" + query |
| TmdbProxy.SmuggledQueryParse | movie_recommendations-app/pages/api/tmdb.ts:60 | "fn=v&api_key=key" parses to the two pairs fn and api_key |
| TmdbProxy.SmuggledParse | movie_recommendations-app/pages/api/tmdb.ts:60 | such a URL text carries fn and api_key as its own query |
| TmdbProxy.SmuggledUrlParams | movie_recommendations-app/pages/api/tmdb.ts:57-61 | the URL built for such a movieId carries the smuggled fn and api_key |
| TmdbProxy.TrimmedBaseFree | movie_recommendations-app/pages/api/tmdb.ts:58 | trimming the base adds no character |
| TmdbProxy.FinalizedKeepsInitial | movie_recommendations-app/pages/api/tmdb.ts:63-74 | finalizeUrl keeps the values of reserved keys already on the URL, and keeps an api_key already there without adding the configured one |
| TmdbProxy.SmuggledPairsKept | movie_recommendations-app/pages/api/tmdb.ts:162-177 | the smuggled fn and api_key survive the details preset and finalizeUrl |
| TmdbProxy.PathInjection | movie_recommendations-app/pages/api/tmdb.ts:57-74 | as written, a movieId `id?fn=v&api_key=key` sends fn=v and api_key=key upstream and the configured key is not attached |
| TmdbProxy.PathTextKept | movie_recommendations-app/pages/api/tmdb.ts:95-244 | with the id kept as path text, the same request sends no fn and the configured api_key |
| TmdbProxy.CreateUrlJoin | movie_recommendations-app/pages/api/tmdb.ts:57-61 | base and path are joined with exactly one "/" when each carries at most one at the seam |
| Catalog.FormatYear | movie_recommendations-app/components/MovieRecommendationsUI.tsx:32-36 | "-" for an absent or empty date, otherwise the date's first min(4, length) characters; never empty |
| Catalog.GenreNames | movie_recommendations-app/components/MovieRecommendationsUI.tsx:369-371 | the resolved names are non-empty dictionary values, no more than the ids |
| Catalog.GenreNamesConcat | movie_recommendations-app/components/MovieRecommendationsUI.tsx:369-371 | resolution distributes over concatenation, so the order of the ids is kept |
| Catalog.GenreNamesMembers | movie_recommendations-app/components/MovieRecommendationsUI.tsx:369-371 | a name is resolved exactly when it is non-empty and some listed id maps to it; unknown ids are dropped |
| Catalog.GenreNamesExample | movie_recommendations-app/components/MovieRecommendationsUI.tsx:369-371 | {28: Action, 35: Comedy} with ids [28, 99] gives [Action] |
| Catalog.ResolvedMediaType | movie_recommendations-app/components/MovieRecommendationsUI.tsx:359-360 | tv exactly when the item's media_type or the fallback is tv |
| Catalog.MapRecord | movie_recommendations-app/components/MovieRecommendationsUI.tsx:366 | the record's id is the decimal text of the provider's numeric id |
| Catalog.MapRecordFields | movie_recommendations-app/components/MovieRecommendationsUI.tsx:358-377 | media type as resolved; title falls back title, name, "Untitled" and is never empty; year from the date of the resolved media type; genres from that media type's dictionary; poster from the image base or the fallback poster; no runtime and no trending flag |
| Catalog.ListResults | movie_recommendations-app/components/MovieRecommendationsUI.tsx:352-356 | no contract of its own: results, else items, else nothing; used by `ApplyListResponse` |
| Catalog.MapRecords | movie_recommendations-app/components/MovieRecommendationsUI.tsx:352-377 | one mapped record per provider record, in order |
| Catalog.ReportedTotal | movie_recommendations-app/components/MovieRecommendationsUI.tsx:345 | the remote page count is the reported count when that is at least 1, and 1 otherwise (missing, zero or negative) |
| Catalog.GenreStateOf | movie_recommendations-app/components/MovieRecommendationsUI.tsx:199-209 | no contract of its own; `GenreStateNames`, `GenreStateKeys` and `GenreStateLastWins` state it |
| Catalog.GenreStateNames | movie_recommendations-app/components/MovieRecommendationsUI.tsx:199-209 | the names are the payload's names in payload order |
| Catalog.GenreStateKeys | movie_recommendations-app/components/MovieRecommendationsUI.tsx:199-209 | the dictionaries hold exactly the payload's ids and names |
| Catalog.GenreStateLastWins | movie_recommendations-app/components/MovieRecommendationsUI.tsx:203-207 | each entry is decided by the last genre with that id (or name) |
| Catalog.ToGenreState | movie_recommendations-app/components/MovieRecommendationsUI.tsx:199-209 | the forEach loop builds the vocabulary `GenreStateOf` gives for the payload, empty for a missing one |
| Catalog.KnownGenres | movie_recommendations-app/components/MovieRecommendationsUI.tsx:251 | an active genre survives exactly when the vocabulary maps it to a non-zero id |
| Catalog.KnownGenresNoDuplicates | movie_recommendations-app/components/MovieRecommendationsUI.tsx:251 | pruning keeps the active genres free of repetitions |
| Catalog.MergePage | movie_recommendations-app/components/MovieRecommendationsUI.tsx:380-386 | the merged catalogue's keys are the old keys and the page's ids |
| Catalog.MergePageAt | movie_recommendations-app/components/MovieRecommendationsUI.tsx:380-386 | after a merge every id of the page maps to the page's last record with that id; every other key is unchanged |
| Catalog.MergePageKeysMatch | movie_recommendations-app/components/MovieRecommendationsUI.tsx:380-386 | a merge keeps every record under its own id |
| Catalog.FoldFavorites | movie_recommendations-app/components/MovieRecommendationsUI.tsx:166-181 | folding favourites in adds exactly the missing ids with their snapshots and never overwrites a present one |
| Catalog.RefreshFavorites | movie_recommendations-app/components/MovieRecommendationsUI.tsx:182-195 | the refresh keeps the library's key set; an id the catalogue knows takes the catalogue's record |
| Catalog.FoldThenRefreshSyncs | movie_recommendations-app/components/MovieRecommendationsUI.tsx:166-195 | after the two effects every favourite equals its catalogue record, with the favourites key set unchanged |
| Catalog.FoldFavoritesUnique | movie_recommendations-app/components/MovieRecommendationsUI.tsx:166-181 | a map with the catalogue's and the library's keys that keeps the catalogue's records and otherwise takes the library's is the fold |
| Catalog.RefreshFavoritesUnique | movie_recommendations-app/components/MovieRecommendationsUI.tsx:182-195 | a map with the library's keys that takes the catalogue's record where there is one, else the library's, is the refresh |
| Catalog.FoldKeysMatch | movie_recommendations-app/components/MovieRecommendationsUI.tsx:166-195 | both effects keep every record under its own id |
| Catalog.SameIdAcrossMediaTypes | movie_recommendations-app/components/MovieRecommendationsUI.tsx:382-384 | a tv record with a movie's id replaces the movie in the catalogue |
| Catalog.WatchlistItems | movie_recommendations-app/components/MovieRecommendationsUI.tsx:431-433 | the watchlist feed shows only catalogue records, no more than there are ids |
| Catalog.WatchlistItemsConcat | movie_recommendations-app/components/MovieRecommendationsUI.tsx:431-433 | the watchlist feed keeps watchlist order: it distributes over concatenation, and unknown ids drop out |
| Catalog.WatchlistItemsKnown | movie_recommendations-app/components/MovieRecommendationsUI.tsx:431-433 | when every id is known, entry i is the catalogue record of watchlist id i |
| Catalog.FavoritesItemsResolve | movie_recommendations-app/components/MovieRecommendationsUI.tsx:435-437 | over ids that are all library keys the mapping keeps one entry per id: the catalogue's record, else the stored snapshot |
| Catalog.DistinctCount | movie_recommendations-app/components/MovieRecommendationsUI.tsx:435 | a key order without repetitions has as many distinct keys as positions |
| Catalog.FavoritesItems | movie_recommendations-app/components/MovieRecommendationsUI.tsx:434-438 | for an order listing every library key once, the favourites feed has exactly one entry per stored favourite, in that order: the catalogue's record, else the stored snapshot |
| Catalog.CurrentList | movie_recommendations-app/components/MovieRecommendationsUI.tsx:430-440 | the watchlist feed has at most one entry per id; the favourites feed one per stored favourite; any other feed shows the fetched page |
| Catalog.MatchesAsInclusion | movie_recommendations-app/components/MovieRecommendationsUI.tsx:441 | an item matches exactly when its rating reaches the threshold and the active genres are a subset of its genres |
| Catalog.Filter | movie_recommendations-app/components/MovieRecommendationsUI.tsx:441 | every kept item matches, and no more items are kept than given |
| Catalog.FilterMembers | movie_recommendations-app/components/MovieRecommendationsUI.tsx:441 | an item is kept exactly when it is in the list and matches |
| Catalog.FilterConcat | movie_recommendations-app/components/MovieRecommendationsUI.tsx:441 | the filter distributes over concatenation, so order is preserved |
| Catalog.Paginate | movie_recommendations-app/components/MovieRecommendationsUI.tsx:452-458 | a local feed shows at most 20 items, all from the filtered list; any other feed shows the filtered list whole |
| Catalog.PaginateWindow | movie_recommendations-app/components/MovieRecommendationsUI.tsx:452-458 | a local feed's page p is filtered[(p-1)*20 .. p*20) cut at the end, never more than 20 items |
| Catalog.PaginateRemote | movie_recommendations-app/components/MovieRecommendationsUI.tsx:452-458 | other feeds show the filtered list whole |
| Catalog.LocalTotalPages | movie_recommendations-app/components/MovieRecommendationsUI.tsx:444 | max(1, ceil(n/20)): at least 1, enough pages for n items and no page more than needed |
| Catalog.ItemPage | movie_recommendations-app/components/MovieRecommendationsUI.tsx:444-458 | item i of a local feed is at position i mod 20 of page i/20 + 1, and that page is within the page count |
| Catalog.ClampedPageNotEmpty | movie_recommendations-app/components/MovieRecommendationsUI.tsx:442-458 | a page within [1, totalPages] of a non-empty local feed is never empty |
| Catalog.IsBlank | movie_recommendations-app/components/MovieRecommendationsUI.tsx:468-471 | no contract of its own: `!value.trim()`, every character JavaScript whitespace; `HandleQueryChange` and `StartLoad` state its use |
| Catalog.ClampPage | movie_recommendations-app/components/MovieRecommendationsUI.tsx:503-505 | the page lands in [1, totalPages]: a page already inside is kept, one beyond the count becomes the count, one below 1 becomes 1 |
| Catalog.RemoveAll | movie_recommendations-app/components/MovieRecommendationsUI.tsx:475-476 | every occurrence of the value is removed and nothing else |
| Catalog.Toggle | movie_recommendations-app/components/MovieRecommendationsUI.tsx:475-476 | membership of the value flips and no other value's membership changes; an absent value is appended at the end, a present one has every occurrence removed |
| Catalog.ToggleNoDuplicates | movie_recommendations-app/components/MovieRecommendationsUI.tsx:475-476 | toggling keeps a list free of repetitions |
| Catalog.ToggleTwice | movie_recommendations-app/components/MovieRecommendationsUI.tsx:475-476 | toggling twice restores a list without the value exactly; a present value comes back at the end |
| Catalog.FindById | movie_recommendations-app/components/MovieRecommendationsUI.tsx:485 | the first record with the id, or none when no record has it |
| Catalog.ToggledLike | movie_recommendations-app/components/MovieRecommendationsUI.tsx:477-502 | a favourite is removed from library and likes; otherwise the snapshot comes from the catalogue, else from the loaded page, and nothing changes when neither has it |
| Catalog.ToggledLikeKeys | movie_recommendations-app/components/MovieRecommendationsUI.tsx:477-502 | afterwards the likes' keys still equal the library's keys |
| Catalog.ToggledLikeTwice | movie_recommendations-app/components/MovieRecommendationsUI.tsx:477-502 | liking twice is the identity when the id can be liked and the favourites are in step with the catalogue |
| Catalog.SelectedMovie | movie_recommendations-app/components/MovieRecommendationsUI.tsx:460-465 | no selection gives none; the catalogue's record wins; otherwise the library's record, and none when neither has the id |
| Favorites.FieldOf | movie_recommendations-app/components/MovieRecommendationsUI.tsx:80-82 | a property is absent exactly when no field has the name, and otherwise is one of the object's fields |
| Favorites.StringOr | movie_recommendations-app/components/MovieRecommendationsUI.tsx:94-101 | `??`: undefined and null take the fallback, a string is kept |
| Favorites.JsString | movie_recommendations-app/components/MovieRecommendationsUI.tsx:85 | no contract of its own: String(value), with integers below 1e21 written like the catalogue's ids; `JsStringSingleton` states a consequence |
| Favorites.JsStringSingleton | movie_recommendations-app/components/MovieRecommendationsUI.tsx:85 | String of a one-element array is String of its element; the empty array gives "" |
| Favorites.StringItems | movie_recommendations-app/components/MovieRecommendationsUI.tsx:86-88 | exactly the string items are kept |
| Favorites.RecordFrom | movie_recommendations-app/components/MovieRecommendationsUI.tsx:92-93 | the restored record carries the identifier it is stored under |
| Favorites.RecordFromFields | movie_recommendations-app/components/MovieRecommendationsUI.tsx:86-103 | defaults Untitled, "-", the fallback poster and ""; exactly the string genres; a numeric rating kept, else 0; a runtime only when the field is a number; trending is the field's truthiness; tv only for exactly "tv" |
| Favorites.EntryId | movie_recommendations-app/components/MovieRecommendationsUI.tsx:76-85 | a list entry has an identifier exactly when it is an object whose id is neither missing nor null; a string id is used as it is |
| Favorites.LibraryFromList | movie_recommendations-app/components/MovieRecommendationsUI.tsx:74-105 | the list format stores every record under its own id, and its keys are the identifiers of the entries |
| Favorites.LibraryFromObject | movie_recommendations-app/components/MovieRecommendationsUI.tsx:106-126 | the object format stores every record under its own key, which is its id, and its keys are those of object or array values |
| Favorites.Restored | movie_recommendations-app/components/MovieRecommendationsUI.tsx:70-126 | records are stored under their ids; a list snapshot restores `LibraryFromList`, an object snapshot `LibraryFromObject`; a missing snapshot or one that is neither list nor object restores nothing |
| Favorites.LibraryFromListAt | movie_recommendations-app/components/MovieRecommendationsUI.tsx:74-105 | an identifier holds the record built from the last entry carrying it |
| Favorites.LibraryFromListKeys | movie_recommendations-app/components/MovieRecommendationsUI.tsx:76-85 | an identifier is restored exactly when some entry carries one: entries without an id are skipped |
| Favorites.LibraryFromObjectKeys | movie_recommendations-app/components/MovieRecommendationsUI.tsx:107-110 | the object format restores exactly the keys whose value is an object or an array |
| Favorites.LikesFor | movie_recommendations-app/components/MovieRecommendationsUI.tsx:127-133 | the likes have the library's key set and every value true |
| Favorites.BuildLibrary | movie_recommendations-app/components/MovieRecommendationsUI.tsx:70-126 | the restore fills the library that `Restored` describes |
| Favorites.ListLibrary | movie_recommendations-app/components/MovieRecommendationsUI.tsx:75-105 | the forEach over a list snapshot fills exactly `LibraryFromList` |
| Favorites.ObjectLibrary | movie_recommendations-app/components/MovieRecommendationsUI.tsx:107-126 | the forEach over an object snapshot fills exactly `LibraryFromObject` |
| CatalogState.CatalogState.constructor | movie_recommendations-app/components/MovieRecommendationsUI.tsx:38-64 | the initial state: popular feed, empty query, movie, rating 7, empty lists and maps, page 1 of 1 |
| CatalogState.CatalogState.HandleQueryChange | movie_recommendations-app/components/MovieRecommendationsUI.tsx:466-474 | the query is stored; a non-blank one switches to search; a blank one in search reverts to popular, elsewhere leaves the feed; a changed query or feed resets the page to 1; nothing else changes |
| CatalogState.CatalogState.SelectFeed | movie_recommendations-app/components/MovieRecommendationsUI.tsx:560-564 | the search tab is ignored while the query is blank; otherwise the feed is set and a new feed resets the page |
| CatalogState.CatalogState.HandleFeedMediaTypeChange | movie_recommendations-app/components/MovieRecommendationsUI.tsx:144-149 | a new media type prunes the active genres to its vocabulary and resets the page; the same one changes nothing |
| CatalogState.CatalogState.SetMinRating | movie_recommendations-app/components/MovieRecommendationsUI.tsx:253-255 | a new threshold is stored and resets the page |
| CatalogState.CatalogState.ToggleGenre | movie_recommendations-app/components/MovieRecommendationsUI.tsx:475 | the genre is toggled, the page reset, and the class invariant kept |
| CatalogState.CatalogState.ToggleWatchlist | movie_recommendations-app/components/MovieRecommendationsUI.tsx:476 | the id is toggled, nothing else changes, and the watchlist stays free of repetitions |
| CatalogState.CatalogState.ToggleLike | movie_recommendations-app/components/MovieRecommendationsUI.tsx:477-502 | library and likes become `ToggledLike`; likes still mark exactly the favourites |
| CatalogState.CatalogState.HandlePageChange | movie_recommendations-app/components/MovieRecommendationsUI.tsx:503-505 | the page becomes the request clamped into [1, totalPages] |
| CatalogState.CatalogState.RestoreFavorites | movie_recommendations-app/components/MovieRecommendationsUI.tsx:65-143 | a non-empty restored library replaces the favourites and is liked exactly; an empty one changes nothing |
| CatalogState.CatalogState.FoldFavoritesIntoCatalog | movie_recommendations-app/components/MovieRecommendationsUI.tsx:166-181 | the catalogue becomes `FoldFavorites` of itself and the library; nothing else changes |
| CatalogState.CatalogState.RefreshFavoritesFromCatalog | movie_recommendations-app/components/MovieRecommendationsUI.tsx:182-195 | the library becomes `RefreshFavorites` of itself and the catalogue; nothing else changes |
| CatalogState.CatalogState.ReceiveGenres | movie_recommendations-app/components/MovieRecommendationsUI.tsx:220-252 | each fulfilled response replaces its vocabulary, the active genres are pruned to the current media type's, and the page resets |
| CatalogState.CatalogState.ClampLocalPages | movie_recommendations-app/components/MovieRecommendationsUI.tsx:442-450 | the page count becomes max(1, ceil(count/20)) and a page beyond it is pulled back to it |
| CatalogState.CatalogState.StartLoad | movie_recommendations-app/components/MovieRecommendationsUI.tsx:262-292 | watchlist and favourites set their page count from the raw count of ids; a blank search empties the page with one page; only other feeds fetch, changing nothing yet |
| CatalogState.CatalogState.ApplyListResponse | movie_recommendations-app/components/MovieRecommendationsUI.tsx:345-386 | the reported count is stored; a page beyond it is pulled back and the records ignored; otherwise the mapped records become the page and are merged into the catalogue |
| CatalogState.CatalogState.SyncLocalPages | movie_recommendations-app/components/MovieRecommendationsUI.tsx:442-458 | in a local feed the page count follows the filtered items, and a non-empty filtered list never shows an empty page |
| CatalogState.FoldInto | movie_recommendations-app/components/MovieRecommendationsUI.tsx:170-180 | the forEach builds exactly `FoldFavorites` |
| CatalogState.RefreshFrom | movie_recommendations-app/components/MovieRecommendationsUI.tsx:183-194 | the forEach builds exactly `RefreshFavorites` |
| CatalogState.MergeInto | movie_recommendations-app/components/MovieRecommendationsUI.tsx:380-386 | the forEach builds exactly `MergePage` |

## Left out

- Percent-encoding and serialisation (`toString`, `encodeURIComponent`). A URL is modelled as its address string plus its ordered query pairs.
- URL parsing. The main model keeps path values as path text. `TmdbTargetAsWritten` models how `new URL` splits them at '?' and '#', but without percent-decoding, '+' as space or dot segments.
- The `maskApiKey` fallback for a string that does not parse as a URL: the model's URLs always parse.
- The upstream call (`axios.get`) and `fetchJSON`. Their outcome is an input: `Upstream` for the proxy, a `ListResponse` and `Settled` genre results for the client.
- Reading the error object of a failed axios call, and the 500 for other thrown errors (tmdb.ts:326-339). `Upstream.TransportFailure` carries the status and data the handler read.
- Environment variables. The base URL, the credential and the image base are parameters.
- Request logging and the response preview (tmdb.ts:278-312). These are diagnostics only.
- `localStorage` and `JSON.parse`. The snapshot arrives parsed (`Option<Json>`, where None means it was missing or unreadable). Persisting the favourites (UI.tsx:150-165) is a write with no effect on state.
- React effect scheduling, `AbortController`, last-request-wins ordering, and the `loading`/`error` fields. Each handler or effect runs to completion as one method, and a response is applied when it arrives.
- The client's request-URL construction (UI.tsx:300-342), `trendingMediaType`/`trendingWindow` and their sync effect (UI.tsx:257-261), and `genreNameToId`. `ApplyListResponse` takes the fallback media type as a parameter.
- `genreChoices` (UI.tsx:243-250): it is only read by the rendering.
- The details overlay fetch (UI.tsx:401-429) and all JSX rendering.
- Catalog.MapRecord: ratings are taken as given reals; `Number(...toFixed(1))` rounding is not modelled.
- Favorites.RecordFrom: a non-number rating becomes 0 instead of being coerced by `Number(...)`. A non-string, non-null title, year, poster or overview takes the field's default instead of being kept as the raw value.
- Favorites.JsString: `String(number)` for non-integers and for integers from 1e21 up is the parameter `numberText`.
- Catalog.IntToDecimal: an integer id from 1e21 up is written out in full, where JavaScript switches to exponent form ("1e+21"). TMDB ids are far below that bound.
- The key order of a restored library. A repeated id keeps its first position in the code; the model's maps have no order.
- Catalog.FavoritesItems: which order `Object.keys` yields is the parameter `keyOrder`. The model requires only that it lists every key of the library once.
- `changed ? next : previous` in the two favourites effects. It only decides object identity, which value semantics cannot see.
- Catalog.FoldFavorites: it walks the library's keys where the code walks its records' `id`s. These agree because the class invariant keeps every record under its own id.
- Utils.Truncate: lengths are counted in Unicode code points, where JavaScript counts UTF-16 code units. A negative or fractional `n` is not modelled.
- HandleQueryChange and the other handlers reset the page as part of the handler. In the code the reset is a separate effect that runs after the render.

## Findings

| source | as written | input that shows it | evidently intended | confidence | as-written member | corrected member |
|---|---|---|---|---|---|---|
| movie_recommendations-app/pages/api/tmdb.ts:57-61 | `movieId`, `tvId`, `mediaType` and `timeWindow` are pasted into the path unencoded, and `new URL` reads a '?' in them as the start of the query | `fn=movie_details` with movieId `1?fn=x&api_key=k`: upstream receives `fn=x` and `api_key=k`, and the configured key is not attached | path values stay inside the path (as with `encodeURIComponent`), so no reserved key reaches upstream and the configured key is attached when the caller sent none | medium; not executed | TmdbProxy.PathInjection | TmdbProxy.PathTextKept |

`TmdbProxy.TmdbTargetAsWritten` is the translation as written. `TmdbProxy.TmdbTarget` is the corrected one, which `BuildTmdbUrl` and the rest of the model use. `TargetValues` proves the intended property of the corrected translation for every request. `AsWrittenAgrees` proves that the two agree whenever the joined text holds no '?' and no '#'.
