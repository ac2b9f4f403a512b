/**
 * The derivations of components/MovieRecommendationsUI.tsx that do not touch
 * state: how a provider record becomes a UiMovie, how fetched pages and
 * favourites are merged into the catalogue, which list a feed shows, the
 * rating/genre filter, client-side pagination and the toggle updaters.
 */
module Catalog {
  import opened Types

  const ItemsPerPage: nat := 20
  const FallbackPoster: string := "https://images.unsplash.com/photo-1496440737103-cd596325d314?q=80&w=1200&auto=format&fit=crop"
  const FallbackGenres: seq<string> := [
    "Action", "Adventure", "Animation", "Comedy", "Crime", "Documentary", "Drama",
    "Fantasy", "History", "Horror", "Mystery", "Romance", "Sci-Fi", "Thriller"]
  const DefaultMinRating: real := 7.0

  // ---------------------------------------------------------------------------
  // From a provider record to a UiMovie

  /**
   * formatYear: "-" for an absent or empty date, otherwise the date's first
   * four characters (all of it when shorter).
   */
  function FormatYear(value: Option<string>): (r: string)
    ensures r != "" && |r| <= 4
    ensures !Present(value) ==> r == "-"
    ensures Present(value) ==> r <= value.value && |r| == Min(4, |value.value|)
  {
    if !Present(value) then "-" else value.value[..Min(4, |value.value|)]
  }

  function DigitChar(d: nat): char
    requires d < 10
  {
    "0123456789"[d]
  }

  function NatToDecimal(n: nat): (r: string)
    ensures r != []
    decreases n
  {
    if n < 10 then [DigitChar(n)] else NatToDecimal(n / 10) + [DigitChar(n % 10)]
  }

  /** String(id) for an integral provider id. */
  function IntToDecimal(i: int): string {
    if i < 0 then "-" + NatToDecimal(-i) else NatToDecimal(i)
  }

  /**
   * genre_ids.map((gid) => dict[gid]).filter(Boolean): each id is resolved
   * through the dictionary; ids it does not know, and empty names, are dropped.
   */
  function GenreNames(ids: seq<int>, dict: map<int, string>): (names: seq<string>)
    ensures |names| <= |ids|
    ensures forall n :: n in names ==> n != "" && n in dict.Values
  {
    if ids == [] then []
    else (if ids[0] in dict && dict[ids[0]] != "" then [dict[ids[0]]] else []) + GenreNames(ids[1..], dict)
  }

  /** The resolution keeps the order of the ids: it distributes over concatenation. */
  lemma {:induction false} GenreNamesConcat(a: seq<int>, b: seq<int>, dict: map<int, string>)
    ensures GenreNames(a + b, dict) == GenreNames(a, dict) + GenreNames(b, dict)
  {
    if a == [] {
      assert a + b == b;
    } else {
      assert (a + b)[1..] == a[1..] + b;
      GenreNamesConcat(a[1..], b, dict);
    }
  }

  /** A name is among the resolved genres exactly when some listed id maps to it. */
  lemma {:induction false} GenreNamesMembers(ids: seq<int>, dict: map<int, string>, name: string)
    ensures name in GenreNames(ids, dict) <==>
      name != "" && exists i :: 0 <= i < |ids| && ids[i] in dict && dict[ids[i]] == name
  {
    if ids != [] {
      GenreNamesMembers(ids[1..], dict, name);
      if exists i :: 0 <= i < |ids| && ids[i] in dict && dict[ids[i]] == name {
        var i :| 0 <= i < |ids| && ids[i] in dict && dict[ids[i]] == name;
        if i > 0 {
          assert ids[1..][i - 1] == ids[i];
        }
      }
      if exists i :: 0 <= i < |ids[1..]| && ids[1..][i] in dict && dict[ids[1..][i]] == name {
        var i :| 0 <= i < |ids[1..]| && ids[1..][i] in dict && dict[ids[1..][i]] == name;
        assert ids[i + 1] == ids[1..][i];
      }
    }
  }

  /** Example: {28: Action, 35: Comedy} and [28, 99] give [Action]. */
  lemma GenreNamesExample()
    ensures GenreNames([28, 99], map[28 := "Action", 35 := "Comedy"]) == ["Action"]
  {
    var dict := map[28 := "Action", 35 := "Comedy"];
    assert [28, 99][1..] == [99];
    assert [99][1..] == [];
  }

  /** item.media_type === "tv" || fallbackMediaType === "tv" */
  function ResolvedMediaType(item: TmdbMovie, fallback: MediaType): (m: MediaType)
    ensures m == Tv <==> item.mediaTypeField == Some("tv") || fallback == Tv
  {
    if item.mediaTypeField == Some("tv") || fallback == Tv then Tv else Movie
  }

  /**
   * The results.map callback: one provider record as a UiMovie. The dates
   * and the genre dictionary are those of the resolved media type; the title
   * falls back from title to name to "Untitled"; ratings are taken as given.
   */
  function MapRecord(item: TmdbMovie, fallback: MediaType, cache: GenreCache, imageBase: string): (r: UiMovie)
    ensures r.id == IntToDecimal(item.id)
  {
    var mediaType := ResolvedMediaType(item, fallback);
    var releaseDate := if mediaType == Tv then item.firstAirDate else item.releaseDate;
    var genreDict := cache.For(mediaType).dict;
    UiMovie(
      IntToDecimal(item.id),
      if Present(item.title) then item.title.value else if Present(item.name) then item.name.value else "Untitled",
      FormatYear(releaseDate),
      GenreNames(if item.genreIds.Some? then item.genreIds.value else [], genreDict),
      if item.voteAverage.Some? then item.voteAverage.value else 0.0,
      None,
      if Present(item.posterPath) then imageBase + item.posterPath.value else FallbackPoster,
      if item.overview.Some? then item.overview.value else "",
      None,
      mediaType)
  }

  /**
   * The mapped record, field by field: the title falls back from title to
   * name to "Untitled"; the year and the genre dictionary are those of the
   * resolved media type; a missing poster takes the fallback.
   */
  lemma MapRecordFields(item: TmdbMovie, fallback: MediaType, cache: GenreCache, imageBase: string)
    ensures var r := MapRecord(item, fallback, cache, imageBase);
      r.mediaType == Tv <==> item.mediaTypeField == Some("tv") || fallback == Tv
    ensures var r := MapRecord(item, fallback, cache, imageBase);
      r.title != "" &&
      (Present(item.title) ==> r.title == item.title.value) &&
      (!Present(item.title) && Present(item.name) ==> r.title == item.name.value) &&
      (!Present(item.title) && !Present(item.name) ==> r.title == "Untitled")
    ensures var r := MapRecord(item, fallback, cache, imageBase);
      r.year == FormatYear(if r.mediaType == Tv then item.firstAirDate else item.releaseDate)
    ensures var r := MapRecord(item, fallback, cache, imageBase);
      r.genres == GenreNames(if item.genreIds.Some? then item.genreIds.value else [], cache.For(r.mediaType).dict)
    ensures var r := MapRecord(item, fallback, cache, imageBase);
      (Present(item.posterPath) ==> r.poster == imageBase + item.posterPath.value) &&
      (!Present(item.posterPath) ==> r.poster == FallbackPoster)
    ensures var r := MapRecord(item, fallback, cache, imageBase);
      r.runtime == None && r.trending == None
  {
  }

  /** json.results if it is an array, else json.items if it is an array, else []. */
  function ListResults(json: ListResponse): seq<TmdbMovie> {
    if json.results.Some? then json.results.value
    else if json.items.Some? then json.items.value
    else []
  }

  /** Math.max(1, json.total_pages ?? 1) */
  function ReportedTotal(json: ListResponse): (t: int)
    ensures t >= 1
    ensures json.totalPages.Some? && json.totalPages.value >= 1 ==> t == json.totalPages.value
    ensures !(json.totalPages.Some? && json.totalPages.value >= 1) ==> t == 1
  {
    Max(1, if json.totalPages.Some? then json.totalPages.value else 1)
  }

  /** The mapped page: one UiMovie per provider record, in order. */
  function MapRecords(results: seq<TmdbMovie>, fallback: MediaType, cache: GenreCache, imageBase: string): (r: seq<UiMovie>)
    ensures |r| == |results|
    ensures forall i :: 0 <= i < |results| ==> r[i] == MapRecord(results[i], fallback, cache, imageBase)
  {
    seq(|results|, i requires 0 <= i < |results| => MapRecord(results[i], fallback, cache, imageBase))
  }

  // ---------------------------------------------------------------------------
  // Genre vocabularies

  /**
   * toGenreState, as a fold over the payload: each genre sets dict[id] and
   * nameToId[name] (a later entry overwrites) and appends its name.
   */
  function GenreStateOf(genres: seq<Genre>): GenreState {
    if genres == [] then EmptyGenreState()
    else
      var s := GenreStateOf(genres[..|genres| - 1]);
      var g := genres[|genres| - 1];
      GenreState(s.dict[g.id := g.name], s.nameToId[g.name := g.id], s.names + [g.name])
  }

  /** The names are those of the payload, in payload order. */
  lemma {:induction false} GenreStateNames(genres: seq<Genre>)
    ensures |GenreStateOf(genres).names| == |genres|
    ensures forall i :: 0 <= i < |genres| ==> GenreStateOf(genres).names[i] == genres[i].name
  {
    if genres != [] {
      GenreStateNames(genres[..|genres| - 1]);
    }
  }

  /** The dictionaries hold exactly the payload's ids and the payload's names. */
  lemma {:induction false} GenreStateKeys(genres: seq<Genre>)
    ensures forall id :: id in GenreStateOf(genres).dict <==> exists i :: 0 <= i < |genres| && genres[i].id == id
    ensures forall n :: n in GenreStateOf(genres).nameToId <==> exists i :: 0 <= i < |genres| && genres[i].name == n
  {
    if genres != [] {
      var init := genres[..|genres| - 1];
      GenreStateKeys(init);
      assert forall i :: 0 <= i < |init| ==> init[i] == genres[i];
    }
  }

  /** Each dictionary entry is decided by the last genre carrying that id (or that name). */
  lemma {:induction false} GenreStateLastWins(genres: seq<Genre>, i: int)
    requires 0 <= i < |genres|
    ensures (forall j :: i < j < |genres| ==> genres[j].id != genres[i].id) ==>
      genres[i].id in GenreStateOf(genres).dict && GenreStateOf(genres).dict[genres[i].id] == genres[i].name
    ensures (forall j :: i < j < |genres| ==> genres[j].name != genres[i].name) ==>
      genres[i].name in GenreStateOf(genres).nameToId && GenreStateOf(genres).nameToId[genres[i].name] == genres[i].id
  {
    var init := genres[..|genres| - 1];
    if i < |genres| - 1 {
      GenreStateLastWins(init, i);
      assert forall j :: i < j < |init| ==> init[j] == genres[j];
    }
  }

  /** An active genre survives a vocabulary change when the vocabulary maps it to a truthy id. */
  function KnownGenres(active: seq<string>, state: GenreState): (r: seq<string>)
    ensures |r| <= |active|
    ensures forall g :: g in r <==> g in active && g in state.nameToId && state.nameToId[g] != 0
  {
    if active == [] then []
    else (if active[0] in state.nameToId && state.nameToId[active[0]] != 0 then [active[0]] else [])
         + KnownGenres(active[1..], state)
  }

  lemma {:induction false} KnownGenresNoDuplicates(active: seq<string>, state: GenreState)
    requires NoDuplicates(active)
    ensures NoDuplicates(KnownGenres(active, state))
  {
    if active != [] {
      assert NoDuplicates(active[1..]) by {
        assert forall i :: 0 <= i < |active[1..]| ==> active[1..][i] == active[i + 1];
      }
      KnownGenresNoDuplicates(active[1..], state);
      assert active[0] !in active[1..];
    }
  }

  // ---------------------------------------------------------------------------
  // Catalogue merges

  /** Every entry is stored under its own id. */
  ghost predicate KeysMatchIds(m: map<string, UiMovie>) {
    forall k :: k in m ==> m[k].id == k
  }

  /** The last entry of a page with identifier `k`, if any. */
  function LastWithId(mapped: seq<UiMovie>, k: string): (r: Option<UiMovie>)
    ensures r.Some? ==> r.value in mapped && r.value.id == k
    ensures r.None? <==> forall i :: 0 <= i < |mapped| ==> mapped[i].id != k
  {
    if mapped == [] then None
    else if mapped[|mapped| - 1].id == k then Some(mapped[|mapped| - 1])
    else
      var r := LastWithId(mapped[..|mapped| - 1], k);
      assert forall i :: 0 <= i < |mapped| - 1 ==> mapped[..|mapped| - 1][i] == mapped[i];
      r
  }

  /** mapped.forEach((entry) => { next[entry.id] = entry; }) */
  function MergePage(catalog: map<string, UiMovie>, mapped: seq<UiMovie>): (merged: map<string, UiMovie>)
    ensures merged.Keys == catalog.Keys + set m | m in mapped :: m.id
  {
    if mapped == [] then catalog
    else MergePage(catalog, mapped[..|mapped| - 1])[mapped[|mapped| - 1].id := mapped[|mapped| - 1]]
  }

  /**
   * After a page is merged, every id of the page maps to the page's last
   * entry with that id; every other id keeps its catalogue entry.
   */
  lemma {:induction false} MergePageAt(catalog: map<string, UiMovie>, mapped: seq<UiMovie>, k: string)
    ensures k in MergePage(catalog, mapped) <==> k in catalog || LastWithId(mapped, k).Some?
    ensures LastWithId(mapped, k).Some? ==> MergePage(catalog, mapped)[k] == LastWithId(mapped, k).value
    ensures LastWithId(mapped, k).None? && k in catalog ==> MergePage(catalog, mapped)[k] == catalog[k]
  {
    if mapped != [] {
      MergePageAt(catalog, mapped[..|mapped| - 1], k);
    }
  }

  lemma {:induction false} MergePageKeysMatch(catalog: map<string, UiMovie>, mapped: seq<UiMovie>)
    requires KeysMatchIds(catalog)
    ensures KeysMatchIds(MergePage(catalog, mapped))
  {
    if mapped != [] {
      MergePageKeysMatch(catalog, mapped[..|mapped| - 1]);
    }
  }

  /**
   * Folding favourites into the catalogue: an id that is missing is added with
   * the favourite's snapshot; an id already present is never overwritten.
   */
  function FoldFavorites(catalog: map<string, UiMovie>, library: map<string, UiMovie>): (r: map<string, UiMovie>)
    ensures r.Keys == catalog.Keys + library.Keys
    ensures forall k :: k in catalog ==> r[k] == catalog[k]
    ensures forall k :: k in library && k !in catalog ==> r[k] == library[k]
  {
    map k | k in catalog.Keys + library.Keys :: if k in catalog then catalog[k] else library[k]
  }

  /**
   * Refreshing favourites from the catalogue: the key set of the library is
   * unchanged; an id the catalogue knows takes the catalogue's entry.
   */
  function RefreshFavorites(library: map<string, UiMovie>, catalog: map<string, UiMovie>): (r: map<string, UiMovie>)
    ensures r.Keys == library.Keys
    ensures forall k :: k in library && k in catalog ==> r[k] == catalog[k]
    ensures forall k :: k in library && k !in catalog ==> r[k] == library[k]
  {
    map k | k in library :: if k in catalog then catalog[k] else library[k]
  }

  /** Every favourite is in the catalogue with the very same record. */
  ghost predicate Synced(library: map<string, UiMovie>, catalog: map<string, UiMovie>) {
    forall k :: k in library ==> k in catalog && catalog[k] == library[k]
  }

  /** Folding favourites in and then refreshing them leaves the two in step. */
  lemma FoldThenRefreshSyncs(catalog: map<string, UiMovie>, library: map<string, UiMovie>)
    ensures var c := FoldFavorites(catalog, library);
      Synced(RefreshFavorites(library, c), c) && RefreshFavorites(library, c).Keys == library.Keys
  {
  }

  /** The fold is the only map with its keys that keeps the catalogue's records and adds the library's. */
  lemma FoldFavoritesUnique(catalog: map<string, UiMovie>, library: map<string, UiMovie>, m: map<string, UiMovie>)
    requires m.Keys == catalog.Keys + library.Keys
    requires forall k :: k in m ==> m[k] == if k in catalog then catalog[k] else library[k]
    ensures m == FoldFavorites(catalog, library)
  {
    var r := FoldFavorites(catalog, library);
    assert forall k :: k in m ==> m[k] == r[k];
  }

  /** The refresh is the only map with the library's keys that takes the catalogue's record where there is one. */
  lemma RefreshFavoritesUnique(library: map<string, UiMovie>, catalog: map<string, UiMovie>, m: map<string, UiMovie>)
    requires m.Keys == library.Keys
    requires forall k :: k in m ==> m[k] == if k in catalog then catalog[k] else library[k]
    ensures m == RefreshFavorites(library, catalog)
  {
    var r := RefreshFavorites(library, catalog);
    assert forall k :: k in m ==> m[k] == r[k];
  }

  lemma FoldKeysMatch(catalog: map<string, UiMovie>, library: map<string, UiMovie>)
    requires KeysMatchIds(catalog) && KeysMatchIds(library)
    ensures KeysMatchIds(FoldFavorites(catalog, library)) && KeysMatchIds(RefreshFavorites(library, catalog))
  {
  }

  /**
   * The catalogue is keyed by id alone: a tv record whose numeric id equals a
   * movie's replaces the movie's entry.
   */
  lemma SameIdAcrossMediaTypes(catalog: map<string, UiMovie>, movie: UiMovie, show: UiMovie)
    requires movie.mediaType == Movie && show.mediaType == Tv && movie.id == show.id
    ensures MergePage(MergePage(catalog, [movie]), [show])[movie.id] == show
  {
    assert [show][..0] == [];
    assert [movie][..0] == [];
  }

  // ---------------------------------------------------------------------------
  // The displayed list

  /** watchlist.map((id) => catalog[id]).filter(Boolean) */
  function WatchlistItems(watchlist: seq<string>, catalog: map<string, UiMovie>): (r: seq<UiMovie>)
    ensures |r| <= |watchlist|
    ensures forall m :: m in r ==> m in catalog.Values
  {
    if watchlist == [] then []
    else (if watchlist[0] in catalog then [catalog[watchlist[0]]] else []) + WatchlistItems(watchlist[1..], catalog)
  }

  /**
   * The watchlist feed keeps watchlist order and drops ids the catalogue does
   * not know: it distributes over concatenation, and a watchlist whose ids
   * are all known is resolved element by element.
   */
  lemma {:induction false} WatchlistItemsConcat(a: seq<string>, b: seq<string>, catalog: map<string, UiMovie>)
    ensures WatchlistItems(a + b, catalog) == WatchlistItems(a, catalog) + WatchlistItems(b, catalog)
  {
    if a == [] {
      assert a + b == b;
    } else {
      assert (a + b)[1..] == a[1..] + b;
      WatchlistItemsConcat(a[1..], b, catalog);
    }
  }

  lemma {:induction false} WatchlistItemsKnown(watchlist: seq<string>, catalog: map<string, UiMovie>)
    requires forall i :: 0 <= i < |watchlist| ==> watchlist[i] in catalog
    ensures |WatchlistItems(watchlist, catalog)| == |watchlist|
    ensures forall i :: 0 <= i < |watchlist| ==> WatchlistItems(watchlist, catalog)[i] == catalog[watchlist[i]]
  {
    if watchlist != [] {
      WatchlistItemsKnown(watchlist[1..], catalog);
      assert forall i :: 1 <= i < |watchlist| ==> watchlist[1..][i - 1] == watchlist[i];
    }
  }

  /** `keyOrder` is an order of Object.keys(library): every key exactly once. */
  ghost predicate OrdersKeys(keyOrder: seq<string>, library: map<string, UiMovie>) {
    NoDuplicates(keyOrder) && (set k | k in keyOrder) == library.Keys
  }

  /** ids.map((id) => catalog[id] || library[id]).filter(Boolean) */
  function ResolveEach(ids: seq<string>, catalog: map<string, UiMovie>, library: map<string, UiMovie>): (r: seq<UiMovie>)
    ensures |r| <= |ids|
  {
    if ids == [] then []
    else
      var id := ids[0];
      (if id in catalog then [catalog[id]] else if id in library then [library[id]] else [])
      + ResolveEach(ids[1..], catalog, library)
  }

  /**
   * Over ids that are all library keys the mapping keeps one entry per id,
   * the catalogue's record when there is one and the stored snapshot otherwise.
   */
  lemma {:induction false} FavoritesItemsResolve(ids: seq<string>, catalog: map<string, UiMovie>, library: map<string, UiMovie>)
    requires forall i :: 0 <= i < |ids| ==> ids[i] in library
    ensures |ResolveEach(ids, catalog, library)| == |ids|
    ensures forall i :: 0 <= i < |ids| ==>
      ResolveEach(ids, catalog, library)[i] ==
        if ids[i] in catalog then catalog[ids[i]] else library[ids[i]]
  {
    if ids != [] {
      FavoritesItemsResolve(ids[1..], catalog, library);
      assert forall i :: 1 <= i < |ids| ==> ids[1..][i - 1] == ids[i];
    }
  }

  /** A sequence without repetitions has as many distinct elements as positions. */
  lemma {:induction false} DistinctCount(xs: seq<string>)
    requires NoDuplicates(xs)
    ensures |set k | k in xs| == |xs|
  {
    if xs != [] {
      assert NoDuplicates(xs[1..]) by {
        assert forall i :: 0 <= i < |xs[1..]| ==> xs[1..][i] == xs[i + 1];
      }
      DistinctCount(xs[1..]);
      assert (set k | k in xs) == {xs[0]} + (set k | k in xs[1..]);
      assert xs[0] !in xs[1..];
    }
  }

  /**
   * The favourites feed, Object.keys(favoriteLibrary) resolved through the
   * catalogue: one entry per stored favourite, in key order, the catalogue's
   * record when there is one and the stored snapshot otherwise.
   */
  function FavoritesItems(keyOrder: seq<string>, catalog: map<string, UiMovie>, library: map<string, UiMovie>): (r: seq<UiMovie>)
    requires OrdersKeys(keyOrder, library)
    ensures |r| == |keyOrder| == |library|
    ensures forall i :: 0 <= i < |keyOrder| ==>
      r[i] == if keyOrder[i] in catalog then catalog[keyOrder[i]] else library[keyOrder[i]]
  {
    FavoritesItemsResolve(keyOrder, catalog, library);
    DistinctCount(keyOrder);
    ResolveEach(keyOrder, catalog, library)
  }

  predicate IsLocalFeed(feed: Feed) {
    feed == Watchlist || feed == Favorites
  }

  /** currentList: the resolved watchlist, the resolved favourites, or the fetched page. */
  function CurrentList(feed: Feed, watchlist: seq<string>, catalog: map<string, UiMovie>,
                       library: map<string, UiMovie>, keyOrder: seq<string>, movies: seq<UiMovie>): (r: seq<UiMovie>)
    requires OrdersKeys(keyOrder, library)
    ensures feed == Watchlist ==> |r| <= |watchlist|
    ensures feed == Favorites ==> |r| == |library|
    ensures !IsLocalFeed(feed) ==> r == movies
  {
    if feed == Watchlist then WatchlistItems(watchlist, catalog)
    else if feed == Favorites then FavoritesItems(keyOrder, catalog, library)
    else movies
  }

  /**
   * The filter predicate: rating at least the threshold, and every active
   * genre among the movie's genres, whatever the order or repetition of the
   * active genres.
   */
  predicate Matches(m: UiMovie, minRating: real, activeGenres: seq<string>) {
    m.rating >= minRating && (|activeGenres| == 0 || forall g :: g in activeGenres ==> g in m.genres)
  }

  /** The genre test is set inclusion: order and repetition of the active genres do not matter. */
  lemma MatchesAsInclusion(m: UiMovie, minRating: real, activeGenres: seq<string>)
    ensures Matches(m, minRating, activeGenres) <==>
      m.rating >= minRating && (set g | g in activeGenres) <= (set g | g in m.genres)
  {
    var wanted := set g | g in activeGenres;
    var have := set g | g in m.genres;
    if wanted <= have {
      forall g | g in activeGenres
        ensures g in m.genres
      {
        assert g in wanted;
        assert g in have;
      }
    }
  }

  /** filtered: the order-preserving subsequence of the list that matches. */
  function Filter(list: seq<UiMovie>, minRating: real, activeGenres: seq<string>): (r: seq<UiMovie>)
    ensures |r| <= |list|
    ensures forall m :: m in r ==> Matches(m, minRating, activeGenres)
  {
    if list == [] then []
    else (if Matches(list[0], minRating, activeGenres) then [list[0]] else [])
         + Filter(list[1..], minRating, activeGenres)
  }

  /** The filter keeps exactly the matching items... */
  lemma {:induction false} FilterMembers(list: seq<UiMovie>, minRating: real, activeGenres: seq<string>, m: UiMovie)
    ensures m in Filter(list, minRating, activeGenres) <==> m in list && Matches(m, minRating, activeGenres)
  {
    if list != [] {
      FilterMembers(list[1..], minRating, activeGenres, m);
      assert m in list <==> m == list[0] || m in list[1..];
    }
  }

  /** ...in their original order: it distributes over concatenation. */
  lemma {:induction false} FilterConcat(a: seq<UiMovie>, b: seq<UiMovie>, minRating: real, activeGenres: seq<string>)
    ensures Filter(a + b, minRating, activeGenres) == Filter(a, minRating, activeGenres) + Filter(b, minRating, activeGenres)
  {
    if a == [] {
      assert a + b == b;
    } else {
      assert (a + b)[1..] == a[1..] + b;
      FilterConcat(a[1..], b, minRating, activeGenres);
    }
  }

  /** The start-ends-slice of Array.prototype.slice for whole-number arguments. */
  function JsSlice<T>(s: seq<T>, start: int, end: int): seq<T> {
    var from := if start < 0 then Max(|s| + start, 0) else Min(start, |s|);
    var to := if end < 0 then Max(|s| + end, 0) else Min(end, |s|);
    if from < to then s[from..to] else []
  }

  /** paginated: a local feed shows the page's window of 20; other feeds show the filtered page whole. */
  function Paginate(filtered: seq<UiMovie>, feed: Feed, page: int): (r: seq<UiMovie>)
    ensures IsLocalFeed(feed) ==> |r| <= ItemsPerPage && forall m :: m in r ==> m in filtered
    ensures !IsLocalFeed(feed) ==> r == filtered
  {
    if IsLocalFeed(feed) then
      var start := (page - 1) * ItemsPerPage;
      JsSlice(filtered, start, start + ItemsPerPage)
    else filtered
  }

  /** A local page p >= 1 is filtered[(p-1)*20 .. p*20), cut at the end; never more than 20. */
  lemma PaginateWindow(filtered: seq<UiMovie>, feed: Feed, page: int)
    requires IsLocalFeed(feed) && page >= 1
    ensures var lo := Min((page - 1) * ItemsPerPage, |filtered|);
      var hi := Min(page * ItemsPerPage, |filtered|);
      Paginate(filtered, feed, page) == filtered[lo..hi]
    ensures |Paginate(filtered, feed, page)| <= ItemsPerPage
  {
  }

  /** Other feeds are shown as filtered, without slicing. */
  lemma PaginateRemote(filtered: seq<UiMovie>, feed: Feed, page: int)
    requires !IsLocalFeed(feed)
    ensures Paginate(filtered, feed, page) == filtered
  {
  }

  /** Math.max(1, Math.ceil(n / ITEMS_PER_PAGE)) */
  function LocalTotalPages(n: nat): (t: int)
    ensures t >= 1
    ensures n <= t * ItemsPerPage
    ensures t == 1 || (t - 1) * ItemsPerPage < n
  {
    if n == 0 then 1 else (n + ItemsPerPage - 1) / ItemsPerPage
  }

  /**
   * Every item of a local feed is on exactly the page its position says, and
   * that page is within the page count.
   */
  lemma ItemPage(filtered: seq<UiMovie>, feed: Feed, i: int)
    requires IsLocalFeed(feed) && 0 <= i < |filtered|
    ensures 1 <= i / ItemsPerPage + 1 <= LocalTotalPages(|filtered|)
    ensures |Paginate(filtered, feed, i / ItemsPerPage + 1)| > i % ItemsPerPage
    ensures Paginate(filtered, feed, i / ItemsPerPage + 1)[i % ItemsPerPage] == filtered[i]
  {
    var p := i / ItemsPerPage + 1;
    var t := LocalTotalPages(|filtered|);
    assert (p - 1) * ItemsPerPage + i % ItemsPerPage == i;
    PaginateWindow(filtered, feed, p);
  }

  /** A page within [1, totalPages] of a non-empty local feed is never empty. */
  lemma ClampedPageNotEmpty(filtered: seq<UiMovie>, feed: Feed, page: int)
    requires IsLocalFeed(feed) && filtered != []
    requires 1 <= page <= LocalTotalPages(|filtered|)
    ensures Paginate(filtered, feed, page) != []
  {
    PaginateWindow(filtered, feed, page);
    var t := LocalTotalPages(|filtered|);
    if page < t {
      assert (page - 1) * ItemsPerPage < (t - 1) * ItemsPerPage;
    }
  }

  /** handlePageChange: Math.max(1, Math.min(nextPage, totalPages)). */
  function ClampPage(nextPage: int, totalPages: int): (p: int)
    requires totalPages >= 1
    ensures 1 <= p <= totalPages
    ensures 1 <= nextPage <= totalPages ==> p == nextPage
    ensures nextPage > totalPages ==> p == totalPages
    ensures nextPage < 1 ==> p == 1
  {
    Max(1, Min(nextPage, totalPages))
  }

  // ---------------------------------------------------------------------------
  // Toggles

  ghost predicate NoDuplicates<T>(xs: seq<T>) {
    forall i, j :: 0 <= i < j < |xs| ==> xs[i] != xs[j]
  }

  /** prev.filter((item) => item !== x) */
  function RemoveAll(xs: seq<string>, x: string): (r: seq<string>)
    ensures |r| <= |xs|
    ensures forall y :: y in r <==> y in xs && y != x
  {
    if xs == [] then []
    else (if xs[0] == x then [] else [xs[0]]) + RemoveAll(xs[1..], x)
  }

  /**
   * The updater of toggleWatchlist and toggleGenre: an id that is present is
   * removed (every occurrence), an absent one is appended at the end.
   */
  function Toggle(xs: seq<string>, x: string): (r: seq<string>)
    ensures x in r <==> x !in xs
    ensures forall y :: y != x ==> (y in r <==> y in xs)
    ensures x !in xs ==> r == xs + [x]
    ensures x in xs ==> r == RemoveAll(xs, x)
  {
    if x in xs then RemoveAll(xs, x) else xs + [x]
  }

  lemma {:induction false} RemoveAllNoDuplicates(xs: seq<string>, x: string)
    requires NoDuplicates(xs)
    ensures NoDuplicates(RemoveAll(xs, x))
  {
    if xs != [] {
      assert NoDuplicates(xs[1..]);
      RemoveAllNoDuplicates(xs[1..], x);
      assert xs[0] !in xs[1..];
    }
  }

  lemma {:induction false} RemoveAllAbsent(xs: seq<string>, x: string)
    requires x !in xs
    ensures RemoveAll(xs, x) == xs
  {
    if xs != [] {
      RemoveAllAbsent(xs[1..], x);
    }
  }

  lemma {:induction false} RemoveAllConcat(a: seq<string>, b: seq<string>, x: string)
    ensures RemoveAll(a + b, x) == RemoveAll(a, x) + RemoveAll(b, x)
  {
    if a == [] {
      assert a + b == b;
    } else {
      assert (a + b)[1..] == a[1..] + b;
      RemoveAllConcat(a[1..], b, x);
    }
  }

  /** Toggling keeps a list free of duplicates. */
  lemma ToggleNoDuplicates(xs: seq<string>, x: string)
    requires NoDuplicates(xs)
    ensures NoDuplicates(Toggle(xs, x))
  {
    if x in xs {
      RemoveAllNoDuplicates(xs, x);
    }
  }

  /**
   * Toggling twice restores an absent id's list exactly; a present id comes
   * back at the end of the list.
   */
  lemma ToggleTwice(xs: seq<string>, x: string)
    ensures x !in xs ==> Toggle(Toggle(xs, x), x) == xs
    ensures x in xs ==> Toggle(Toggle(xs, x), x) == RemoveAll(xs, x) + [x]
  {
    if x !in xs {
      RemoveAllConcat(xs, [x], x);
      RemoveAllAbsent(xs, x);
      assert RemoveAll([x], x) == [] by {
        assert [x][1..] == [];
      }
    }
  }

  /** movies.find((item) => item.id === id) */
  function FindById(movies: seq<UiMovie>, id: string): (r: Option<UiMovie>)
    ensures r.Some? ==> r.value in movies && r.value.id == id
    ensures r.None? <==> forall i :: 0 <= i < |movies| ==> movies[i].id != id
    ensures r.Some? ==> exists i :: 0 <= i < |movies| && movies[i] == r.value &&
                          forall j :: 0 <= j < i ==> movies[j].id != id
  {
    if movies == [] then None
    else if movies[0].id == id then Some(movies[0])
    else
      var r := FindById(movies[1..], id);
      assert forall i :: 1 <= i < |movies| ==> movies[1..][i - 1] == movies[i];
      r
  }

  /**
   * The updater of toggleLike, on the library and the likes together: a
   * favourite is removed from both; otherwise the snapshot comes from the
   * catalogue, else from the loaded page, and nothing changes without one.
   */
  function ToggledLike(library: map<string, UiMovie>, likes: map<string, bool>, catalog: map<string, UiMovie>,
                       movies: seq<UiMovie>, id: string): (r: (map<string, UiMovie>, map<string, bool>))
    ensures id in library ==> r == (library - {id}, likes - {id})
    ensures id !in library && id in catalog ==> r == (library[id := catalog[id]], likes[id := true])
    ensures id !in library && id !in catalog ==>
      match FindById(movies, id)
      case None => r == (library, likes)
      case Some(m) => r == (library[id := m], likes[id := true])
  {
    if id in library then (library - {id}, likes - {id})
    else
      var movie := if id in catalog then Some(catalog[id]) else FindById(movies, id);
      match movie
      case None => (library, likes)
      case Some(m) => (library[id := m], likes[id := true])
  }

  /** The likes always have the library's key set. */
  lemma ToggledLikeKeys(library: map<string, UiMovie>, likes: map<string, bool>, catalog: map<string, UiMovie>,
                        movies: seq<UiMovie>, id: string)
    requires likes.Keys == library.Keys
    ensures ToggledLike(library, likes, catalog, movies, id).1.Keys == ToggledLike(library, likes, catalog, movies, id).0.Keys
  {
  }

  /**
   * Liking twice is the identity when the id can be liked at all and the
   * favourites are in step with the catalogue (as after the two effects).
   */
  lemma ToggledLikeTwice(library: map<string, UiMovie>, likes: map<string, bool>, catalog: map<string, UiMovie>,
                         movies: seq<UiMovie>, id: string)
    requires Synced(library, catalog)
    requires likes.Keys == library.Keys && forall k :: k in likes ==> likes[k]
    requires id in library || id in catalog || FindById(movies, id).Some?
    ensures var once := ToggledLike(library, likes, catalog, movies, id);
      ToggledLike(once.0, once.1, catalog, movies, id) == (library, likes)
  {
    var once := ToggledLike(library, likes, catalog, movies, id);
    if id in library {
      assert once == (library - {id}, likes - {id});
      assert ToggledLike(once.0, once.1, catalog, movies, id) == (once.0[id := catalog[id]], once.1[id := true]);
      RemoveRestore(library, id, catalog[id]);
      RemoveRestore(likes, id, true);
    } else {
      var m := if id in catalog then catalog[id] else FindById(movies, id).value;
      assert once == (library[id := m], likes[id := true]);
      assert ToggledLike(once.0, once.1, catalog, movies, id) == (once.0 - {id}, once.1 - {id});
      AddRemove(library, id, m);
      AddRemove(likes, id, true);
    }
  }

  lemma RemoveRestore<V>(m: map<string, V>, k: string, v: V)
    requires k in m && m[k] == v
    ensures (m - {k})[k := v] == m
  {
  }

  lemma AddRemove<V>(m: map<string, V>, k: string, v: V)
    requires k !in m
    ensures m[k := v] - {k} == m
  {
  }

  // ---------------------------------------------------------------------------
  // Query text and the selected title

  /** The characters String.prototype.trim removes: WhiteSpace and LineTerminator. */
  predicate IsJsWhitespace(c: char) {
    c == '\t' || c == '\n' || c == '\U{000B}' || c == '\U{000C}' || c == '\r' || c == ' '
    || c == '\U{00A0}' || c == '\U{1680}' || ('\U{2000}' <= c <= '\U{200A}') || c == '\U{2028}' || c == '\U{2029}'
    || c == '\U{202F}' || c == '\U{205F}' || c == '\U{3000}' || c == '\U{FEFF}'
  }

  /** !value.trim() */
  predicate IsBlank(s: string) {
    forall i :: 0 <= i < |s| ==> IsJsWhitespace(s[i])
  }

  /** selectedMovie: catalog[selected.id] || favoriteLibrary[selected.id] || null */
  function SelectedMovie(selected: Option<SelectedItem>, catalog: map<string, UiMovie>,
                         library: map<string, UiMovie>): (r: Option<UiMovie>)
    ensures selected.None? ==> r.None?
    ensures selected.Some? && selected.value.id in catalog ==> r == Some(catalog[selected.value.id])
    ensures selected.Some? && selected.value.id !in catalog ==>
      r == if selected.value.id in library then Some(library[selected.value.id]) else None
  {
    match selected
    case None => None
    case Some(s) =>
      if s.id in catalog then Some(catalog[s.id])
      else if s.id in library then Some(library[s.id])
      else None
  }

  /** toGenreState(payload): the fold, built in place as the forEach does. */
  method ToGenreState(payload: Option<seq<Genre>>) returns (state: GenreState)
    ensures state == GenreStateOf(if payload.Some? then payload.value else [])
  {
    var genres := if payload.Some? then payload.value else [];
    var dict: map<int, string> := map[];
    var nameToId: map<string, int> := map[];
    var names: seq<string> := [];
    var i := 0;
    while i < |genres|
      invariant 0 <= i <= |genres|
      invariant GenreState(dict, nameToId, names) == GenreStateOf(genres[..i])
    {
      assert genres[..i + 1][..i] == genres[..i];
      dict := dict[genres[i].id := genres[i].name];
      nameToId := nameToId[genres[i].name := genres[i].id];
      names := names + [genres[i].name];
      i := i + 1;
    }
    assert genres[..i] == genres;
    if |names| > 0 {
      state := GenreState(dict, nameToId, names);
    } else {
      state := EmptyGenreState();
    }
  }
}
