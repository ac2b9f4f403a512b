/**
 * The state of components/MovieRecommendationsUI.tsx as an object: the
 * fields the component keeps with useState, the handlers that update them,
 * and the effects that keep the catalogue, the favourites and the page
 * counter consistent, each run to completion as one method.
 */
module CatalogState {
  import opened Types
  import opened Catalog
  import Favorites

  /** Every state field at once, so that a method can say what it leaves alone. */
  datatype Snapshot = Snapshot(
    activeFeed: Feed,
    query: string,
    feedMediaType: MediaType,
    minRating: real,
    activeGenres: seq<string>,
    watchlist: seq<string>,
    likes: map<string, bool>,
    favoriteLibrary: map<string, UiMovie>,
    catalog: map<string, UiMovie>,
    movies: seq<UiMovie>,
    genreCache: GenreCache,
    page: int,
    totalPages: int)

  /** The outcome of one genre-list request of Promise.allSettled. */
  datatype Settled = Rejected | Fulfilled(genres: Option<seq<Genre>>)

  class CatalogState {
    var activeFeed: Feed
    var query: string
    var feedMediaType: MediaType
    var minRating: real
    var activeGenres: seq<string>
    var watchlist: seq<string>
    var likes: map<string, bool>
    var favoriteLibrary: map<string, UiMovie>
    var catalog: map<string, UiMovie>
    var movies: seq<UiMovie>
    var genreCache: GenreCache
    var page: int
    var totalPages: int

    function State(): Snapshot
      reads this
    {
      Snapshot(activeFeed, query, feedMediaType, minRating, activeGenres, watchlist, likes,
               favoriteLibrary, catalog, movies, genreCache, page, totalPages)
    }

    /**
     * What every handler keeps: page counters of at least 1, likes that mark
     * exactly the favourites, records stored under their own ids, and toggled
     * lists without repetitions.
     */
    ghost predicate Valid()
      reads this
    {
      page >= 1 && totalPages >= 1
      && likes.Keys == favoriteLibrary.Keys && (forall k :: k in likes ==> likes[k])
      && KeysMatchIds(favoriteLibrary) && KeysMatchIds(catalog)
      && NoDuplicates(watchlist) && NoDuplicates(activeGenres)
    }

    /** The initial values of the useState calls. */
    constructor ()
      ensures Valid()
      ensures State() == Snapshot(Popular, "", Movie, DefaultMinRating, [], [], map[], map[], map[], [],
                                  GenreCache(EmptyGenreState(), EmptyGenreState()), 1, 1)
    {
      activeFeed := Popular;
      query := "";
      feedMediaType := Movie;
      minRating := DefaultMinRating;
      activeGenres := [];
      watchlist := [];
      likes := map[];
      favoriteLibrary := map[];
      catalog := map[];
      movies := [];
      genreCache := GenreCache(EmptyGenreState(), EmptyGenreState());
      page := 1;
      totalPages := 1;
    }

    // -------------------------------------------------------------------------
    // Derived lists

    /** currentList for the present state; `keyOrder` is the order of Object.keys(favoriteLibrary). */
    function CurrentItems(keyOrder: seq<string>): seq<UiMovie>
      requires OrdersKeys(keyOrder, favoriteLibrary)
      reads this
    {
      CurrentList(activeFeed, watchlist, catalog, favoriteLibrary, keyOrder, movies)
    }

    function FilteredItems(keyOrder: seq<string>): seq<UiMovie>
      requires OrdersKeys(keyOrder, favoriteLibrary)
      reads this
    {
      Filter(CurrentItems(keyOrder), minRating, activeGenres)
    }

    function PageItems(keyOrder: seq<string>): seq<UiMovie>
      requires OrdersKeys(keyOrder, favoriteLibrary)
      reads this
    {
      Paginate(FilteredItems(keyOrder), activeFeed, page)
    }

    // -------------------------------------------------------------------------
    // Handlers

    /**
     * handleQueryChange: the query is stored; a non-blank one opens the search
     * feed, a blank one leaves it for popular. A changed query or feed sends
     * the page back to 1 (the reset effect).
     */
    method HandleQueryChange(value: string)
      requires Valid()
      modifies this
      ensures Valid()
      ensures query == value
      ensures !IsBlank(value) ==> activeFeed == Search
      ensures IsBlank(value) && old(activeFeed) == Search ==> activeFeed == Popular
      ensures IsBlank(value) && old(activeFeed) != Search ==> activeFeed == old(activeFeed)
      ensures page == if value != old(query) || activeFeed != old(activeFeed) then 1 else old(page)
      ensures State() == old(State()).(query := value, activeFeed := activeFeed, page := page)
    {
      var previousFeed := activeFeed;
      var previousQuery := query;
      query := value;
      if !IsBlank(value) && activeFeed != Search {
        activeFeed := Search;
      }
      if IsBlank(value) && activeFeed == Search {
        activeFeed := Popular;
      }
      if query != previousQuery || activeFeed != previousFeed {
        page := 1;
      }
    }

    /** A tab click: ignored for the search tab while the query is blank; a new feed resets the page. */
    method SelectFeed(feed: Feed)
      requires Valid()
      modifies this
      ensures Valid()
      ensures feed == Search && IsBlank(old(query)) ==> State() == old(State())
      ensures !(feed == Search && IsBlank(old(query))) ==>
        State() == old(State()).(activeFeed := feed, page := if feed != old(activeFeed) then 1 else old(page))
    {
      if feed == Search && IsBlank(query) {
        return;
      }
      if feed != activeFeed {
        page := 1;
      }
      activeFeed := feed;
    }

    /**
     * handleFeedMediaTypeChange followed by the vocabulary effect: active
     * genres unknown to the new media type's vocabulary are dropped, and the
     * page goes back to 1. Choosing the current type changes nothing.
     */
    method HandleFeedMediaTypeChange(mediaType: MediaType)
      requires Valid()
      modifies this
      ensures Valid()
      ensures mediaType == old(feedMediaType) ==> State() == old(State())
      ensures mediaType != old(feedMediaType) ==>
        State() == old(State()).(feedMediaType := mediaType,
                                 activeGenres := KnownGenres(old(activeGenres), old(genreCache).For(mediaType)),
                                 page := 1)
    {
      if mediaType == feedMediaType {
        return;
      }
      KnownGenresNoDuplicates(activeGenres, genreCache.For(mediaType));
      feedMediaType := mediaType;
      activeGenres := KnownGenres(activeGenres, genreCache.For(mediaType));
      page := 1;
    }

    /** The rating slider: a new threshold resets the page. */
    method SetMinRating(rating: real)
      requires Valid()
      modifies this
      ensures Valid()
      ensures State() == old(State()).(minRating := rating, page := if rating != old(minRating) then 1 else old(page))
    {
      if rating != minRating {
        page := 1;
      }
      minRating := rating;
    }

    /** toggleGenre: toggles the genre and, the list being new, resets the page. */
    method ToggleGenre(genre: string)
      requires Valid()
      modifies this
      ensures Valid()
      ensures State() == old(State()).(activeGenres := Toggle(old(activeGenres), genre), page := 1)
      ensures genre in activeGenres <==> genre !in old(activeGenres)
    {
      ToggleNoDuplicates(activeGenres, genre);
      activeGenres := Toggle(activeGenres, genre);
      page := 1;
    }

    /** toggleWatchlist: toggles the id; nothing else changes. */
    method ToggleWatchlist(id: string)
      requires Valid()
      modifies this
      ensures Valid()
      ensures State() == old(State()).(watchlist := Toggle(old(watchlist), id))
      ensures id in watchlist <==> id !in old(watchlist)
    {
      ToggleNoDuplicates(watchlist, id);
      watchlist := Toggle(watchlist, id);
    }

    /**
     * toggleLike: a favourite is removed from the library and the likes; any
     * other id is added with its catalogue record, else with the loaded
     * page's record, and stays out when neither has it.
     */
    method ToggleLike(id: string)
      requires Valid()
      modifies this
      ensures Valid()
      ensures (favoriteLibrary, likes) == ToggledLike(old(favoriteLibrary), old(likes), old(catalog), old(movies), id)
      ensures State() == old(State()).(favoriteLibrary := favoriteLibrary, likes := likes)
      ensures id in old(favoriteLibrary) ==> id !in favoriteLibrary && id !in likes
      ensures id !in old(favoriteLibrary) && id in old(catalog) ==> favoriteLibrary[id] == old(catalog)[id] && likes[id]
    {
      ToggledLikeKeys(favoriteLibrary, likes, catalog, movies, id);
      var next := ToggledLike(favoriteLibrary, likes, catalog, movies, id);
      favoriteLibrary, likes := next.0, next.1;
    }

    /** handlePageChange: the requested page, clamped into [1, totalPages]. */
    method HandlePageChange(nextPage: int)
      requires Valid()
      modifies this
      ensures Valid()
      ensures State() == old(State()).(page := ClampPage(nextPage, old(totalPages)))
      ensures 1 <= page <= totalPages
    {
      page := ClampPage(nextPage, totalPages);
    }

    // -------------------------------------------------------------------------
    // Effects

    /**
     * The mount effect: a restored library that is not empty replaces the
     * favourites, and exactly its ids are liked; otherwise nothing changes.
     */
    method RestoreFavorites(parsed: Option<Json>, numberText: real -> string)
      requires Valid()
      modifies this
      ensures Valid()
      ensures var restored := Favorites.Restored(parsed, numberText);
        if |restored| > 0 then State() == old(State()).(favoriteLibrary := restored, likes := Favorites.LikesFor(restored))
        else State() == old(State())
    {
      ghost var before := State();
      var library := Favorites.BuildLibrary(parsed, numberText);
      if |library| > 0 {
        assert KeysMatchIds(library);
        var liked := Favorites.LikesFor(library);
        favoriteLibrary, likes := library, liked;
        assert State() == before.(favoriteLibrary := library, likes := liked);
      }
    }

    /** Folding favourites into the catalogue: missing ids are added, present ones kept. */
    method FoldFavoritesIntoCatalog()
      requires Valid()
      modifies this
      ensures Valid()
      ensures State() == old(State()).(catalog := FoldFavorites(old(catalog), old(favoriteLibrary)))
    {
      FoldKeysMatch(catalog, favoriteLibrary);
      if |favoriteLibrary| == 0 {
        FoldFavoritesUnique(catalog, favoriteLibrary, catalog);
        return;
      }
      ghost var before := State();
      catalog := FoldInto(catalog, favoriteLibrary);
      assert State() == before.(catalog := catalog);
    }

    /** Refreshing favourites from the catalogue: each favourite takes the catalogue's record when it has one. */
    method RefreshFavoritesFromCatalog()
      requires Valid()
      modifies this
      ensures Valid()
      ensures State() == old(State()).(favoriteLibrary := RefreshFavorites(old(favoriteLibrary), old(catalog)))
    {
      FoldKeysMatch(catalog, favoriteLibrary);
      favoriteLibrary := RefreshFrom(favoriteLibrary, catalog);
    }

    /**
     * The genre-list responses: each fulfilled one replaces its media type's
     * vocabulary; the vocabulary effect then drops active genres the current
     * media type does not know, and the page goes back to 1.
     */
    method ReceiveGenres(movieResult: Settled, tvResult: Settled)
      requires Valid()
      modifies this
      ensures Valid()
      ensures genreCache.movie == if movieResult.Fulfilled? then GenreStateOf(OrEmpty(movieResult.genres)) else old(genreCache).movie
      ensures genreCache.tv == if tvResult.Fulfilled? then GenreStateOf(OrEmpty(tvResult.genres)) else old(genreCache).tv
      ensures State() == old(State()).(genreCache := genreCache,
                                       activeGenres := KnownGenres(old(activeGenres), genreCache.For(old(feedMediaType))),
                                       page := 1)
    {
      var next := genreCache;
      if movieResult.Fulfilled? {
        var state := ToGenreState(movieResult.genres);
        next := next.(movie := state);
      }
      if tvResult.Fulfilled? {
        var state := ToGenreState(tvResult.genres);
        next := next.(tv := state);
      }
      ghost var before := State();
      var kept := KnownGenres(activeGenres, next.For(feedMediaType));
      KnownGenresNoDuplicates(activeGenres, next.For(feedMediaType));
      genreCache, activeGenres, page := next, kept, 1;
      assert State() == before.(genreCache := next, activeGenres := kept, page := 1);
    }

    /** Setting the page count of a local feed from an item count, and pulling the page back within it. */
    method ClampLocalPages(count: nat)
      requires Valid()
      modifies this
      ensures Valid()
      ensures totalPages == LocalTotalPages(count)
      ensures State() == old(State()).(totalPages := totalPages, page := if old(page) > totalPages then totalPages else old(page))
      ensures 1 <= page <= totalPages || page == old(page) <= totalPages
    {
      var total := LocalTotalPages(count);
      totalPages := total;
      if page > total {
        page := total;
      }
    }

    /**
     * The synchronous start of the list effect. The watchlist and favourites
     * feeds set their page count from the raw number of ids; a blank search
     * empties the page; any other feed needs a provider request (`fetch`).
     */
    method StartLoad() returns (fetch: bool)
      requires Valid()
      modifies this
      ensures Valid()
      ensures fetch <==> !IsLocalFeed(activeFeed) && !(activeFeed == Search && IsBlank(query))
      ensures activeFeed == Watchlist ==> totalPages == LocalTotalPages(|watchlist|)
      ensures activeFeed == Favorites ==> totalPages == LocalTotalPages(|favoriteLibrary|)
      ensures IsLocalFeed(activeFeed) ==>
        State() == old(State()).(totalPages := totalPages, page := if old(page) > totalPages then totalPages else old(page))
      ensures activeFeed == Search && IsBlank(query) ==> State() == old(State()).(movies := [], totalPages := 1)
      ensures fetch ==> State() == old(State())
    {
      if activeFeed == Watchlist {
        ClampLocalPages(|watchlist|);
        fetch := false;
      } else if activeFeed == Favorites {
        ClampLocalPages(|favoriteLibrary|);
        fetch := false;
      } else if activeFeed == Search && IsBlank(query) {
        movies := [];
        totalPages := 1;
        fetch := false;
      } else {
        fetch := true;
      }
    }

    /**
     * A provider list page arrives. Its page count is stored; when the
     * current page lies beyond it the page is pulled back and the records are
     * ignored. Otherwise the mapped records become the loaded page and are
     * merged into the catalogue, a later record of an id replacing earlier ones.
     */
    method ApplyListResponse(json: ListResponse, fallback: MediaType, imageBase: string)
      requires Valid()
      modifies this
      ensures Valid()
      ensures totalPages == ReportedTotal(json)
      ensures old(page) > ReportedTotal(json) ==> State() == old(State()).(totalPages := totalPages, page := totalPages)
      ensures old(page) <= ReportedTotal(json) ==>
        var mapped := MapRecords(ListResults(json), fallback, old(genreCache), imageBase);
        State() == old(State()).(totalPages := totalPages, movies := mapped, catalog := MergePage(old(catalog), mapped))
    {
      ghost var before := State();
      var total := ReportedTotal(json);
      totalPages := total;
      if page > total {
        page := total;
        assert State() == before.(totalPages := total, page := total);
        return;
      }
      var mapped := MapRecords(ListResults(json), fallback, genreCache, imageBase);
      MergePageKeysMatch(catalog, mapped);
      var merged := MergeInto(catalog, mapped);
      movies, catalog := mapped, merged;
      assert State() == before.(totalPages := total, movies := mapped, catalog := merged);
    }

    /**
     * The page-count effect over the filtered local list: the count follows
     * the filtered items, and afterwards a non-empty filtered list never
     * shows an empty page.
     */
    method SyncLocalPages(keyOrder: seq<string>)
      requires Valid() && OrdersKeys(keyOrder, favoriteLibrary)
      modifies this
      ensures Valid()
      ensures favoriteLibrary == old(favoriteLibrary)
      ensures !IsLocalFeed(activeFeed) ==> State() == old(State())
      ensures IsLocalFeed(activeFeed) ==> totalPages == LocalTotalPages(|FilteredItems(keyOrder)|)
      ensures IsLocalFeed(activeFeed) ==>
        State() == old(State()).(totalPages := totalPages, page := if old(page) > totalPages then totalPages else old(page))
      ensures IsLocalFeed(activeFeed) && FilteredItems(keyOrder) != [] && page == old(page) ==> old(page) <= totalPages
      ensures IsLocalFeed(activeFeed) && FilteredItems(keyOrder) != [] && page <= totalPages ==> PageItems(keyOrder) != []
    {
      if IsLocalFeed(activeFeed) {
        ClampLocalPages(|FilteredItems(keyOrder)|);
        if FilteredItems(keyOrder) != [] && page <= totalPages {
          ClampedPageNotEmpty(FilteredItems(keyOrder), activeFeed, page);
        }
      }
    }
  }

  /** The forEach of the fold effect, building `next` from the catalogue. */
  method FoldInto(catalog: map<string, UiMovie>, library: map<string, UiMovie>) returns (next: map<string, UiMovie>)
    ensures next == FoldFavorites(catalog, library)
  {
    next := catalog;
    var todo := library.Keys;
    while todo != {}
      invariant todo <= library.Keys
      invariant FoldedExcept(catalog, library, todo, next)
      decreases todo
    {
      var k :| k in todo;
      FoldStep(catalog, library, todo, next, k);
      if k !in catalog {
        next := next[k := library[k]];
      }
      todo := todo - {k};
    }
    FoldFavoritesUnique(catalog, library, next);
  }

  /** `next` is the fold of every library entry outside `todo`. */
  ghost predicate FoldedExcept(catalog: map<string, UiMovie>, library: map<string, UiMovie>, todo: set<string>,
                               next: map<string, UiMovie>)
  {
    next.Keys == catalog.Keys + (library.Keys - todo) &&
    forall k :: k in next ==> next[k] == if k in catalog then catalog[k] else library[k]
  }

  lemma FoldStep(catalog: map<string, UiMovie>, library: map<string, UiMovie>, todo: set<string>,
                 next: map<string, UiMovie>, k: string)
    requires todo <= library.Keys && k in todo && FoldedExcept(catalog, library, todo, next)
    ensures FoldedExcept(catalog, library, todo - {k}, if k in catalog then next else next[k := library[k]])
  {
  }

  /** The forEach of the refresh effect, building `next` from the library. */
  method RefreshFrom(library: map<string, UiMovie>, catalog: map<string, UiMovie>) returns (next: map<string, UiMovie>)
    ensures next == RefreshFavorites(library, catalog)
  {
    next := library;
    var todo := library.Keys;
    while todo != {}
      invariant todo <= library.Keys
      invariant RefreshedExcept(library, catalog, todo, next)
      decreases todo
    {
      var id :| id in todo;
      RefreshStep(library, catalog, todo, next, id);
      if id in catalog && library[id] != catalog[id] {
        next := next[id := catalog[id]];
      }
      todo := todo - {id};
    }
    RefreshFavoritesUnique(library, catalog, next);
  }

  /** `next` is the library with every entry outside `todo` refreshed from the catalogue. */
  ghost predicate RefreshedExcept(library: map<string, UiMovie>, catalog: map<string, UiMovie>, todo: set<string>,
                                  next: map<string, UiMovie>)
  {
    next.Keys == library.Keys &&
    forall k :: k in next ==> next[k] == if k !in todo && k in catalog then catalog[k] else library[k]
  }

  lemma RefreshStep(library: map<string, UiMovie>, catalog: map<string, UiMovie>, todo: set<string>,
                    next: map<string, UiMovie>, id: string)
    requires todo <= library.Keys && id in todo && RefreshedExcept(library, catalog, todo, next)
    ensures RefreshedExcept(library, catalog, todo - {id},
      if id in catalog && library[id] != catalog[id] then next[id := catalog[id]] else next)
  {
  }

  /** The forEach of the merge, storing each mapped record under its id in turn. */
  method MergeInto(catalog: map<string, UiMovie>, mapped: seq<UiMovie>) returns (next: map<string, UiMovie>)
    ensures next == MergePage(catalog, mapped)
  {
    next := catalog;
    var i := 0;
    while i < |mapped|
      invariant 0 <= i <= |mapped|
      invariant next == MergePage(catalog, mapped[..i])
    {
      assert mapped[..i + 1][..i] == mapped[..i];
      next := next[mapped[i].id := mapped[i]];
      i := i + 1;
    }
    assert mapped[..i] == mapped;
  }

  function OrEmpty(genres: Option<seq<Genre>>): seq<Genre> {
    if genres.Some? then genres.value else []
  }
}
