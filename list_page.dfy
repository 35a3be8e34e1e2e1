/**
 * `ListComponent` (src/movies/list/list.component.ts): the catalog page with
 * a category filter, watchlist buttons and its own poster normaliser, which
 * makes URLs absolute but does not route them through the image proxy.
 */
module ListPage {
  import opened Wrappers
  import opened Movies
  import Text
  import Urls
  import Views
  import Catalog
  import Watchlist

  /** Placeholder image address of the page. */
  const FALLBACK: string := "https://placehold.co/400x600?text=No+Image"

  /**
   * The page's `normalizePoster`: FALLBACK for an absent or empty URL,
   * otherwise the trimmed URL made absolute.
   */
  function NormalizePoster(url: Option<string>): (r: string)
    ensures url.None? || url == Some("") ==> r == FALLBACK
    ensures url.Some? && url.value != "" ==> Urls.HasHttpScheme(r)
    ensures url.Some? && url.value != "" && Urls.HasHttpScheme(Text.Trim(url.value)) ==>
              r == Text.Trim(url.value)
  {
    if url.None? || url.value == "" then FALLBACK
    else Urls.Absolutize(Text.Trim(url.value))
  }

  /** `getPoster`: never empty, so its `|| FALLBACK` never applies. */
  function GetPoster(posterUrl: Option<string>): (r: string)
    ensures r != ""
    ensures r == NormalizePoster(posterUrl)
  {
    var n := NormalizePoster(posterUrl);
    if n == "" then FALLBACK else n
  }

  /** An absolute URL without surrounding whitespace is shown exactly as stored. */
  lemma AbsolutePosterShownAsIs(u: string)
    requires Urls.HasHttpScheme(u) && Text.IsTrimmed(u)
    ensures GetPoster(Some(u)) == u
  {
    Movies.AbsoluteUrlKept(u);
    assert u != "";
  }

  /**
   * The catalog's rewriter is this page's normaliser followed by the proxy
   * wrap; they differ only on absent or empty URLs (the catalog keeps
   * those, this page shows FALLBACK).
   */
  lemma CatalogPosterIsProxiedListPoster(url: string, query: ProxyQuery)
    requires url != ""
    ensures Movies.NormalizePoster(Some(url), query) == Some(Proxied(NormalizePoster(Some(url)), query))
  {
  }

  class ListComponent {
    const moviesService: Catalog.MovieService
    const watchlist: Watchlist.WatchlistService
    /** `_selectedCategory`. */
    var selected: string
    /** The latest catalog snapshot. */
    var movies: seq<Movie>
    /** The rendered list. */
    var filteredMovies: seq<Movie>

    /** The rendered list is the snapshot narrowed by the selection. */
    ghost predicate Valid()
      reads this
    {
      filteredMovies == Views.ByCategory(movies, selected)
    }

    /** The constructor subscribes to the catalog, which delivers its current snapshot at once. */
    constructor (moviesService: Catalog.MovieService, watchlist: Watchlist.WatchlistService)
      ensures this.moviesService == moviesService && this.watchlist == watchlist
      ensures selected == Views.ALL && movies == moviesService.movies
      ensures Valid() && filteredMovies == movies
    {
      this.moviesService := moviesService;
      this.watchlist := watchlist;
      selected := Views.ALL;
      movies := [];
      filteredMovies := [];
      new;
      OnMovies(moviesService.movies);
    }

    /** The `selectedCategory` setter: stores the value and filters again at once. */
    method SetSelectedCategory(val: string)
      modifies this`selected, this`filteredMovies
      ensures selected == val && Valid()
    {
      selected := val;
      ApplyFilter();
    }

    /** The catalog subscription callback. */
    method OnMovies(ms: seq<Movie>)
      modifies this`movies, this`filteredMovies
      ensures movies == ms && Valid()
    {
      movies := ms;
      ApplyFilter();
    }

    /** `applyFilter`: a copy of everything for "All", otherwise the movies of that category in order. */
    method ApplyFilter()
      modifies this`filteredMovies
      ensures Valid()
      ensures selected == Views.ALL ==> filteredMovies == movies
      ensures forall i :: 0 <= i < |filteredMovies| ==>
                filteredMovies[i] in movies && (selected == Views.ALL || filteredMovies[i].details.category == selected)
      ensures forall i :: 0 <= i < |movies| && (selected == Views.ALL || movies[i].details.category == selected) ==>
                movies[i] in filteredMovies
    {
      filteredMovies := Views.ByCategory(movies, selected);
    }

    /** `add`: puts the id on the watchlist; the rendered list is re-created with the same contents. */
    method Add(id: string)
      requires watchlist.Valid()
      modifies this`filteredMovies, watchlist
      ensures watchlist.Valid()
      ensures IsIn(id)
      ensures watchlist.Members() == old(watchlist.Members()) + {id}
      ensures old(IsIn(id)) ==> unchanged(watchlist)
      ensures !old(IsIn(id)) ==>
                && watchlist.persists == old(watchlist.persists) + 1
                && watchlist.storage == old(watchlist.storage)[Watchlist.KEY := watchlist.codec.encode(watchlist.items)]
                && watchlist.emitted == old(watchlist.emitted) + [watchlist.Members()]
      ensures filteredMovies == old(filteredMovies)
    {
      watchlist.Add(id);
      filteredMovies := filteredMovies[..];
    }

    /** `toggleWatchlist`: flips the id's membership; the rendered list keeps its contents. */
    method ToggleWatchlist(id: string)
      requires watchlist.Valid()
      modifies this`filteredMovies, watchlist
      ensures watchlist.Valid()
      ensures IsIn(id) <==> !old(IsIn(id))
      ensures watchlist.Members() - {id} == old(watchlist.Members()) - {id}
      ensures watchlist.persists == old(watchlist.persists) + 1
      ensures watchlist.storage == old(watchlist.storage)[Watchlist.KEY := watchlist.codec.encode(watchlist.items)]
      ensures watchlist.emitted == old(watchlist.emitted) + [watchlist.Members()]
      ensures filteredMovies == old(filteredMovies)
    {
      watchlist.Toggle(id);
      filteredMovies := filteredMovies[..];
    }

    /** `isIn`: the store's `has`. */
    function IsIn(id: string): (r: bool)
      reads watchlist
      ensures r <==> id in watchlist.Members()
    {
      watchlist.Has(id)
    }
  }
}
