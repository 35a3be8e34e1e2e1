/**
 * `WatchlistComponent` (src/app/watchlist/watchlist.component.ts): the page
 * listing the watchlisted movies. Whenever the catalog or the watchlist
 * emits, it recomputes the catalog records whose id is watchlisted, then
 * narrows them by the selected category.
 */
module WatchlistPage {
  import opened Movies
  import Seqs
  import Views
  import Catalog
  import Watchlist

  /** The catalog records whose id is in the watchlist, in catalog order. */
  function InWatchlist(all: seq<Movie>, ids: set<string>): (r: seq<Movie>)
    ensures forall i :: 0 <= i < |r| ==> r[i] in all && r[i].id in ids
    ensures forall i :: 0 <= i < |all| && all[i].id in ids ==> all[i] in r
  {
    Seqs.Filter(all, (m: Movie) => m.id in ids)
  }

  /** Whether the page shows `m` for the watchlist `ids` and the selection `sel`. */
  predicate Shown(m: Movie, ids: set<string>, sel: string) {
    m.id in ids && (sel == Views.ALL || m.details.category == sel)
  }

  /** What the page renders: a function of the catalog, the watchlist and the selection only. */
  function WatchlistView(all: seq<Movie>, ids: set<string>, sel: string): (r: seq<Movie>)
    ensures forall i :: 0 <= i < |r| ==> r[i] in all && Shown(r[i], ids, sel)
    ensures forall i :: 0 <= i < |all| && Shown(all[i], ids, sel) ==> all[i] in r
    ensures sel == Views.ALL ==> r == InWatchlist(all, ids)
  {
    Views.ByCategory(InWatchlist(all, ids), sel)
  }

  /**
   * The page is the catalog filtered by `Shown` in one pass: it keeps every
   * shown record as often as the catalog holds it, nothing else, and in
   * catalog order.
   */
  lemma WatchlistViewExact(all: seq<Movie>, ids: set<string>, sel: string, m: Movie)
    ensures WatchlistView(all, ids, sel) == Seqs.Filter(all, (x: Movie) => Shown(x, ids, sel))
    ensures multiset(WatchlistView(all, ids, sel))[m] == if Shown(m, ids, sel) then multiset(all)[m] else 0
    ensures Seqs.IsSubsequence(WatchlistView(all, ids, sel), all)
  {
    var watched := (x: Movie) => x.id in ids;
    var shown := (x: Movie) => Shown(x, ids, sel);
    if sel == Views.ALL {
      Seqs.FilterFilter(all, watched, (x: Movie) => true, shown);
      Seqs.FilterAllPass(InWatchlist(all, ids), (x: Movie) => true);
    } else {
      Seqs.FilterFilter(all, watched, (x: Movie) => x.details.category == sel, shown);
    }
    Seqs.FilterCount(all, shown, m);
    Seqs.FilterIsSubsequence(all, shown);
  }

  /**
   * A catalog of an "Action" record with id "1" and a "Drama" record with
   * id "2", and a watchlist holding "1": "All" shows the first record only,
   * "Drama" shows nothing.
   */
  lemma TwoRecordCatalog(d: Details)
    ensures var action := Movie("1", d.(category := "Action"), 0, false);
            var drama := Movie("2", d.(category := "Drama"), 0, false);
            && WatchlistView([action, drama], {"1"}, Views.ALL) == [action]
            && WatchlistView([action, drama], {"1"}, "Drama") == []
  {
    var action := Movie("1", d.(category := "Action"), 0, false);
    var drama := Movie("2", d.(category := "Drama"), 0, false);
    var all := [action, drama];
    assert all[1..] == [drama] && [drama][1..] == [];
    assert InWatchlist([drama], {"1"}) == [];
    assert InWatchlist(all, {"1"}) == [action];
    assert [action][1..] == [];
  }

  class WatchlistComponent {
    const catalog: Catalog.MovieService
    const watchlist: Watchlist.WatchlistService
    /** The category bound to the page's select box, or "All". */
    var selectedCategory: string
    /** The catalog restricted to watchlisted ids. */
    var inWatchlistMovies: seq<Movie>
    /** The rendered list. */
    var filteredMovies: seq<Movie>

    /** The rendered list is the watchlisted records narrowed by the selection. */
    ghost predicate Valid()
      reads this
    {
      filteredMovies == Views.ByCategory(inWatchlistMovies, selectedCategory)
    }

    /** The page reflects the latest values of both stores. */
    ghost predicate Current()
      reads this, catalog, watchlist
    {
      && Valid()
      && inWatchlistMovies == InWatchlist(catalog.movies, watchlist.Members())
      && filteredMovies == WatchlistView(catalog.movies, watchlist.Members(), selectedCategory)
    }

    /**
     * The constructor subscribes to both stores; both hold a current value,
     * so the projection runs at once with "All" selected.
     */
    constructor (catalog: Catalog.MovieService, watchlist: Watchlist.WatchlistService)
      ensures this.catalog == catalog && this.watchlist == watchlist
      ensures selectedCategory == Views.ALL
      ensures Current()
      ensures filteredMovies == InWatchlist(catalog.movies, watchlist.Members())
    {
      this.catalog := catalog;
      this.watchlist := watchlist;
      selectedCategory := Views.ALL;
      inWatchlistMovies := [];
      filteredMovies := [];
      new;
      OnEmission(catalog.movies, watchlist.Members());
    }

    /** The `combineLatest` callback: recomputes the watchlisted records and re-applies the filter. */
    method OnEmission(all: seq<Movie>, ids: set<string>)
      modifies this`inWatchlistMovies, this`filteredMovies
      ensures Valid()
      ensures inWatchlistMovies == InWatchlist(all, ids)
      ensures filteredMovies == WatchlistView(all, ids, selectedCategory)
    {
      inWatchlistMovies := InWatchlist(all, ids);
      ApplyFilter();
    }

    /** `applyFilter`: "All" shows the watchlisted records, a category only those of it. */
    method ApplyFilter()
      modifies this`filteredMovies
      ensures Valid()
      ensures forall i :: 0 <= i < |filteredMovies| ==>
                filteredMovies[i] in inWatchlistMovies
                && (selectedCategory == Views.ALL || filteredMovies[i].details.category == selectedCategory)
    {
      var sel := selectedCategory;
      if sel == Views.ALL {
        filteredMovies := inWatchlistMovies;
      } else {
        filteredMovies := Seqs.Filter(inWatchlistMovies, (m: Movie) => m.details.category == sel);
      }
    }

    /**
     * `toggleWatchlist`: delegates to the store; the store's emission then
     * re-runs the projection against the current catalog.
     */
    method ToggleWatchlist(id: string)
      requires watchlist.Valid()
      modifies this`inWatchlistMovies, this`filteredMovies, watchlist
      ensures watchlist.Valid()
      ensures id in watchlist.Members() <==> id !in old(watchlist.Members())
      ensures watchlist.Members() - {id} == old(watchlist.Members()) - {id}
      ensures watchlist.persists == old(watchlist.persists) + 1
      ensures watchlist.storage == old(watchlist.storage)[Watchlist.KEY := watchlist.codec.encode(watchlist.items)]
      ensures watchlist.emitted == old(watchlist.emitted) + [watchlist.Members()]
      ensures selectedCategory == old(selectedCategory)
      ensures Current()
    {
      watchlist.Toggle(id);
      OnEmission(catalog.movies, watchlist.Members());
    }

    /** `isIn`: the store's `has`. */
    function IsIn(id: string): (r: bool)
      reads watchlist
      ensures r <==> id in watchlist.Members()
    {
      watchlist.Has(id)
    }
  }
}
