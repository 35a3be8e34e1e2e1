/**
 * The category filter shared by the catalog list page
 * (src/movies/list/list.component.ts) and the watchlist page
 * (src/app/watchlist/watchlist.component.ts): "All" keeps everything, any
 * other value keeps the records of that category, in their order.
 */
module Views {
  import opened Movies
  import Seqs

  /** The filter value that matches every category. */
  const ALL: string := "All"

  /** The records of `ms` that the selection `sel` shows. */
  function ByCategory(ms: seq<Movie>, sel: string): (r: seq<Movie>)
    ensures sel == ALL ==> r == ms
    ensures forall i :: 0 <= i < |r| ==> r[i] in ms && (sel == ALL || r[i].details.category == sel)
    ensures forall i :: 0 <= i < |ms| && (sel == ALL || ms[i].details.category == sel) ==> ms[i] in r
  {
    if sel == ALL then ms else Seqs.Filter(ms, (m: Movie) => m.details.category == sel)
  }

  /**
   * A category selection keeps every record of that category as often as it
   * occurs, drops all others, and keeps the order of the records it keeps.
   */
  lemma ByCategoryExact(ms: seq<Movie>, sel: string, m: Movie)
    requires sel != ALL
    ensures multiset(ByCategory(ms, sel))[m] == if m.details.category == sel then multiset(ms)[m] else 0
    ensures Seqs.IsSubsequence(ByCategory(ms, sel), ms)
  {
    Seqs.FilterCount(ms, (m: Movie) => m.details.category == sel, m);
    Seqs.FilterIsSubsequence(ms, (m: Movie) => m.details.category == sel);
  }
}
