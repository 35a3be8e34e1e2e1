/**
 * The catalog's records and the pure helpers of `MovieService`
 * (src/core/services/movie.service.ts): the poster rewriter, the poster
 * fallback, the shallow merge of an update, lookup by id, removal by id,
 * the parse of the stored blob and the poster migration.
 */
module Movies {
  import opened Wrappers
  import opened Storage
  import Text
  import Urls
  import Seqs

  /** Placeholder poster used when a record has none. */
  const NO_IMAGE: string := "https://placehold.co/400x600?text=No+Image"
  /** `localStorage` key of the serialised catalog. */
  const STORAGE_KEY: string := "movies"
  /** `localStorage` key of the one-time poster migration flag. */
  const MIGRATE_FLAG: string := "movies_proxy_migrated_v1"
  /** Every proxied poster address starts with this. */
  const PROXY_BASE: string := "https://images.weserv.nl/?url="

  /**
   * The caller-supplied fields of a movie (`CreateMovieDto`). Category and
   * rating are the enum values as strings; the IMDb rating is kept as an
   * uninterpreted number.
   */
  datatype Details = Details(
    title: string,
    description: string,
    releaseYear: int,
    category: string,
    rating: string,
    duration: Option<int>,
    director: Option<string>,
    cast: Option<seq<string>>,
    imdbRating: Option<real>,
    posterUrl: Option<string>)

  /** A catalog record: the store assigns `id`, `dateAdded` (milliseconds) and `isWatched`. */
  datatype Movie = Movie(id: string, details: Details, dateAdded: int, isWatched: bool)

  /**
   * `new URL(u)` followed by `encodeURIComponent(host + pathname + search)`:
   * the query part of the proxy address, or None when the URL constructor throws.
   */
  type ProxyQuery = string -> Option<string>

  /** Routes an absolute URL through the image proxy, or keeps it when it does not parse. */
  function Proxied(u: string, query: ProxyQuery): (r: string)
    ensures query(u).Some? ==> r == PROXY_BASE + query(u).value
    ensures query(u).None? ==> r == u
  {
    match query(u)
    case Some(q) => PROXY_BASE + q
    case None => u
  }

  /** Proxy addresses are absolute `https://` addresses. */
  lemma ProxyAddressHasScheme(q: string)
    ensures PROXY_BASE <= PROXY_BASE + q
    ensures Urls.HasHttpScheme(PROXY_BASE + q)
  {
    assert "https://" <= PROXY_BASE + q by {
      assert forall i :: 0 <= i < 8 ==> (PROXY_BASE + q)[i] == "https://"[i];
    }
    Urls.HttpsPrefixHasScheme(PROXY_BASE + q);
  }

  /**
   * `normalizePoster`: absent or empty input is returned as it is; anything
   * else is trimmed, made absolute and then proxied when it parses.
   */
  function NormalizePoster(url: Option<string>, query: ProxyQuery): (r: Option<string>)
    ensures url.None? || url == Some("") ==> r == url
    ensures url.Some? && url.value != "" ==> r.Some? && Urls.HasHttpScheme(r.value)
    ensures url.Some? && url.value != "" ==>
              r.value == Urls.Absolutize(Text.Trim(url.value)) || PROXY_BASE <= r.value
  {
    if url.None? || url.value == "" then url
    else
      var u := Urls.Absolutize(Text.Trim(url.value));
      match query(u)
      case Some(q) =>
        ProxyAddressHasScheme(q);
        Some(Proxied(u, query))
      case None => Some(Proxied(u, query))
  }

  /** The record's poster is present and absolute. */
  predicate HasPoster(d: Details) {
    d.posterUrl.Some? && Urls.HasHttpScheme(d.posterUrl.value)
  }

  /**
   * `withPosterFallback`: normalises the poster and substitutes `NO_IMAGE`
   * when that yields nothing; every other field is left as it is.
   */
  function WithPosterFallback(d: Details, query: ProxyQuery): (r: Details)
    ensures r.(posterUrl := d.posterUrl) == d
    ensures HasPoster(r) && r.posterUrl.value != ""
    ensures d.posterUrl.None? || d.posterUrl == Some("") ==> r.posterUrl == Some(NO_IMAGE)
    ensures d.posterUrl.Some? && d.posterUrl.value != "" ==>
              r.posterUrl == NormalizePoster(d.posterUrl, query)
  {
    var poster := NormalizePoster(d.posterUrl, query);
    if poster.None? || poster.value == "" then
      Urls.HttpsPrefixHasScheme(NO_IMAGE);
      d.(posterUrl := Some(NO_IMAGE))
    else d.(posterUrl := poster)
  }

  /** `withPosterFallback` applied to a whole record. */
  function Refreshed(m: Movie, query: ProxyQuery): (r: Movie)
    ensures r.id == m.id && r.dateAdded == m.dateAdded && r.isWatched == m.isWatched
    ensures r.details == WithPosterFallback(m.details, query)
  {
    m.(details := WithPosterFallback(m.details, query))
  }

  /** Every record of the catalog carries an absolute poster. */
  ghost predicate AllHavePosters(ms: seq<Movie>) {
    forall i :: 0 <= i < |ms| ==> HasPoster(ms[i].details)
  }

  /** One field of an update: absent from the patch, or given a new value. */
  datatype Field<T> = Keep | Put(value: T)

  function Merge<T>(current: T, f: Field<T>): T {
    match f
    case Keep => current
    case Put(v) => v
  }

  /** `UpdateMovieDto`: any field of a movie except `id` and `dateAdded`. */
  datatype Patch = Patch(
    title: Field<string>,
    description: Field<string>,
    releaseYear: Field<int>,
    category: Field<string>,
    rating: Field<string>,
    duration: Field<Option<int>>,
    director: Field<Option<string>>,
    cast: Field<Option<seq<string>>>,
    imdbRating: Field<Option<real>>,
    posterUrl: Field<Option<string>>,
    isWatched: Field<bool>)

  /** The empty patch `{}`. */
  const NO_CHANGES: Patch :=
    Patch(Keep, Keep, Keep, Keep, Keep, Keep, Keep, Keep, Keep, Keep, Keep)

  /**
   * `{ ...current, ...patch }`: the patch's fields win, the others are kept,
   * and `id` and `dateAdded` can never change because the patch type has no
   * such fields.
   */
  function ApplyPatch(m: Movie, p: Patch): (r: Movie)
    ensures r.id == m.id && r.dateAdded == m.dateAdded
    ensures p == NO_CHANGES ==> r == m
    ensures r.details.title == if p.title.Put? then p.title.value else m.details.title
    ensures r.details.description == if p.description.Put? then p.description.value else m.details.description
    ensures r.details.releaseYear == if p.releaseYear.Put? then p.releaseYear.value else m.details.releaseYear
    ensures r.details.category == if p.category.Put? then p.category.value else m.details.category
    ensures r.details.rating == if p.rating.Put? then p.rating.value else m.details.rating
    ensures r.details.duration == if p.duration.Put? then p.duration.value else m.details.duration
    ensures r.details.director == if p.director.Put? then p.director.value else m.details.director
    ensures r.details.cast == if p.cast.Put? then p.cast.value else m.details.cast
    ensures r.details.imdbRating == if p.imdbRating.Put? then p.imdbRating.value else m.details.imdbRating
    ensures r.details.posterUrl == if p.posterUrl.Put? then p.posterUrl.value else m.details.posterUrl
    ensures r.isWatched == if p.isWatched.Put? then p.isWatched.value else m.isWatched
  {
    var d := m.details;
    Movie(
      m.id,
      Details(
        Merge(d.title, p.title),
        Merge(d.description, p.description),
        Merge(d.releaseYear, p.releaseYear),
        Merge(d.category, p.category),
        Merge(d.rating, p.rating),
        Merge(d.duration, p.duration),
        Merge(d.director, p.director),
        Merge(d.cast, p.cast),
        Merge(d.imdbRating, p.imdbRating),
        Merge(d.posterUrl, p.posterUrl)),
      m.dateAdded,
      Merge(m.isWatched, p.isWatched))
  }

  /** Some record has identity `id` (`current.some(m => m.id === sid)`). */
  ghost predicate HasId(ms: seq<Movie>, id: string) {
    exists i :: 0 <= i < |ms| && ms[i].id == id
  }

  /** `findIndex(m => m.id === id)`: the first position with that id, or -1. */
  function FindIndex(ms: seq<Movie>, id: string): (k: int)
    ensures -1 <= k < |ms|
    ensures k == -1 <==> !HasId(ms, id)
    ensures 0 <= k ==> ms[k].id == id && forall j :: 0 <= j < k ==> ms[j].id != id
  {
    if ms == [] then -1
    else if ms[0].id == id then 0
    else
      var k := FindIndex(ms[1..], id);
      assert forall j :: 1 <= j < |ms| ==> ms[j] == ms[1..][j - 1];
      if k == -1 then -1 else k + 1
  }

  /** `filter(m => m.id !== id)`: the catalog without the records that have that id. */
  function Without(ms: seq<Movie>, id: string): (r: seq<Movie>)
    ensures !HasId(r, id)
    ensures forall i :: 0 <= i < |ms| && ms[i].id != id ==> ms[i] in r
    ensures forall i :: 0 <= i < |r| ==> r[i] in ms
  {
    Seqs.Filter(ms, (m: Movie) => m.id != id)
  }

  /**
   * Deleting keeps the other records in their relative order and each as
   * often as before.
   */
  lemma WithoutKeepsOrder(ms: seq<Movie>, id: string, m: Movie)
    ensures Seqs.IsSubsequence(Without(ms, id), ms)
    ensures multiset(Without(ms, id))[m] == if m.id != id then multiset(ms)[m] else 0
  {
    Seqs.FilterIsSubsequence(ms, (x: Movie) => x.id != id);
    Seqs.FilterCount(ms, (x: Movie) => x.id != id, m);
  }

  /** A record as it comes back from `JSON.parse`: the date may be missing. */
  datatype StoredMovie = StoredMovie(id: string, details: Details, dateAdded: Option<int>, isWatched: bool)

  /** What `JSON.parse` makes of the stored text. */
  datatype Parsed = Unparseable | NotAnArray | Array(items: seq<StoredMovie>)

  /** `JSON.stringify` and `JSON.parse` for the catalog. */
  datatype MovieCodec = MovieCodec(encode: seq<Movie> -> string, decode: string -> Parsed) {
    /**
     * The text serialised for `ms` is not empty and parses back to the same
     * records. Stated per catalog: no single codec can do this for every
     * catalog at once, since ratings are reals and strings are countable.
     */
    ghost predicate RoundTrips(ms: seq<Movie>) {
      encode(ms) != "" && decode(encode(ms)) == Array(Stored(ms))
    }
  }

  /** The records as `JSON.stringify` writes them: every date present. */
  function Stored(ms: seq<Movie>): (r: seq<StoredMovie>)
    ensures |r| == |ms|
    ensures forall i :: 0 <= i < |ms| ==>
              r[i] == StoredMovie(ms[i].id, ms[i].details, Some(ms[i].dateAdded), ms[i].isWatched)
  {
    seq(|ms|, i requires 0 <= i < |ms| =>
      StoredMovie(ms[i].id, ms[i].details, Some(ms[i].dateAdded), ms[i].isWatched))
  }

  /** Re-hydrates one stored record: a missing date becomes `now`, the poster is normalised. */
  function Hydrate(s: StoredMovie, now: int, query: ProxyQuery): (m: Movie)
    ensures m.id == s.id && m.isWatched == s.isWatched
    ensures m.dateAdded == if s.dateAdded.Some? then s.dateAdded.value else now
    ensures m.details == WithPosterFallback(s.details, query)
  {
    Refreshed(Movie(s.id, s.details, s.dateAdded.GetOr(now), s.isWatched), query)
  }

  /**
   * `loadFromStorage`: the catalog read back from storage, or None when the
   * key is missing or empty, the text does not parse, or it is not an array.
   */
  function Loaded(st: Store, codec: MovieCodec, query: ProxyQuery, now: int): (r: Option<seq<Movie>>)
    ensures r.None? <==> !Truthy(st, STORAGE_KEY) || !codec.decode(st[STORAGE_KEY]).Array?
    ensures r.Some? ==> AllHavePosters(r.value)
    ensures r.Some? ==> var items := codec.decode(st[STORAGE_KEY]).items;
              |r.value| == |items| && forall i :: 0 <= i < |items| ==> r.value[i] == Hydrate(items[i], now, query)
  {
    if !Truthy(st, STORAGE_KEY) then None
    else match codec.decode(st[STORAGE_KEY])
      case Array(items) =>
        Some(seq(|items|, i requires 0 <= i < |items| => Hydrate(items[i], now, query)))
      case _ => None
  }

  /** `withPosterFallback` applied to every record, in order. */
  function RefreshAll(ms: seq<Movie>, query: ProxyQuery): (r: seq<Movie>)
    ensures |r| == |ms| && AllHavePosters(r)
    ensures forall i :: 0 <= i < |ms| ==> r[i] == Refreshed(ms[i], query)
  {
    seq(|ms|, i requires 0 <= i < |ms| => Refreshed(ms[i], query))
  }

  /**
   * Saving and then loading gives back the same records, in the same order,
   * with their posters run through the normaliser once more.
   */
  lemma ReloadAfterSave(st: Store, ms: seq<Movie>, codec: MovieCodec, query: ProxyQuery, now: int)
    requires codec.RoundTrips(ms)
    ensures Loaded(st[STORAGE_KEY := codec.encode(ms)], codec, query, now) == Some(RefreshAll(ms, query))
  {
    var st' := st[STORAGE_KEY := codec.encode(ms)];
    assert codec.encode(ms) != "" && codec.decode(codec.encode(ms)) == Array(Stored(ms));
    assert Truthy(st', STORAGE_KEY);
    var r := Loaded(st', codec, query, now);
    assert |r.value| == |ms|;
    forall i | 0 <= i < |ms| ensures r.value[i] == RefreshAll(ms, query)[i] {
      assert Stored(ms)[i].dateAdded == Some(ms[i].dateAdded);
    }
    assert r.value == RefreshAll(ms, query);
  }

  /**
   * The migration's rewrite: `normalizePoster` (without the fallback) applied
   * to every record's poster; nothing else changes.
   */
  function Migrated(ms: seq<Movie>, query: ProxyQuery): (r: seq<Movie>)
    ensures |r| == |ms|
    ensures forall i :: 0 <= i < |ms| ==>
              r[i].(details := r[i].details.(posterUrl := ms[i].details.posterUrl)) == ms[i]
    ensures forall i :: 0 <= i < |ms| ==>
              r[i].details.posterUrl == NormalizePoster(ms[i].details.posterUrl, query)
    ensures AllHavePosters(ms) ==> AllHavePosters(r)
  {
    seq(|ms|, i requires 0 <= i < |ms| =>
      ms[i].(details := ms[i].details.(posterUrl := NormalizePoster(ms[i].details.posterUrl, query))))
  }

  /** A proxy address whose query does not end in whitespace has nothing for `trim` to remove. */
  lemma ProxyAddressIsTrimmed(q: string)
    requires q == [] || !Text.IsWhitespace(q[|q| - 1])
    ensures Text.IsTrimmed(PROXY_BASE + q)
  {
    var u := PROXY_BASE + q;
    assert u[0] == 'h';
    assert !Text.IsWhitespace(u[|u| - 1]) by {
      if q == [] {
        assert u[|u| - 1] == '=';
      } else {
        assert u[|u| - 1] == q[|q| - 1];
      }
    }
  }

  /** A trimmed absolute URL passes through trimming and the absolutizing step unchanged. */
  lemma AbsoluteUrlKept(u: string)
    requires Text.IsTrimmed(u) && Urls.HasHttpScheme(u)
    ensures Urls.Absolutize(Text.Trim(u)) == u
  {
    Text.TrimOfTrimmed(u);
  }

  /**
   * The normaliser does not recognise its own output: a proxy address that
   * parses is wrapped in the proxy a second time.
   */
  lemma NormalizingProxiedWrapsAgain(q: string, query: ProxyQuery)
    requires q == [] || !Text.IsWhitespace(q[|q| - 1])
    requires query(PROXY_BASE + q).Some?
    ensures NormalizePoster(Some(PROXY_BASE + q), query) == Some(PROXY_BASE + query(PROXY_BASE + q).value)
    ensures |query(PROXY_BASE + q).value| > |q| ==>
              NormalizePoster(Some(PROXY_BASE + q), query) != Some(PROXY_BASE + q)
  {
    var u := PROXY_BASE + q;
    ProxyAddressIsTrimmed(q);
    ProxyAddressHasScheme(q);
    AbsoluteUrlKept(u);
    assert u != "";
  }
}
