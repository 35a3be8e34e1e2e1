# MovieApp core in Dafny

A verified model of the state-holding core of MovieApp, an Angular movie
catalog that lives entirely in the browser:

- **`MovieService`** (`catalog.dfy`, with the pure helpers in `movies.dfy` and
  the built-in catalog in `seed.dfy`). It is the catalog store. It holds the
  current snapshot of `Movie` records, writes it to `localStorage` after every
  change and pushes it to subscribers. It covers create, update by id, delete
  by id, lookup by id, loading the stored blob, seeding an empty catalog,
  the one-time poster migration and the developer reset. Posters are
  rewritten by `normalizePoster`: it trims, makes the URL absolute and routes
  it through the images.weserv.nl proxy. `withPosterFallback` substitutes a
  placeholder when no poster remains.
- **`WatchlistService`** (`watchlist.dfy`). It is the set of watchlisted ids,
  with `has`/`add`/`remove`/`toggle`/`clear`. It persists and emits only
  when membership changes.
- **`WatchlistComponent`** (`watchlist_page.dfy`). It shows the catalog
  records whose id is watchlisted, narrowed by a category or "All".
- **`ListComponent`** (`list_page.dfy`). It shows the catalog with the same
  category filter (`views.dfy`), watchlist buttons and its own
  non-proxying poster normaliser.
- **`AddComponent.submit`** (`add_form.dfy`). It guards against double
  submission and turns the comma-separated cast text into a list of names.
- **`AuthService`** (`auth.dfy`). It is the demo login, kept in two
  `localStorage` entries.

Support modules:
- `wrappers.dfy`: `Option`, `Result` and the NotFound error.
- `seqs.dfy`: `Array.prototype.filter` and the facts about it.
- `text.dfy`: `trim`, `split` and `join`.
- `urls.dfy`: the absolutizing step both poster normalisers share.
- `storage.dfy`: `localStorage` as a `map<string, string>`.

How the code is modelled:
- **Stores.** A store whose fields change in place is a class. Each
  `BehaviorSubject` is a ghost log of emitted values whose last entry is the
  current value.
- **Serialisation.** `JSON.stringify`/`JSON.parse` are codec parameters made
  of two function values. Round trips are proved under a hypothesis that
  encoding never yields empty text and decoding returns what was encoded.
  For the watchlist this is `IdsCodec.Faithful()`, stated for every id
  array. For the catalog it is `MovieCodec.RoundTrips(ms)`, stated for the
  one catalog saved. Ratings are reals and strings are countable, so no
  codec could round-trip every catalog at once.
- **Proxy wrap.** `new URL(...)` followed by `encodeURIComponent` is a
  function parameter, `ProxyQuery`. It returns the query part of the proxy
  address, or None when the URL constructor throws.
- **Ids and times.** `generateId` and `Date.now()` become method
  parameters.
- **Swallowed save failure.** A write that fails inside `saveToStorage`
  becomes a nondeterministic choice. The snapshot still changes; storage
  stays as it was.

Two behaviours of the code worth knowing:
- **Re-normalising an already-proxied poster wraps it in the proxy again.**
  See `Movies.NormalizingProxiedWrapsAgain`. This happens on every load, and
  also in the constructor, which seeds and then migrates.
- **An update with an empty patch still re-normalises the poster.** The
  merge itself changes nothing (`Movies.ApplyPatch` with `NO_CHANGES`).

## Model

| member | source | states |
|---|---|---|
| `Urls.Absolutize` | src/core/services/movie.service.ts:135-138 | The result always has a case-insensitive `http://`/`https://` prefix. An input that already has one is kept. `//host` becomes `https://host`. Anything else gets `https://` after its leading slashes are stripped. |
| `Movies.Proxied` | src/core/services/movie.service.ts:140-146 | A parsed URL becomes the proxy base followed by its query. A URL the constructor rejects is returned as it is. |
| `Movies.ProxyAddressHasScheme` | src/core/services/movie.service.ts:143 | Every proxy address starts with the proxy base and has an `https://` scheme. |
| `Movies.NormalizePoster` | src/core/services/movie.service.ts:131-147 | Absent or empty input is returned unchanged. Non-empty input yields a URL with an http(s) scheme: either the trimmed, absolutized URL or a proxy address. |
| `Movies.WithPosterFallback` | src/core/services/movie.service.ts:151-157 | Every field but the poster is unchanged. The poster is always present, non-empty and absolute. It is NO_IMAGE when absent or empty, and otherwise the normalised URL. |
| `Movies.NormalizingProxiedWrapsAgain` | src/core/services/movie.service.ts:131-147 | Normalising a proxy address that parses wraps it in the proxy a second time. When the encoded query is longer than the address's own query (as `encodeURIComponent` of the proxy address is), the result differs from the input, so the rewriter is not idempotent. |
| `Movies.ApplyPatch` | src/core/services/movie.service.ts:24 | The shallow merge never changes `id` or `dateAdded`. Each field given in the patch takes the patch's value, and every other field keeps its value, so the empty patch changes nothing. |
| `Movies.FindIndex` | src/core/services/movie.service.ts:82 | Returns -1 exactly when no record has the id. Otherwise it returns the first position holding that id. |
| `Movies.Without` | src/core/services/movie.service.ts:108 | No record with the id remains. Every other record stays, and nothing new appears. |
| `Movies.WithoutKeepsOrder` | src/core/services/movie.service.ts:108 | Deletion keeps the remaining records in their relative order, each with its multiplicity. |
| `Movies.Hydrate` | src/core/services/movie.service.ts:174-179 | A stored record keeps its id and watched flag. A missing date becomes `now`. The poster goes through the fallback. |
| `Movies.Loaded` | src/core/services/movie.service.ts:167-184 | Yields None exactly when the key is missing or empty, or the text is not a parsable array. Otherwise every stored record is hydrated, in order, and all of them have posters. |
| `Movies.ReloadAfterSave` | src/core/services/movie.service.ts:159-184 | When the codec round-trips the saved catalog, loading what the save wrote gives back the same records in the same order, with posters re-normalised. |
| `Movies.Migrated` | src/core/services/movie.service.ts:191-194 | The migration rewrites only each record's poster, via `normalizePoster`. The length and every other field are kept. Records with posters keep them. |
| `Seed.SeedCount` | src/core/services/movie.service.ts:202-373 | The built-in catalog has 13 entries. |
| `Seed.SeedMovies` | src/core/services/movie.service.ts:375-383 | One record per seed entry, in order. Each takes the entry's fields, a caller-drawn id, time `now + i` and not-watched. Its details are the entry's with the poster fallback applied, and times strictly increase. |
| `Catalog.MovieService.constructor` | src/core/services/movie.service.ts:35-39 | The snapshot is the loaded catalog, or the seed when that is empty. It is migrated unless the flag was already set. The flag is set afterwards, to "1" if it was not set before. No other storage key changes. A start with the flag set and a non-empty stored catalog writes nothing at all. A stored catalog entry is never removed. The catalog entry, if present, is the one stored before, the encoded load-or-seed result, or the encoded snapshot. |
| `Catalog.StorageAfterStart` | src/core/services/movie.service.ts:35-39 | Across load, seed and migrate, only the catalog entry and the flag can change. The flag ends as it was or "1". The catalog entry is never removed and holds what was stored, the seed save, or the migration save. |
| `Catalog.MovieService.SaveToStorage` | src/core/services/movie.service.ts:159-165 | Storage either holds the serialised snapshot under "movies", or is left as it was when the write fails. |
| `Catalog.MovieService.GetMovieById` | src/core/services/movie.service.ts:50-54 | Returns None exactly when no record has the id. Otherwise it returns the first such record with its poster fallback applied. |
| `Catalog.MovieService.CreateMovie` | src/core/services/movie.service.ts:57-75 | Appends exactly one record at the end, unwatched, with the given id and time and a normalised poster. Earlier records are unchanged. Emits once and saves. |
| `Catalog.MovieService.UpdateMovie` | src/core/services/movie.service.ts:78-99 | An absent id gives NotFound and leaves snapshot, storage and emissions unchanged. Otherwise only the first matching position is replaced by the merged, re-normalised record; it is emitted, saved and returned. |
| `Catalog.MovieService.DeleteMovie` | src/core/services/movie.service.ts:102-120 | An absent id gives NotFound with no change. Otherwise every record with the id is removed, order is kept, and the result is emitted and saved. |
| `Catalog.MovieService.LoadFromStorage` | src/core/services/movie.service.ts:167-184 | Nothing changes when nothing usable is stored. Otherwise the hydrated catalog becomes the snapshot and is emitted. |
| `Catalog.MovieService.SeedIfEmpty` | src/core/services/movie.service.ts:201-387 | A no-op on a non-empty snapshot. An empty one receives the seed catalog in one emission and one save. |
| `Catalog.MovieService.MigratePostersToProxyOnce` | src/core/services/movie.service.ts:187-198 | A no-op when the flag is set. Otherwise every poster is rewritten, then the result is emitted and saved. The flag is always set afterwards. |
| `Catalog.MovieService.MigrateTwice` | src/core/services/movie.service.ts:187-198 | Two migrations in a row do exactly what one does. |
| `Catalog.MovieService.ClearAndReseed` | src/core/services/movie.service.ts:390-396 | Emits the empty catalog, then the seed, then the migrated seed, which is the new snapshot. Storage differs from before only in the catalog entry and the flag, now "1". The catalog entry, if present, holds the encoded seed or the encoded migrated seed. |
| `Watchlist.DedupSpec` | src/app/services/watchlist.service.ts:15 | Adding ids one by one to an empty set gives duplicate-free contents with exactly the ids' members. |
| `Watchlist.DedupOfDistinct` | src/app/services/watchlist.service.ts:15 | A duplicate-free array is rebuilt exactly, in order. |
| `Watchlist.Restored` | src/app/services/watchlist.service.ts:12-18 | A missing, empty or unparsable entry gives the empty set. Otherwise the result has exactly the parsed ids as members, without duplicates. |
| `Watchlist.PersistThenRestore` | src/app/services/watchlist.service.ts:12-27 | What `persist` writes is read back by the next construction unchanged. |
| `Watchlist.WatchlistService.constructor` | src/app/services/watchlist.service.ts:12-18 | Loads `Restored(storage)` through the add loop, does not persist, and emits once after the initial empty set. |
| `Watchlist.WatchlistService.Has` | src/app/services/watchlist.service.ts:20 | True exactly when the id is a member. |
| `Watchlist.WatchlistService.Add` | src/app/services/watchlist.service.ts:21 | Afterwards the id is a member. It persists and emits once exactly when the id was absent, and otherwise changes nothing. |
| `Watchlist.WatchlistService.Remove` | src/app/services/watchlist.service.ts:22 | Afterwards the id is not a member. It persists and emits once exactly when the id was present, and otherwise changes nothing. |
| `Watchlist.WatchlistService.Toggle` | src/app/services/watchlist.service.ts:23 | Flips the id's membership, keeps every other id, and persists and emits exactly once. |
| `Watchlist.WatchlistService.ToggleTwice` | src/app/services/watchlist.service.ts:23 | Two toggles restore the original set with exactly two persists. |
| `Watchlist.WatchlistService.Clear` | src/app/services/watchlist.service.ts:24 | Leaves the set empty. It persists and emits only when the set was non-empty. |
| `Watchlist.WatchlistService.Persist` | src/app/services/watchlist.service.ts:26-27 | Writes the serialised ids under "watchlist" and emits a set equal to the current one. |
| `Views.ByCategory` | src/movies/list/list.component.ts:52-56 | "All" yields the records themselves. A category yields exactly the records of that category, all drawn from the input. |
| `Views.ByCategoryExact` | src/movies/list/list.component.ts:55 | A category filter keeps each record of that category with its multiplicity, drops all others, and keeps order. |
| `WatchlistPage.InWatchlist` | src/app/watchlist/watchlist.component.ts:37 | Exactly the catalog records whose id is in the watchlist. |
| `WatchlistPage.WatchlistView` | src/app/watchlist/watchlist.component.ts:35-50 | A function of catalog, id set and selection alone. Every shown record is in the catalog and watchlisted, and every such record of the selected category is shown. "All" gives the watchlisted subset. |
| `WatchlistPage.WatchlistViewExact` | src/app/watchlist/watchlist.component.ts:35-50 | The view is the catalog filtered once by "watchlisted and in the category". It keeps multiplicities and catalog order. |
| `WatchlistPage.TwoRecordCatalog` | src/app/watchlist/watchlist.component.ts:35-50 | For an Action record "1", a Drama record "2" and watchlist {"1"}: "All" shows record 1 only, and "Drama" shows nothing. |
| `WatchlistPage.WatchlistComponent.constructor` | src/app/watchlist/watchlist.component.ts:31-41 | Starts with "All" and the watchlisted subset of the current catalog. |
| `WatchlistPage.WatchlistComponent.OnEmission` | src/app/watchlist/watchlist.component.ts:36-39 | Recomputes the watchlisted subset from the emitted values and re-applies the filter. |
| `WatchlistPage.WatchlistComponent.ApplyFilter` | src/app/watchlist/watchlist.component.ts:44-50 | The rendered list is the watchlisted subset narrowed by the selection. |
| `WatchlistPage.WatchlistComponent.ToggleWatchlist` | src/app/watchlist/watchlist.component.ts:53-56 | Flips the id in the store, keeps the other ids, and persists once: the store writes the encoded ids under "watchlist" and emits the new set. The selection is kept, and the page shows the view of the current catalog and watchlist. |
| `WatchlistPage.WatchlistComponent.IsIn` | src/app/watchlist/watchlist.component.ts:58-60 | Equals membership in the store. |
| `ListPage.NormalizePoster` | src/movies/list/list.component.ts:78-87 | FALLBACK for absent or empty input. Otherwise an http(s) URL, which is the trimmed input itself when that already has a scheme. |
| `ListPage.GetPoster` | src/movies/list/list.component.ts:90-92 | Never empty, and equal to the normaliser's result, so its own fallback to FALLBACK never takes effect. |
| `ListPage.AbsolutePosterShownAsIs` | src/movies/list/list.component.ts:80-86 | A trimmed absolute URL is displayed exactly as given. |
| `ListPage.CatalogPosterIsProxiedListPoster` | src/movies/list/list.component.ts:78-87 | For non-empty input, the catalog's rewriter is this page's normaliser followed by the proxy wrap. |
| `ListPage.ListComponent.constructor` | src/movies/list/list.component.ts:42-50 | Starts with "All" and the current catalog shown whole. |
| `ListPage.ListComponent.SetSelectedCategory` | src/movies/list/list.component.ts:34-37 | Stores the selection and immediately re-filters. |
| `ListPage.ListComponent.OnMovies` | src/movies/list/list.component.ts:46-49 | Takes the emitted snapshot and re-filters. |
| `ListPage.ListComponent.ApplyFilter` | src/movies/list/list.component.ts:52-56 | "All" gives all movies. A category gives exactly the movies of that category. |
| `ListPage.ListComponent.Add` | src/movies/list/list.component.ts:58-61 | Afterwards `isIn(id)` holds, the watchlist gains exactly the id, and the rendered list keeps its contents. An id already present leaves the store untouched. A new id is persisted once (the encoded ids are written under "watchlist") and the new set is emitted. |
| `ListPage.ListComponent.ToggleWatchlist` | src/movies/list/list.component.ts:63-66 | Flips `isIn(id)`, keeps the other ids, and the rendered list keeps its contents. The store persists once, writing the encoded ids under "watchlist", and emits the new set. |
| `ListPage.ListComponent.IsIn` | src/movies/list/list.component.ts:68-70 | Equals membership in the store. |
| `AddForm.CastPieces` | src/movies/add/add.component.ts:42-45 | The trimmed pieces between commas are comma-free and trimmed. Empty text gives one empty piece. |
| `AddForm.ParseCast` | src/movies/add/add.component.ts:42-46 | Every parsed name is non-empty, comma-free and without surrounding whitespace. |
| `AddForm.EmptyCastHasNoNames` | src/movies/add/add.component.ts:42-46 | Absent or empty cast text gives no names. |
| `AddForm.ParseCastInOrder` | src/movies/add/add.component.ts:42-46 | The names appear in the order they are written. |
| `AddForm.ParseCastOfJoin` | src/movies/add/add.component.ts:42-46 | Parsing comma-joined valid names gives the names back. |
| `AddForm.Payload` | src/movies/add/add.component.ts:39-47 | Every form field is passed on as entered, except the cast, which is parsed. |
| `AddForm.AddComponent.constructor` | src/movies/add/add.component.ts:30-32 | Starts with no submission in flight. |
| `AddForm.AddComponent.Submit` | src/movies/add/add.component.ts:34-61 | An invalid form or a submission in flight changes nothing. Otherwise `submitting` is true when the movie is created, exactly that one record is appended, and the flag is false again afterwards. The catalog emits the new snapshot, and either saves it or, when the write fails, keeps storage as it was. |
| `Auth.AuthService.IsLoggedIn` | src/core/services/auth.service.ts:28-30 | True exactly when a non-empty token is stored. |
| `Auth.AuthService.Login` | src/core/services/auth.service.ts:12-19 | Succeeds exactly for admin/12345678. Success stores the user record and "demo-token", so the user is logged in. Failure leaves storage unchanged. |
| `Auth.AuthService.Logout` | src/core/services/auth.service.ts:21-23 | Removes both entries and nothing else, so the user is logged out. |
| `Auth.AuthService.LoginThenLogout` | src/core/services/auth.service.ts:12-26 | A demo login followed by logout leaves storage as it was, minus the two session entries. |

## Left out

- RxJS (`BehaviorSubject`, `Observable`, `of`, `combineLatest`, subscription timing): current values are fields and emissions are ghost logs. Each Observable-returning store operation is modelled as completing synchronously when subscribed, as it does in the code.
- `JSON.parse`/`JSON.stringify`: abstract codec parameters. Their exceptions are the None/Unparseable results.
- `new URL(...)` and `encodeURIComponent` (the WHATWG URL parser and RFC 3986 percent-encoding): the `ProxyQuery` parameter. Host, path and query extraction are not modelled.
- `generateId` (`Date.now` plus `Math.random`) and `new Date()`: ids and times are parameters. Id uniqueness is not claimed, because the code never checks it. Dates are integer milliseconds. One `now` stands for every `new Date()` of a load, so stored records without a date all get the same time, where the code's per-record calls may give different ones.
- `String(id)` conversion of numeric ids: ids are strings throughout. The watchlist codec's decode returns the ids already converted.
- The seed list's descriptions are left empty. The enum values of `Category` and `Rating` (the enum files are not part of this model) are kept as the member names used in the seed. IMDb ratings are uninterpreted reals.
- `Catalog.MovieService.CreateMovie`, `Catalog.MovieService.UpdateMovie` and `Catalog.MovieService.DeleteMovie`: the `catch` that turns an unexpected exception into an error emission cannot fire in the model, since no modelled step throws.
- `AddForm.AddComponent.Submit`: the error callback (`console.error`, `alert`, resetting `submitting`) is not modelled, since the model's create never fails. Router navigation after success is left out.
- `Catalog.MovieService.MigratePostersToProxyOnce`: the flag write is modelled as always succeeding. The same holds for the watchlist's `persist` write and the auth writes. Only `saveToStorage` models a failing write. In the code, a failing `setItem` in these places throws to the caller. In `add`/`remove`/`clear` the set has already changed when that happens, and nothing is emitted. The flag stays unset after a failed migration write. A failed `login` write leaves the session half written. The model does not capture these exception paths.
- `ListPage.ListComponent.OnMovies`: the `ms ?? []` null guard is not modelled, because a snapshot is never null here.
- `ListComponent.trackById`, `WatchlistComponent.trackById`, the `onImgError` handlers, templates, Angular `Validators` (form validity arrives as a flag), `LayoutComponent`, `DetailComponent` and routes: UI and configuration with no logic of their own.
- The message text of the `Error` thrown for a missing id: the model's `NotFound(id)` carries the id only.
- Logging (`console.error`) and the `router.navigate` call in `logout`: side effects outside the modelled state.
