/**
 * `MovieService` (src/core/services/movie.service.ts): the catalog store.
 * It owns the current snapshot (the value of its `BehaviorSubject`), writes
 * the snapshot to `localStorage` after every change and pushes it to
 * subscribers. The emission log stands in for the subject: its last entry is
 * always the current snapshot.
 */
module Catalog {
  import opened Wrappers
  import opened Storage
  import opened Movies
  import Seed

  /**
   * Storage across the constructor's steps: `seeded` is `start` or `start`
   * with the seed saved, and `final` is `seeded` when the flag was set, or
   * else `seeded`, possibly with the migrated catalog saved, with the flag
   * set to "1". Only the catalog entry and the flag can differ from `start`.
   */
  lemma StorageAfterStart(start: Store, seeded: Store, final: Store, seedText: string, migratedText: string)
    requires seeded == start || seeded == start[STORAGE_KEY := seedText]
    requires Truthy(start, MIGRATE_FLAG) ==> final == seeded
    requires !Truthy(start, MIGRATE_FLAG) ==>
               final == seeded[MIGRATE_FLAG := "1"] || final == seeded[STORAGE_KEY := migratedText][MIGRATE_FLAG := "1"]
    ensures final - {STORAGE_KEY, MIGRATE_FLAG} == start - {STORAGE_KEY, MIGRATE_FLAG}
    ensures MIGRATE_FLAG in final
    ensures final[MIGRATE_FLAG] == if Truthy(start, MIGRATE_FLAG) then start[MIGRATE_FLAG] else "1"
    ensures STORAGE_KEY in final ==>
              || (STORAGE_KEY in start && final[STORAGE_KEY] == start[STORAGE_KEY])
              || final[STORAGE_KEY] == seedText
              || final[STORAGE_KEY] == migratedText
    ensures STORAGE_KEY in start ==> STORAGE_KEY in final
  {
    assert STORAGE_KEY != MIGRATE_FLAG;
  }

  class MovieService {
    /** The current snapshot (`moviesSubject.value`). */
    var movies: seq<Movie>
    /** `localStorage`, as far as this store reads and writes it. */
    var storage: Store
    /** Every snapshot the subject has held, oldest first. */
    ghost var emitted: seq<seq<Movie>>
    /** `JSON.stringify` / `JSON.parse` for the catalog. */
    const codec: MovieCodec
    /** `new URL` plus `encodeURIComponent`, as used by the poster rewriter. */
    const query: ProxyQuery
    /** The built-in seed list `seedIfEmpty` installs. */
    const seed: seq<Details>

    /**
     * The subject's current value is the snapshot, and every record in it
     * has an absolute poster.
     */
    ghost predicate Valid()
      reads this
    {
      && |emitted| > 0
      && emitted[|emitted| - 1] == movies
      && AllHavePosters(movies)
    }

    /** Storage after a successful `saveToStorage(ms)`. */
    function Saved(st: Store, ms: seq<Movie>): Store {
      st[STORAGE_KEY := codec.encode(ms)]
    }

    /**
     * The constructor: load, seed when empty, then migrate once. Timestamps
     * come from `now`; the identities `generateId` would produce for the
     * seed entries are `seedIds`.
     */
    constructor (storage0: Store, codec: MovieCodec, query: ProxyQuery, now: int, seedIds: seq<string>)
      requires |seedIds| == 13
      ensures Valid() && this.codec == codec && this.query == query && seed == Seed.SEED
      ensures Truthy(storage, MIGRATE_FLAG)
      ensures var loaded := Loaded(storage0, codec, query, now);
              var base := if loaded.Some? && loaded.value != [] then loaded.value
                          else Seed.SeedMovies(seed, now, seedIds, query);
              movies == if Truthy(storage0, MIGRATE_FLAG) then base else Migrated(base, query)
      ensures storage - {STORAGE_KEY, MIGRATE_FLAG} == storage0 - {STORAGE_KEY, MIGRATE_FLAG}
      ensures storage[MIGRATE_FLAG] == if Truthy(storage0, MIGRATE_FLAG) then storage0[MIGRATE_FLAG] else "1"
      ensures var loaded := Loaded(storage0, codec, query, now);
              var base := if loaded.Some? && loaded.value != [] then loaded.value
                          else Seed.SeedMovies(seed, now, seedIds, query);
              STORAGE_KEY in storage ==>
                || (STORAGE_KEY in storage0 && storage[STORAGE_KEY] == storage0[STORAGE_KEY])
                || storage[STORAGE_KEY] == codec.encode(base)
                || storage[STORAGE_KEY] == codec.encode(movies)
      ensures var loaded := Loaded(storage0, codec, query, now);
              Truthy(storage0, MIGRATE_FLAG) && loaded.Some? && loaded.value != [] ==> storage == storage0
      ensures STORAGE_KEY in storage0 ==> STORAGE_KEY in storage
    {
      this.codec := codec;
      this.query := query;
      seed := Seed.SEED;
      Seed.SeedCount();
      movies := [];
      storage := storage0;
      emitted := [[]];
      new;
      ghost var loaded := Loaded(storage0, codec, query, now);
      LoadFromStorage(now);
      assert storage == storage0;
      assert movies == if loaded.Some? then loaded.value else [];
      SeedIfEmpty(now, seedIds);
      ghost var base := movies;
      ghost var seeded := storage;
      assert base == if loaded.Some? && loaded.value != [] then loaded.value
                     else Seed.SeedMovies(seed, now, seedIds, query);
      assert seeded == storage0 || seeded == storage0[STORAGE_KEY := codec.encode(base)];
      assert loaded.Some? && loaded.value != [] ==> seeded == storage0;
      assert Truthy(storage, MIGRATE_FLAG) == Truthy(storage0, MIGRATE_FLAG);
      MigratePostersToProxyOnce();
      StorageAfterStart(storage0, seeded, storage, codec.encode(base), codec.encode(movies));
    }

    /**
     * `saveToStorage`: writes the serialised snapshot; a failing write
     * (quota, storage unavailable) is swallowed and leaves storage as it was.
     */
    method SaveToStorage(ms: seq<Movie>)
      modifies this`storage
      ensures storage == old(storage) || storage == Saved(old(storage), ms)
    {
      if * {
        storage := Saved(storage, ms);
      }
    }

    /** `moviesSubject.next(ms)`. */
    method Emit(ms: seq<Movie>)
      requires AllHavePosters(ms)
      modifies this`movies, this`emitted
      ensures movies == ms && emitted == old(emitted) + [ms]
      ensures |emitted| > 0 && emitted[|emitted| - 1] == movies && AllHavePosters(movies)
    {
      movies := ms;
      emitted := emitted + [ms];
    }

    /** `getMovieById`: the first record with that id, poster fallback applied, or None. */
    function GetMovieById(id: string): (r: Option<Movie>)
      reads this
      ensures r.None? <==> !HasId(movies, id)
      ensures r.Some? ==> r.value.id == id && HasPoster(r.value.details)
      ensures r.Some? ==>
                (exists i :: 0 <= i < |movies| && movies[i].id == id
                   && (forall j :: 0 <= j < i ==> movies[j].id != id)
                   && r.value == Refreshed(movies[i], query))
    {
      var k := FindIndex(movies, id);
      if k < 0 then None else Some(Refreshed(movies[k], query))
    }

    /**
     * `createMovie`: appends one new record (id and timestamp from the
     * caller, not watched, poster normalised), emits and saves.
     */
    method CreateMovie(dto: Details, id: string, now: int) returns (m: Movie)
      requires Valid()
      modifies this
      ensures Valid()
      ensures m.id == id && m.dateAdded == now && !m.isWatched
      ensures m.details == WithPosterFallback(dto, query)
      ensures movies == old(movies) + [m]
      ensures emitted == old(emitted) + [movies]
      ensures storage == old(storage) || storage == Saved(old(storage), movies)
    {
      m := Refreshed(Movie(id, dto, now, false), query);
      var updated := movies + [m];
      Emit(updated);
      SaveToStorage(updated);
    }

    /**
     * `updateMovie`: NotFound with no change when no record has the id;
     * otherwise the first such record is replaced by the shallow merge with
     * its poster re-normalised, then the snapshot is emitted and saved.
     */
    method UpdateMovie(id: string, patch: Patch) returns (r: Result<Movie, Error>)
      requires Valid()
      modifies this
      ensures Valid()
      ensures !HasId(old(movies), id) ==> r == Failure(NotFound(id)) && unchanged(this)
      ensures HasId(old(movies), id) ==>
                var k := FindIndex(old(movies), id);
                var merged := Refreshed(ApplyPatch(old(movies)[k], patch), query);
                && r == Success(merged)
                && movies == old(movies)[k := merged]
                && emitted == old(emitted) + [movies]
                && (storage == old(storage) || storage == Saved(old(storage), movies))
    {
      var idx := FindIndex(movies, id);
      if idx == -1 {
        return Failure(NotFound(id));
      }
      var merged := Refreshed(ApplyPatch(movies[idx], patch), query);
      var updated := movies[idx := merged];
      Emit(updated);
      SaveToStorage(updated);
      r := Success(merged);
    }

    /**
     * `deleteMovie`: NotFound with no change when no record has the id;
     * otherwise every record with that id is filtered out, then the snapshot
     * is emitted and saved.
     */
    method DeleteMovie(id: string) returns (r: Result<bool, Error>)
      requires Valid()
      modifies this
      ensures Valid()
      ensures !HasId(old(movies), id) ==> r == Failure(NotFound(id)) && unchanged(this)
      ensures HasId(old(movies), id) ==>
                && r == Success(true)
                && movies == Without(old(movies), id)
                && emitted == old(emitted) + [movies]
                && (storage == old(storage) || storage == Saved(old(storage), movies))
    {
      if FindIndex(movies, id) == -1 {
        return Failure(NotFound(id));
      }
      var updated := Without(movies, id);
      Emit(updated);
      SaveToStorage(updated);
      r := Success(true);
    }

    /**
     * `loadFromStorage`: replaces the snapshot with the stored catalog, or
     * leaves everything as it was when there is nothing usable stored.
     */
    method LoadFromStorage(now: int)
      requires Valid()
      modifies this
      ensures Valid()
      ensures Loaded(old(storage), codec, query, now).None? ==> unchanged(this)
      ensures Loaded(old(storage), codec, query, now).Some? ==>
                && movies == Loaded(old(storage), codec, query, now).value
                && emitted == old(emitted) + [movies]
                && storage == old(storage)
    {
      var loaded := Loaded(storage, codec, query, now);
      if loaded.Some? {
        Emit(loaded.value);
      }
    }

    /**
     * `seedIfEmpty`: a non-empty snapshot is left alone; an empty one is
     * replaced by the seed catalog in one batch, emitted and saved.
     */
    method SeedIfEmpty(now: int, ids: seq<string>)
      requires Valid()
      requires |ids| == |seed|
      modifies this
      ensures Valid()
      ensures old(movies) != [] ==> unchanged(this)
      ensures old(movies) == [] ==>
                && movies == Seed.SeedMovies(seed, now, ids, query)
                && emitted == old(emitted) + [movies]
                && (storage == old(storage) || storage == Saved(old(storage), movies))
    {
      if |movies| > 0 {
        return;
      }
      var seeded := Seed.SeedMovies(seed, now, ids, query);
      Emit(seeded);
      SaveToStorage(seeded);
    }

    /**
     * `migratePostersToProxyOnce`: nothing happens when the flag is set;
     * otherwise every poster is rewritten, the snapshot is emitted and saved,
     * and the flag is set to "1".
     */
    method MigratePostersToProxyOnce()
      requires Valid()
      modifies this
      ensures Valid()
      ensures Truthy(storage, MIGRATE_FLAG)
      ensures Truthy(old(storage), MIGRATE_FLAG) ==> unchanged(this)
      ensures !Truthy(old(storage), MIGRATE_FLAG) ==>
                && movies == Migrated(old(movies), query)
                && emitted == old(emitted) + [movies]
                && (storage == old(storage)[MIGRATE_FLAG := "1"]
                    || storage == Saved(old(storage), movies)[MIGRATE_FLAG := "1"])
    {
      if Truthy(storage, MIGRATE_FLAG) {
        return;
      }
      var updated := Migrated(movies, query);
      Emit(updated);
      SaveToStorage(updated);
      storage := storage[MIGRATE_FLAG := "1"];
    }

    /**
     * `clearAndReseed`: drops the stored catalog and the migration flag,
     * empties the snapshot, then seeds and migrates again.
     */
    method ClearAndReseed(now: int, ids: seq<string>)
      requires Valid()
      requires |ids| == |seed|
      modifies this
      ensures Valid()
      ensures Truthy(storage, MIGRATE_FLAG)
      ensures var seeded := Seed.SeedMovies(seed, now, ids, query);
              && movies == Migrated(seeded, query)
              && emitted == old(emitted) + [[], seeded, movies]
      ensures storage - {STORAGE_KEY} == old(storage)[MIGRATE_FLAG := "1"] - {STORAGE_KEY}
      ensures var seeded := Seed.SeedMovies(seed, now, ids, query);
              STORAGE_KEY in storage ==>
                storage[STORAGE_KEY] == codec.encode(seeded) || storage[STORAGE_KEY] == codec.encode(movies)
    {
      storage := storage - {STORAGE_KEY} - {MIGRATE_FLAG};
      ghost var cleared := storage;
      Emit([]);
      SeedIfEmpty(now, ids);
      ghost var seeded := movies;
      ghost var afterSeed := storage;
      assert afterSeed == cleared || afterSeed == cleared[STORAGE_KEY := codec.encode(seeded)];
      MigratePostersToProxyOnce();
      StorageAfterStart(cleared, afterSeed, storage, codec.encode(seeded), codec.encode(movies));
    }

    /** Running the migration twice in a row: the second run changes nothing. */
    method MigrateTwice()
      requires Valid()
      modifies this
      ensures Valid()
      ensures Truthy(old(storage), MIGRATE_FLAG) ==> unchanged(this)
      ensures !Truthy(old(storage), MIGRATE_FLAG) ==>
                && movies == Migrated(old(movies), query)
                && emitted == old(emitted) + [movies]
                && (storage == old(storage)[MIGRATE_FLAG := "1"]
                    || storage == Saved(old(storage), movies)[MIGRATE_FLAG := "1"])
    {
      MigratePostersToProxyOnce();
      MigratePostersToProxyOnce();
    }
  }
}
