/**
 * `WatchlistService` (src/app/services/watchlist.service.ts): the set of
 * watchlisted movie ids. The JavaScript `Set` is kept as a duplicate-free
 * sequence in insertion order (the order `[...set]` serialises in);
 * `Members()` is the set it stands for. Storage is written, and the set
 * emitted, only when membership actually changes.
 */
module Watchlist {
  import opened Wrappers
  import opened Storage
  import Seqs

  /** `localStorage` key of the serialised watchlist. */
  const KEY: string := "watchlist"

  /** `JSON.stringify` / `JSON.parse` for an array of ids. */
  datatype IdsCodec = IdsCodec(encode: seq<string> -> string, decode: string -> Option<seq<string>>) {
    /** Serialised text is never empty and parses back to the same array. */
    ghost predicate Faithful() {
      forall ids :: encode(ids) != "" && decode(encode(ids)) == Some(ids)
    }
  }

  /** `set.add(x)` on an insertion-ordered set. */
  function Insert(items: seq<string>, x: string): seq<string> {
    if x in items then items else items + [x]
  }

  /** The set built by adding `ids` one by one to an empty set. */
  function Dedup(ids: seq<string>): seq<string> {
    if ids == [] then []
    else Insert(Dedup(ids[..|ids| - 1]), ids[|ids| - 1])
  }

  /** Adding ids one by one gives a duplicate-free sequence with exactly their members. */
  lemma {:induction false} DedupSpec(ids: seq<string>)
    ensures Seqs.Distinct(Dedup(ids))
    ensures forall y :: y in Dedup(ids) <==> y in ids
  {
    if ids != [] {
      var prefix := ids[..|ids| - 1];
      var last := ids[|ids| - 1];
      assert ids == prefix + [last];
      DedupSpec(prefix);
      var d := Dedup(prefix);
      if last !in d {
        var r := d + [last];
        assert Dedup(ids) == r;
        forall i, j | 0 <= i < j < |r| ensures r[i] != r[j] {
          if j == |d| {
            assert r[i] == d[i];
          } else {
            assert r[i] == d[i] && r[j] == d[j];
          }
        }
      }
    }
  }

  /** Dropping the last id of a duplicate-free array leaves it duplicate-free and without that id. */
  lemma DistinctWithoutLast(ids: seq<string>)
    requires ids != [] && Seqs.Distinct(ids)
    ensures Seqs.Distinct(ids[..|ids| - 1])
    ensures ids[|ids| - 1] !in ids[..|ids| - 1]
  {
    var prefix := ids[..|ids| - 1];
    forall j | 0 <= j < |prefix| ensures prefix[j] != ids[|ids| - 1] {
      assert prefix[j] == ids[j];
    }
  }

  /** Adding the ids of a duplicate-free array one by one rebuilds exactly that array. */
  lemma {:induction false} DedupOfDistinct(ids: seq<string>)
    requires Seqs.Distinct(ids)
    ensures Dedup(ids) == ids
  {
    if ids != [] {
      var prefix := ids[..|ids| - 1];
      var last := ids[|ids| - 1];
      DistinctWithoutLast(ids);
      DedupOfDistinct(prefix);
      assert Dedup(ids) == Insert(prefix, last);
    }
  }

  /**
   * What the constructor reads back: nothing when the key is missing or
   * empty (`raw ? JSON.parse(raw) : []`) or when the text does not parse
   * into an array, otherwise the ids added one by one.
   */
  function Restored(st: Store, codec: IdsCodec): (r: seq<string>)
    ensures Seqs.Distinct(r)
    ensures Truthy(st, KEY) && codec.decode(st[KEY]).Some? ==>
              forall y :: y in r <==> y in codec.decode(st[KEY]).value
    ensures !Truthy(st, KEY) || codec.decode(st[KEY]).None? ==> r == []
  {
    if !Truthy(st, KEY) then []
    else match codec.decode(st[KEY])
      case Some(ids) =>
        DedupSpec(ids);
        Dedup(ids)
      case None => []
  }

  /** What a persist writes is exactly what the next start reads back. */
  lemma PersistThenRestore(st: Store, codec: IdsCodec, items: seq<string>)
    requires codec.Faithful()
    requires Seqs.Distinct(items)
    ensures Restored(st[KEY := codec.encode(items)], codec) == items
  {
    assert codec.encode(items) != "" && codec.decode(codec.encode(items)) == Some(items);
    DedupOfDistinct(items);
  }

  class WatchlistService {
    /** The `Set<string>` field, in insertion order. */
    var items: seq<string>
    /** `localStorage`, as far as this store reads and writes it. */
    var storage: Store
    /** Every set the subject has held, oldest first. */
    ghost var emitted: seq<set<string>>
    /** How many times `persist` has run. */
    ghost var persists: nat
    const codec: IdsCodec

    /** The ids in the watchlist. */
    function Members(): (r: set<string>)
      reads this
      ensures forall y :: y in r <==> y in items
    {
      set y | y in items
    }

    /** The sequence is a set, and the subject's current value is that set. */
    ghost predicate Valid()
      reads this
    {
      && Seqs.Distinct(items)
      && |emitted| > 0
      && emitted[|emitted| - 1] == Members()
    }

    /**
     * The constructor: reads the stored array (a missing key, unparseable
     * text or a non-array counts as empty; the error is swallowed), adds its
     * ids one by one, and emits once.
     */
    constructor (storage0: Store, codec: IdsCodec)
      ensures Valid() && this.codec == codec
      ensures items == Restored(storage0, codec)
      ensures storage == storage0 && persists == 0
      ensures emitted == [{}, Members()]
    {
      var loaded: seq<string> := [];
      var ids: seq<string> := [];
      if Truthy(storage0, KEY) {
        var parsed := codec.decode(storage0[KEY]);
        if parsed.Some? {
          ids := parsed.value;
        }
      }
      var i := 0;
      while i < |ids|
        invariant 0 <= i <= |ids|
        invariant loaded == Dedup(ids[..i])
      {
        assert ids[..i + 1][..i] == ids[..i];
        loaded := Insert(loaded, ids[i]);
        i := i + 1;
      }
      assert ids[..|ids|] == ids;
      DedupSpec(ids);
      items := loaded;
      storage := storage0;
      this.codec := codec;
      persists := 0;
      emitted := [{}, set y | y in loaded];
    }

    /** `has(id)`. */
    function Has(id: string): (r: bool)
      reads this
      ensures r <==> id in Members()
    {
      id in items
    }

    /** `persist`: writes the ids to storage and emits a copy of the set. */
    method Persist()
      requires Seqs.Distinct(items)
      modifies this`storage, this`persists, this`emitted
      ensures Valid()
      ensures storage == old(storage)[KEY := codec.encode(items)]
      ensures persists == old(persists) + 1
      ensures emitted == old(emitted) + [Members()]
    {
      storage := storage[KEY := codec.encode(items)];
      persists := persists + 1;
      emitted := emitted + [Members()];
    }

    /** `add(id)`: a new id is appended and persisted; a present one changes nothing. */
    method Add(id: string)
      requires Valid()
      modifies this
      ensures Valid()
      ensures Members() == old(Members()) + {id}
      ensures id in old(Members()) ==> unchanged(this)
      ensures id !in old(Members()) ==>
                && items == old(items) + [id]
                && storage == old(storage)[KEY := codec.encode(items)]
                && persists == old(persists) + 1
                && emitted == old(emitted) + [Members()]
    {
      if id !in items {
        items := items + [id];
        Persist();
      }
    }

    /** `remove(id)`: a present id is deleted and persisted; an absent one changes nothing. */
    method Remove(id: string)
      requires Valid()
      modifies this
      ensures Valid()
      ensures Members() == old(Members()) - {id}
      ensures id !in old(Members()) ==> unchanged(this)
      ensures id in old(Members()) ==>
                && items == Seqs.Filter(old(items), (y: string) => y != id)
                && storage == old(storage)[KEY := codec.encode(items)]
                && persists == old(persists) + 1
                && emitted == old(emitted) + [Members()]
    {
      if id in items {
        Seqs.FilterDistinct(items, (y: string) => y != id);
        items := Seqs.Filter(items, (y: string) => y != id);
        Persist();
      }
    }

    /** `toggle(id)`: removes a present id, adds an absent one; either way one persist. */
    method Toggle(id: string)
      requires Valid()
      modifies this
      ensures Valid()
      ensures id in Members() <==> id !in old(Members())
      ensures Members() - {id} == old(Members()) - {id}
      ensures persists == old(persists) + 1
      ensures storage == old(storage)[KEY := codec.encode(items)]
      ensures emitted == old(emitted) + [Members()]
    {
      if Has(id) {
        Remove(id);
      } else {
        Add(id);
      }
    }

    /** `clear()`: a non-empty set is emptied and persisted; an empty one changes nothing. */
    method Clear()
      requires Valid()
      modifies this
      ensures Valid()
      ensures Members() == {}
      ensures old(items) == [] ==> unchanged(this)
      ensures old(items) != [] ==>
                && items == []
                && storage == old(storage)[KEY := codec.encode([])]
                && persists == old(persists) + 1
                && emitted == old(emitted) + [{}]
    {
      if |items| > 0 {
        items := [];
        Persist();
      }
    }

    /** Toggling the same id twice restores the membership and persists exactly twice. */
    method ToggleTwice(id: string)
      requires Valid()
      modifies this
      ensures Valid()
      ensures Members() == old(Members())
      ensures persists == old(persists) + 2
    {
      ghost var before := Members();
      Toggle(id);
      Toggle(id);
      assert id in Members() <==> id in before;
      assert Members() == (Members() - {id}) + (Members() * {id});
      assert before == (before - {id}) + (before * {id});
    }
  }
}
