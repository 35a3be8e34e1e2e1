/**
 * `AddComponent` (src/movies/add/add.component.ts): the "add movie" form.
 * Submitting turns the comma-separated cast text into a list of names and
 * creates the movie, guarded against a second submission while one is in
 * flight.
 */
module AddForm {
  import opened Wrappers
  import opened Movies
  import Text
  import Seqs
  import Catalog

  /** `Boolean` as a filter: keeps the non-empty strings. */
  predicate NonEmpty(e: string) {
    e != ""
  }

  /** `.map(s => s.trim())`. */
  function TrimAll(xs: seq<string>): (r: seq<string>)
    ensures |r| == |xs|
    ensures forall i :: 0 <= i < |xs| ==> r[i] == Text.Trim(xs[i])
  {
    seq(|xs|, i requires 0 <= i < |xs| => Text.Trim(xs[i]))
  }

  /** The cast text's pieces between commas, trimmed: comma-free, and `[""]` for empty text. */
  function CastPieces(s: string): (names: seq<string>)
    ensures forall i :: 0 <= i < |names| ==> ',' !in names[i] && Text.IsTrimmed(names[i])
    ensures s == "" ==> names == [""]
  {
    var pieces := Text.Split(s, ',');
    CommaFreeAfterTrim(pieces);
    if s == "" then
      assert pieces == [""];
      Text.TrimOfTrimmed("");
      TrimAll(pieces)
    else TrimAll(pieces)
  }

  /** Trimming comma-free pieces leaves them comma-free. */
  lemma CommaFreeAfterTrim(pieces: seq<string>)
    requires forall i :: 0 <= i < |pieces| ==> ',' !in pieces[i]
    ensures forall i :: 0 <= i < |pieces| ==> ',' !in TrimAll(pieces)[i]
  {
    forall i | 0 <= i < |pieces| ensures ',' !in TrimAll(pieces)[i] {
      Text.TrimKeepsCharacters(pieces[i], ',');
    }
  }

  /**
   * `(cast || '').toString().split(',').map(s => s.trim()).filter(Boolean)`:
   * the names between commas, trimmed, empty ones dropped.
   */
  function ParseCast(cast: Option<string>): (r: seq<string>)
    ensures forall i :: 0 <= i < |r| ==> r[i] != "" && ',' !in r[i] && Text.IsTrimmed(r[i])
  {
    var names := CastPieces(if cast.None? then "" else cast.value);
    KeptPiecesAreNames(names);
    Seqs.Filter(names, NonEmpty)
  }

  /** Dropping the empty pieces of comma-free, trimmed pieces leaves non-empty, comma-free, trimmed names. */
  lemma KeptPiecesAreNames(names: seq<string>)
    requires forall i :: 0 <= i < |names| ==> ',' !in names[i] && Text.IsTrimmed(names[i])
    ensures forall i :: 0 <= i < |Seqs.Filter(names, NonEmpty)| ==>
              var x := Seqs.Filter(names, NonEmpty)[i]; x != "" && ',' !in x && Text.IsTrimmed(x)
  {
    var r := Seqs.Filter(names, NonEmpty);
    forall i | 0 <= i < |r| ensures r[i] != "" && ',' !in r[i] && Text.IsTrimmed(r[i]) {
      assert r[i] in names && NonEmpty(r[i]);
      var j :| 0 <= j < |names| && names[j] == r[i];
    }
  }

  /** Absent or empty cast text gives no names. */
  lemma EmptyCastHasNoNames()
    ensures ParseCast(None) == []
    ensures ParseCast(Some("")) == []
  {
    assert CastPieces("") == [""];
    assert [""][1..] == [];
    assert !NonEmpty("");
  }

  /** The names are the cast text's trimmed pieces, in the order they are written. */
  lemma ParseCastInOrder(cast: string)
    ensures Seqs.IsSubsequence(ParseCast(Some(cast)), CastPieces(cast))
  {
    Seqs.FilterIsSubsequence(CastPieces(cast), NonEmpty);
  }

  /** Trimming names that are already trimmed changes nothing. */
  lemma TrimAllOfTrimmed(names: seq<string>)
    requires forall i :: 0 <= i < |names| ==> Text.IsTrimmed(names[i])
    ensures TrimAll(names) == names
  {
    forall i | 0 <= i < |names| ensures TrimAll(names)[i] == names[i] {
      Text.TrimOfTrimmed(names[i]);
    }
  }

  /** Writing a list of names separated by commas and parsing it gives the list back. */
  lemma ParseCastOfJoin(names: seq<string>)
    requires forall i :: 0 <= i < |names| ==> names[i] != "" && ',' !in names[i] && Text.IsTrimmed(names[i])
    ensures ParseCast(Some(Text.Join(names, ','))) == names
  {
    if names != [] {
      var s := Text.Join(names, ',');
      Text.SplitJoin(names, ',');
      assert Text.Split(s, ',') == names;
      TrimAllOfTrimmed(names);
      assert CastPieces(s) == names;
      Seqs.FilterAllPass(names, NonEmpty);
    } else {
      EmptyCastHasNoNames();
    }
  }

  /** The form's value: the movie fields, with the cast still as one line of text. */
  datatype FormValue = FormValue(
    title: string,
    description: string,
    releaseYear: int,
    category: string,
    rating: string,
    duration: Option<int>,
    director: Option<string>,
    cast: Option<string>,
    imdbRating: Option<real>,
    posterUrl: Option<string>)

  /** `{ ...value, cast: ... }`: every field as entered, the cast parsed into names. */
  function Payload(v: FormValue): (d: Details)
    ensures d.cast == Some(ParseCast(v.cast))
    ensures d.title == v.title && d.description == v.description && d.releaseYear == v.releaseYear
    ensures d.category == v.category && d.rating == v.rating && d.duration == v.duration
    ensures d.director == v.director && d.imdbRating == v.imdbRating && d.posterUrl == v.posterUrl
  {
    Details(v.title, v.description, v.releaseYear, v.category, v.rating, v.duration,
            v.director, Some(ParseCast(v.cast)), v.imdbRating, v.posterUrl)
  }

  class AddComponent {
    const movies: Catalog.MovieService
    /** A submission is in flight. */
    var submitting: bool
    /** The value of `submitting` each time `createMovie` was called. */
    ghost var flagAtCreate: seq<bool>

    constructor (movies: Catalog.MovieService)
      ensures this.movies == movies && !submitting && flagAtCreate == []
    {
      this.movies := movies;
      submitting := false;
      flagAtCreate := [];
    }

    /**
     * `submit`: an invalid form or a submission in flight does nothing.
     * Otherwise the flag is raised, the movie is created from the payload
     * (the store's create completes at once), and the success callback
     * lowers the flag again. Validity of the form is Angular's and comes in
     * as `formValid`; `id` and `now` are the identity and time the store
     * would draw.
     */
    method Submit(formValid: bool, form: FormValue, id: string, now: int) returns (created: Option<Movie>)
      requires movies.Valid()
      modifies this, movies
      ensures movies.Valid()
      ensures !formValid || old(submitting) ==>
                created == None && unchanged(this) && unchanged(movies)
      ensures formValid && !old(submitting) ==>
                && created.Some?
                && created.value.id == id && created.value.dateAdded == now && !created.value.isWatched
                && created.value.details == WithPosterFallback(Payload(form), movies.query)
                && movies.movies == old(movies.movies) + [created.value]
                && movies.emitted == old(movies.emitted) + [movies.movies]
                && (movies.storage == old(movies.storage)
                    || movies.storage == movies.Saved(old(movies.storage), movies.movies))
                && flagAtCreate == old(flagAtCreate) + [true]
                && !submitting
    {
      if !formValid || submitting {
        return None;
      }
      submitting := true;
      var payload := Payload(form);
      flagAtCreate := flagAtCreate + [submitting];
      var m := movies.CreateMovie(payload, id, now);
      submitting := false;
      created := Some(m);
    }
  }
}
