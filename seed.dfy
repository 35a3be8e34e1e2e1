/**
 * The built-in seed catalog of `MovieService.seedIfEmpty`
 * (src/core/services/movie.service.ts): thirteen drafts installed in one batch.
 * The long descriptions are not reproduced (they are left empty here); no
 * property of the store depends on them.
 */
module Seed {
  import opened Wrappers
  import opened Movies

  function Draft(title: string, year: int, category: string, rating: string, duration: int,
                 director: string, cast: seq<string>, imdb: real, poster: string): Details
  {
    Details(title, "", year, category, rating, Some(duration), Some(director), Some(cast), Some(imdb), Some(poster))
  }

  /** Entry `i` of the seed list, in the order it is installed. */
  function Entry(i: nat): Details
    requires i < 13
  {
    if i == 0 then
      Draft("The Matrix", 1999, "SciFi", "R", 136, "The Wachowskis",
            ["Keanu Reeves", "Laurence Fishburne", "Carrie-Anne Moss"], 8.7,
            "https://th.bing.com/th/id/R.f481ebb82183b07b0fea1570bc6c85b9?rik=JWyXrAh0k%2f4V9Q&riu=http%3a%2f%2fsparkviews.com%2fwp-content%2fuploads%2f2017%2f09%2fThe-Matrix-1999.jpg&ehk=DMlSNMig7crkWBUtA5qo7mrLwqF4mX9Uoq%2bHRYO9Vgs%3d&risl=&pid=ImgRaw&r=0")
    else if i == 1 then
      Draft("Inception", 2010, "SciFi", "PG13", 148, "Christopher Nolan",
            ["Leonardo DiCaprio", "Marion Cotillard", "Tom Hardy"], 8.8,
            "https://tse3.mm.bing.net/th/id/OIP.ZFII9D-wnbPdcWdzFeuEiAHaHa?rs=1&pid=ImgDetMain&o=7&rm=3")
    else if i == 2 then
      Draft("Dune: Part Two", 2024, "SciFi", "PG13", 166, "Denis Villeneuve",
            ["Timoth\U{E9}e Chalamet", "Zendaya", "Rebecca Ferguson"], 8.6,
            "image.tmdb.org/t/p/w500/1pdfLvkbY9ohJlCjQH2CZjjYVvJ.jpg")
    else if i == 3 then
      Draft("Oppenheimer", 2023, "BIOGRAPHY", "R", 180, "Christopher Nolan",
            ["Cillian Murphy", "Emily Blunt", "Matt Damon"], 8.9,
            "https://tse2.mm.bing.net/th/id/OIP.fZoBEzk6so-Pj033wxwmNwHaLH?rs=1&pid=ImgDetMain&o=7&rm=3")
    else if i == 4 then
      Draft("The Dark Knight", 2008, "Action", "PG13", 152, "Christopher Nolan",
            ["Christian Bale", "Heath Ledger", "Aaron Eckhart"], 9.0,
            "https://tse4.mm.bing.net/th/id/OIP.NN9rKH-vZbFgtH4FuoW7OwHaLH?rs=1&pid=ImgDetMain&o=7&rm=3")
    else if i == 5 then
      Draft("Superbad", 2007, "Comedy", "R", 113, "Greg Mottola",
            ["Jonah Hill", "Michael Cera", "Christopher Mintz-Plasse"], 7.6,
            "https://upload.wikimedia.org/wikipedia/en/8/8b/Superbad_Poster.png")
    else if i == 6 then
      Draft("The Shawshank Redemption", 1994, "Drama", "R", 142, "Frank Darabont",
            ["Tim Robbins", "Morgan Freeman"], 9.3,
            "upload.wikimedia.org/wikipedia/en/8/81/ShawshankRedemptionMoviePoster.jpg")
    else if i == 7 then
      Draft("The Conjuring", 2013, "Horror", "R", 112, "James Wan",
            ["Vera Farmiga", "Patrick Wilson", "Lili Taylor"], 7.5,
            "https://th.bing.com/th/id/OIP.G2TywyeaWaTsKz1le9T_aAAAAA?o=7rm=3&rs=1&pid=ImgDetMain&o=7&rm=3")
    else if i == 8 then
      Draft("How to Lose a Guy in 10 Days", 2003, "Romance", "PG13", 116, "Donald Petrie",
            ["Kate Hudson", "Matthew McConaughey"], 6.5,
            "https://th.bing.com/th/id/R.af793875a5a6398d7f8841f842670240?rik=x4WkGfQrykIfng&riu=http%3a%2f%2fimages.moviepostershop.com%2fhow-to-lose-a-guy-in-10-days-movie-poster-2003-1020201634.jpg&ehk=AlG4Xfp1J1M59jqGV1F2jBFA5xeKV3JL0TyB3CVa%2bAo%3d&risl=&pid=ImgRaw&r=0")
    else if i == 9 then
      Draft("Se7en", 1995, "Thriller", "R", 127, "David Fincher",
            ["Brad Pitt", "Morgan Freeman", "Kevin Spacey"], 8.6,
            "https://th.bing.com/th/id/OIP.ds9lA_mUC3OS5YwW71yg2gHaKu?o=7rm=3&rs=1&pid=ImgDetMain&o=7&rm=3")
    else if i == 10 then
      Draft("Free Solo", 2018, "Documentary", "PG13", 100, "Elizabeth Chai Vasarhelyi, Jimmy Chin",
            ["Alex Honnold"], 8.2,
            "https://media0084.elcinema.com/uploads/_320x_bcc37436b534db4ebba4a735e0afe6489c19c8d58b1930d8e828056fc179c12c.jpg")
    else if i == 11 then
      Draft("Toy Story", 1995, "Animation", "G", 81, "John Lasseter",
            ["Tom Hanks", "Tim Allen"], 8.3,
            "upload.wikimedia.org/wikipedia/en/1/13/Toy_Story.jpg")
    else
      Draft("The Lord of the Rings: The Fellowship of the Ring", 2001, "Adventure", "PG13", 178, "Peter Jackson",
            ["Elijah Wood", "Ian McKellen", "Viggo Mortensen"], 8.8,
            "https://upload.wikimedia.org/wikipedia/en/f/fb/Lord_Rings_Fellowship_Ring.jpg")
  }

  /** The seed list, in the order it is installed. */
  const SEED: seq<Details> := seq(13, i requires 0 <= i < 13 => Entry(i))

  /** There are thirteen seed entries. */
  lemma SeedCount()
    ensures |SEED| == 13
  {
  }

  /**
   * The seeded catalog built from `drafts`: entry `i` gets the caller-chosen
   * id `ids[i]`, the timestamp `now + i`, `isWatched = false` and its details
   * with the poster fallback applied, so the timestamps strictly increase along the list.
   */
  function SeedMovies(drafts: seq<Details>, now: int, ids: seq<string>, query: ProxyQuery): (r: seq<Movie>)
    requires |ids| == |drafts|
    ensures |r| == |drafts|
    ensures AllHavePosters(r)
    ensures forall i :: 0 <= i < |r| ==>
              r[i].id == ids[i] && r[i].dateAdded == now + i && !r[i].isWatched
              && r[i].details == WithPosterFallback(drafts[i], query)
    ensures forall i, j :: 0 <= i < j < |r| ==> r[i].dateAdded < r[j].dateAdded
  {
    seq(|drafts|, i requires 0 <= i < |drafts| =>
      Refreshed(Movie(ids[i], drafts[i], now + i, false), query))
  }
}
