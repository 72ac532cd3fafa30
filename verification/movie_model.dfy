/**
 * The catalogue tables: movies with their comments and replies, and the
 * per-user interaction tables (likes on comments, like/dislike ratings,
 * favorites and star rates). Rows are kept by their key: a table with an
 * integer primary key is a map from that id, and a table whose rows are
 * identified by a UNIQUE pair is a set (or a map) over that pair, so the
 * uniqueness constraints hold by construction.
 */
module MovieModel {
  import opened Common

  /** `MovieRatingEnum`: the values the `movie_rating.rating` column stores. */
  datatype StoredRating = StoredLike | StoredDislike

  function StoredRatingValue(r: StoredRating): string
  {
    match r
    case StoredLike => "like"
    case StoredDislike => "dislike"
  }

  /**
   * The value a native enum column makes of the text it is sent on insert:
   * only the spelling of one of its members is accepted.
   */
  function ParseStoredRating(text: string): (r: Option<StoredRating>)
    ensures r.Some? <==> text == "like" || text == "dislike"
    ensures r.Some? ==> StoredRatingValue(r.value) == text
  {
    if text == "like" then Some(StoredLike)
    else if text == "dislike" then Some(StoredDislike)
    else None
  }

  /**
   * A row of `movies` (its id is the key of `Catalog.movies`). Float
   * columns are kept as reals and never computed with; `price` is in cents.
   */
  datatype Movie = Movie(
    name: string,
    year: int,
    time: int,
    image: Option<string>,
    imdb: real,
    votes: int,
    metaScore: Option<real>,
    gross: Option<real>,
    description: string,
    price: nat,
    certificationId: Option<nat>,
    genreIds: set<nat>,
    directorIds: set<nat>,
    starIds: set<nat>)

  /**
   * The current price of movie `id`, or 0 when no such movie exists: a
   * SUM over an inner join with `movies` skips such rows, which is the same
   * as counting them as 0.
   */
  function PriceOf(movies: map<nat, Movie>, id: nat): nat
  {
    if id in movies then movies[id].price else 0
  }

  /** The columns of the UNIQUE (name, year, time) constraint. */
  datatype Title = Title(name: string, year: int, time: int)

  function TitleOf(m: Movie): Title { Title(m.name, m.year, m.time) }

  /** No two movies share (name, year, time). */
  predicate UniqueTitles(movies: map<nat, Movie>)
  {
    forall a, b | a in movies && b in movies && a != b :: TitleOf(movies[a]) != TitleOf(movies[b])
  }

  /** A row of `movie_comments`; `votes` starts at 0. */
  datatype Comment = Comment(userProfileId: nat, movieId: nat, votes: int, text: string)

  /** A row of `movie_comment_replies`; `votes` starts at 0. */
  datatype Reply = Reply(commentId: nat, votes: int, userProfileId: nat, text: string)

  /** A row of `movie_comment_likes`: (comment_id, user_profile_id) is UNIQUE. */
  datatype CommentLike = CommentLike(commentId: nat, userProfileId: nat)

  /** The (user_profile_id, movie_id) pair that is UNIQUE in the rating, favorite and star tables. */
  datatype UserMovie = UserMovie(userProfileId: nat, movieId: nat)

  /** `Movie.count_of_ratings`: the number of like/dislike rows of the movie. */
  function CountOfRatings(ratings: map<UserMovie, StoredRating>, movieId: nat): (n: nat)
    ensures n == |set um | um in ratings && um.movieId == movieId :: um.userProfileId|
  {
    var rows := set um | um in ratings && um.movieId == movieId;
    UsersOfOneMovie(rows, movieId);
    assert (set um | um in ratings && um.movieId == movieId :: um.userProfileId)
        == (set um | um in rows :: um.userProfileId);
    |rows|
  }

  /** `Movie.count_of_favorites`: the number of favorite rows of the movie. */
  function CountOfFavorites(favorites: set<UserMovie>, movieId: nat): (n: nat)
    ensures n == |set um | um in favorites && um.movieId == movieId :: um.userProfileId|
  {
    var rows := set um | um in favorites && um.movieId == movieId;
    UsersOfOneMovie(rows, movieId);
    assert (set um | um in favorites && um.movieId == movieId :: um.userProfileId)
        == (set um | um in rows :: um.userProfileId);
    |rows|
  }

  /** `Movie.count_of_comments`: the number of comments on the movie. */
  function CountOfComments(comments: map<nat, Comment>, movieId: nat): (r: nat)
    ensures r == 0 <==> forall id | id in comments :: comments[id].movieId != movieId
  {
    var ids := set id | id in comments && comments[id].movieId == movieId;
    assert ids == {} <==> forall id | id in comments :: comments[id].movieId != movieId by {
      if id :| id in comments && comments[id].movieId == movieId {
        assert id in ids;
      }
    }
    |ids|
  }

  /** For one movie, (user, movie) rows and users are in one-to-one correspondence. */
  lemma UsersOfOneMovie(rows: set<UserMovie>, movieId: nat)
    requires forall um :: um in rows ==> um.movieId == movieId
    ensures |set um | um in rows :: um.userProfileId| == |rows|
  {
    var users := set um | um in rows :: um.userProfileId;
    assert rows == set u | u in users :: UserMovie(u, movieId);
    ImageOfUsers(users, movieId);
  }

  lemma {:induction false} ImageOfUsers(users: set<nat>, movieId: nat)
    ensures |set u | u in users :: UserMovie(u, movieId)| == |users|
  {
    if users != {} {
      var u :| u in users;
      var rest := users - {u};
      ImageOfUsers(rest, movieId);
      assert (set x | x in users :: UserMovie(x, movieId))
          == (set x | x in rest :: UserMovie(x, movieId)) + {UserMovie(u, movieId)};
    }
  }

  /** The users who liked comment `commentId`. */
  function LikersOf(likes: set<CommentLike>, commentId: nat): set<nat>
  {
    set l | l in likes && l.commentId == commentId :: l.userProfileId
  }

  /** A snapshot of the catalogue tables, which the operations' specifications work on. */
  datatype CatalogState = CatalogState(
    movies: map<nat, Movie>,
    nextMovieId: nat,
    certifications: set<nat>,
    genres: set<nat>,
    directors: set<nat>,
    stars: set<nat>,
    comments: map<nat, Comment>,
    replies: map<nat, Reply>,
    commentLikes: set<CommentLike>,
    ratings: map<UserMovie, StoredRating>,
    favorites: set<UserMovie>,
    starRates: map<UserMovie, int>)

  /**
   * Movie ids lie below the autoincrement counter, titles are unique, and
   * every comment like points at an existing comment (the foreign key of
   * `movie_comment_likes.comment_id`).
   */
  predicate CatalogValid(s: CatalogState)
  {
    (forall id | id in s.movies :: id < s.nextMovieId)
    && UniqueTitles(s.movies)
    && (forall l | l in s.commentLikes :: l.commentId in s.comments)
  }

  /** The catalogue tables of one database. */
  class Catalog {
    var movies: map<nat, Movie>
    var nextMovieId: nat
    var certifications: set<nat>
    var genres: set<nat>
    var directors: set<nat>
    var stars: set<nat>
    var comments: map<nat, Comment>
    var replies: map<nat, Reply>
    var commentLikes: set<CommentLike>
    var ratings: map<UserMovie, StoredRating>
    var favorites: set<UserMovie>
    var starRates: map<UserMovie, int>

    function State(): (s: CatalogState)
      reads this
    {
      CatalogState(movies, nextMovieId, certifications, genres, directors, stars,
                   comments, replies, commentLikes, ratings, favorites, starRates)
    }

    ghost predicate Valid()
      reads this
    {
      CatalogValid(State())
    }

    constructor ()
      ensures Valid()
      ensures State() == CatalogState(map[], 1, {}, {}, {}, {}, map[], map[], {}, map[], {}, map[])
    {
      movies, nextMovieId := map[], 1;
      certifications, genres, directors, stars := {}, {}, {}, {};
      comments, replies := map[], map[];
      commentLikes, ratings, favorites, starRates := {}, map[], {}, map[];
    }
  }
}
