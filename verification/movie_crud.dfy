/**
 * The catalogue operations: the per-user toggles (comment like, reply
 * like, favorite, like/dislike rating, star rate), the moderator actions on
 * comments and movies, and the partial movie update.
 *
 * Each operation has a specification function from one catalogue snapshot
 * to its outcome (the new snapshot and the response message, or the error
 * the code raises) and a method that performs it on a `Catalog`. A failed
 * commit is rolled back, so every error leaves the tables as they were.
 */
module MovieCrud {
  import opened Common
  import opened Text
  import opened MovieModel
  import opened MovieSchemas
  import opened CartModel
  import opened OrderModel
  import opened Shop

  /** The catalogue after a method equals what its specification function returned, and so does its answer. */
  predicate Performed<T(==)>(step: Result<(CatalogState, T)>, before: CatalogState, after: CatalogState, r: Result<T>)
  {
    match step
    case Err(e) => r == Err(e) && after == before
    case Ok((s', answer)) => r == Ok(answer) && after == s'
  }

  /*
   * The group guards. `delete_comment` compares the group name with `==`,
   * `movie_create` and `delete_movie` with `is`, and `update_movie` with
   * `in`, which on two strings is a substring test.
   */

  /** All three spellings of the guard refuse exactly the base role. */
  lemma GuardSpellingsAgree(r: Role)
    ensures RoleName(r) == RoleName(UserRole) <==> IsBaseRole(r)
    ensures Contains(RoleName(UserRole), RoleName(r)) <==> IsBaseRole(r)
  {
    match r
    case UserRole =>
      assert RoleName(r) <= RoleName(UserRole);
    case ModeratorRole =>
      LongerNeverContained(RoleName(UserRole), RoleName(r));
    case AdminRole =>
      LongerNeverContained(RoleName(UserRole), RoleName(r));
  }

  /* --- Comment likes --------------------------------------------------- */

  /** The like of `user` on `commentId` is added when absent and deleted when present. */
  function ToggleLike(likes: set<CommentLike>, commentId: nat, user: nat): (r: set<CommentLike>)
    ensures CommentLike(commentId, user) in r <==> CommentLike(commentId, user) !in likes
    ensures forall l | l != CommentLike(commentId, user) :: l in r <==> l in likes
  {
    var l := CommentLike(commentId, user);
    if l in likes then likes - {l} else likes + {l}
  }

  function LikeMessage(liked: bool): string
  {
    if liked then "Comment was liked" else "Comment was unliked"
  }

  /** A vote is added with a new row and taken back with a deleted one. */
  function VoteChange(added: bool): int
  {
    if added then 1 else -1
  }

  /**
   * `like_comment_or_delete_if_exists`: a missing comment is refused;
   * otherwise the requester's like row is flipped and the comment's votes
   * move by one in the same direction.
   */
  function LikeCommentStep(s: CatalogState, commentId: nat, user: nat): (r: Result<(CatalogState, string)>)
    ensures r.Err? <==> commentId !in s.comments
    ensures r.Err? ==> r.error == CommentNotFound
    ensures r.Ok? ==>
      var (s', message) := r.value;
      var liked := CommentLike(commentId, user) in s'.commentLikes;
      liked == (CommentLike(commentId, user) !in s.commentLikes)
      && s'.commentLikes == ToggleLike(s.commentLikes, commentId, user)
      && s'.comments.Keys == s.comments.Keys
      && s'.comments[commentId].votes == s.comments[commentId].votes + VoteChange(liked)
      && (forall id | id in s.comments && id != commentId :: s'.comments[id] == s.comments[id])
      && s'.(comments := s.comments, commentLikes := s.commentLikes) == s
      && message == LikeMessage(liked)
  {
    if commentId !in s.comments then Err(CommentNotFound)
    else
      var liked := CommentLike(commentId, user) !in s.commentLikes;
      var c := s.comments[commentId];
      Ok((s.(commentLikes := ToggleLike(s.commentLikes, commentId, user),
             comments := s.comments[commentId := c.(votes := c.votes + VoteChange(liked))]),
          LikeMessage(liked)))
  }

  method LikeComment(cat: Catalog, commentId: nat, who: Requester) returns (r: Result<string>)
    modifies cat`comments, cat`commentLikes
    ensures Performed(LikeCommentStep(old(cat.State()), commentId, who.profileId), old(cat.State()), cat.State(), r)
    ensures old(cat.Valid()) ==> cat.Valid()
  {
    if cat.Valid() && LikeCommentStep(cat.State(), commentId, who.profileId).Ok? {
      LikeCommentKeepsValid(cat.State(), commentId, who.profileId);
    }
    if commentId !in cat.comments {
      return Err(CommentNotFound);
    }
    var like := CommentLike(commentId, who.profileId);
    var c := cat.comments[commentId];
    if like !in cat.commentLikes {
      cat.comments := cat.comments[commentId := c.(votes := c.votes + 1)];
      cat.commentLikes := cat.commentLikes + {like};
      r := Ok("Comment was liked");
    } else {
      cat.commentLikes := cat.commentLikes - {like};
      cat.comments := cat.comments[commentId := c.(votes := c.votes - 1)];
      r := Ok("Comment was unliked");
    }
  }

  /** Liking twice gives back the tables as they were; the second answer says what the first undid. */
  lemma LikeCommentTwiceRestores(s: CatalogState, commentId: nat, user: nat)
    requires commentId in s.comments
    ensures LikeCommentStep(s, commentId, user).Ok?
    ensures var s1 := LikeCommentStep(s, commentId, user).value.0;
      LikeCommentStep(s1, commentId, user) == Ok((s, LikeMessage(CommentLike(commentId, user) in s.commentLikes)))
  {
    var s1 := LikeCommentStep(s, commentId, user).value.0;
    var s2 := LikeCommentStep(s1, commentId, user).value.0;
    assert s2.commentLikes == s.commentLikes;
    assert s2.comments == s.comments;
  }

  /** The users who like a comment after the toggle: the requester joins or leaves, nobody else moves. */
  lemma LikersAfterToggle(likes: set<CommentLike>, commentId: nat, user: nat)
    ensures user in LikersOf(likes, commentId) <==> CommentLike(commentId, user) in likes
    ensures CommentLike(commentId, user) in likes ==>
      LikersOf(ToggleLike(likes, commentId, user), commentId) == LikersOf(likes, commentId) - {user}
    ensures CommentLike(commentId, user) !in likes ==>
      LikersOf(ToggleLike(likes, commentId, user), commentId) == LikersOf(likes, commentId) + {user}
    ensures forall id | id != commentId :: LikersOf(ToggleLike(likes, commentId, user), id) == LikersOf(likes, id)
  {
    var after := ToggleLike(likes, commentId, user);
    if user in LikersOf(likes, commentId) {
      var l :| l in likes && l.commentId == commentId && l.userProfileId == user;
      assert l == CommentLike(commentId, user);
    }
    forall id | id != commentId
      ensures LikersOf(after, id) == LikersOf(likes, id)
    {
      assert forall l: CommentLike | l.commentId == id :: l in after <==> l in likes;
    }
  }

  /**
   * A comment's votes equal the number of users who like it. A comment is
   * created with 0 votes and no likes, so this holds from the start.
   */
  predicate VotesCountLikes(s: CatalogState)
  {
    forall id | id in s.comments :: s.comments[id].votes == |LikersOf(s.commentLikes, id)|
  }

  /** The comment-like toggle keeps every comment's votes equal to its number of likers. */
  lemma LikeCommentKeepsVotesCount(s: CatalogState, commentId: nat, user: nat)
    requires VotesCountLikes(s)
    requires LikeCommentStep(s, commentId, user).Ok?
    ensures VotesCountLikes(LikeCommentStep(s, commentId, user).value.0)
  {
    var s' := LikeCommentStep(s, commentId, user).value.0;
    LikersAfterToggle(s.commentLikes, commentId, user);
    forall id | id in s'.comments
      ensures s'.comments[id].votes == |LikersOf(s'.commentLikes, id)|
    {
      if id == commentId {
        if CommentLike(commentId, user) in s.commentLikes {
          assert user in LikersOf(s.commentLikes, commentId);
        } else {
          assert user !in LikersOf(s.commentLikes, commentId);
        }
      }
    }
  }

  /* --- Reply likes ----------------------------------------------------- */

  /**
   * `like_comment_reply_or_delete_if_exists`: a missing reply is refused;
   * otherwise the like row is looked up in the COMMENT-like table under the
   * reply's id. An existing row is deleted; a new row needs a comment with
   * the reply's id (the table's foreign key), and without one the commit
   * fails. The reply's votes follow the row.
   */
  function LikeReplyStep(s: CatalogState, replyId: nat, user: nat): (r: Result<(CatalogState, string)>)
    ensures r.Err? <==> (replyId !in s.replies
                         || (CommentLike(replyId, user) !in s.commentLikes && replyId !in s.comments))
    ensures r.Err? && replyId !in s.replies ==> r.error == CommentNotFound
    ensures r.Err? && replyId in s.replies ==> r.error == InternalError
    ensures r.Ok? ==>
      var (s', message) := r.value;
      var liked := CommentLike(replyId, user) in s'.commentLikes;
      s'.commentLikes == ToggleLike(s.commentLikes, replyId, user)
      && s'.replies.Keys == s.replies.Keys
      && s'.replies[replyId].votes == s.replies[replyId].votes + VoteChange(liked)
      && (forall id | id in s.replies && id != replyId :: s'.replies[id] == s.replies[id])
      && s'.(replies := s.replies, commentLikes := s.commentLikes) == s
      && message == LikeMessage(liked)
  {
    if replyId !in s.replies then Err(CommentNotFound)
    else
      var liked := CommentLike(replyId, user) !in s.commentLikes;
      if liked && replyId !in s.comments then Err(InternalError)
      else
        var c := s.replies[replyId];
        Ok((s.(commentLikes := ToggleLike(s.commentLikes, replyId, user),
               replies := s.replies[replyId := c.(votes := c.votes + VoteChange(liked))]),
            LikeMessage(liked)))
  }

  method LikeReply(cat: Catalog, replyId: nat, who: Requester) returns (r: Result<string>)
    modifies cat`replies, cat`commentLikes
    ensures Performed(LikeReplyStep(old(cat.State()), replyId, who.profileId), old(cat.State()), cat.State(), r)
    ensures old(cat.Valid()) ==> cat.Valid()
  {
    if cat.Valid() && LikeReplyStep(cat.State(), replyId, who.profileId).Ok? {
      LikeReplyKeepsValid(cat.State(), replyId, who.profileId);
    }
    if replyId !in cat.replies {
      return Err(CommentNotFound);
    }
    var like := CommentLike(replyId, who.profileId);
    var c := cat.replies[replyId];
    if like !in cat.commentLikes {
      if replyId !in cat.comments {
        return Err(InternalError);
      }
      cat.replies := cat.replies[replyId := c.(votes := c.votes + 1)];
      cat.commentLikes := cat.commentLikes + {like};
      r := Ok("Comment was liked");
    } else {
      cat.commentLikes := cat.commentLikes - {like};
      cat.replies := cat.replies[replyId := c.(votes := c.votes - 1)];
      r := Ok("Comment was unliked");
    }
  }

  /**
   * A reply like moves the likers of the comment that shares the reply's
   * id while that comment's votes stay put.
   */
  lemma LikeReplyMovesCommentLikers(s: CatalogState, replyId: nat, user: nat)
    requires LikeReplyStep(s, replyId, user).Ok?
    ensures var s' := LikeReplyStep(s, replyId, user).value.0;
      s'.comments == s.comments
      && LikersOf(s'.commentLikes, replyId) != LikersOf(s.commentLikes, replyId)
  {
    LikersAfterToggle(s.commentLikes, replyId, user);
  }

  /**
   * Comment 1 with no likes and reply 1 under it: liking the reply leaves
   * comment 1 with a liker and 0 votes.
   */
  lemma ReplyLikeBreaksCommentVotes()
    ensures var s := CatalogState(map[], 1, {}, {}, {}, {},
                                  map[1 := Comment(5, 9, 0, "first")], map[1 := Reply(1, 0, 6, "second")],
                                  {}, map[], {}, map[]);
      VotesCountLikes(s)
      && LikeReplyStep(s, 1, 7).Ok?
      && !VotesCountLikes(LikeReplyStep(s, 1, 7).value.0)
  {
    var s := CatalogState(map[], 1, {}, {}, {}, {},
                          map[1 := Comment(5, 9, 0, "first")], map[1 := Reply(1, 0, 6, "second")],
                          {}, map[], {}, map[]);
    assert LikersOf(s.commentLikes, 1) == {};
    var s' := LikeReplyStep(s, 1, 7).value.0;
    assert CommentLike(1, 7) in s'.commentLikes;
    assert 7 in LikersOf(s'.commentLikes, 1);
  }

  /* --- Favorites ------------------------------------------------------- */

  function FavoriteMessage(added: bool): string
  {
    if added then "Movie was added to favorite" else "Movie was deleted from favorite"
  }

  /**
   * `add_movie_to_favorite_or_delete_if_exists`: a missing movie is
   * refused; otherwise the (user, movie) favorite is added when absent and
   * deleted when present. No counter moves.
   */
  function FavoriteStep(s: CatalogState, movieId: nat, user: nat): (r: Result<(CatalogState, string)>)
    ensures r.Err? <==> movieId !in s.movies
    ensures r.Err? ==> r.error == MovieNotFound
    ensures r.Ok? ==>
      var (s', message) := r.value;
      var added := UserMovie(user, movieId) in s'.favorites;
      added == (UserMovie(user, movieId) !in s.favorites)
      && (forall um | um != UserMovie(user, movieId) :: um in s'.favorites <==> um in s.favorites)
      && s'.(favorites := s.favorites) == s
      && message == FavoriteMessage(added)
  {
    if movieId !in s.movies then Err(MovieNotFound)
    else
      var um := UserMovie(user, movieId);
      if um in s.favorites then Ok((s.(favorites := s.favorites - {um}), FavoriteMessage(false)))
      else Ok((s.(favorites := s.favorites + {um}), FavoriteMessage(true)))
  }

  method ToggleFavorite(cat: Catalog, movieId: nat, who: Requester) returns (r: Result<string>)
    modifies cat`favorites
    ensures Performed(FavoriteStep(old(cat.State()), movieId, who.profileId), old(cat.State()), cat.State(), r)
    ensures old(cat.Valid()) ==> cat.Valid()
  {
    if cat.Valid() && FavoriteStep(cat.State(), movieId, who.profileId).Ok? {
      FavoriteKeepsValid(cat.State(), movieId, who.profileId);
    }
    if movieId !in cat.movies {
      return Err(MovieNotFound);
    }
    var um := UserMovie(who.profileId, movieId);
    if um !in cat.favorites {
      cat.favorites := cat.favorites + {um};
      r := Ok("Movie was added to favorite");
    } else {
      cat.favorites := cat.favorites - {um};
      r := Ok("Movie was deleted from favorite");
    }
  }

  /** The favorite toggle keeps the catalogue valid: it touches no movie, comment or like. */
  lemma FavoriteKeepsValid(s: CatalogState, movieId: nat, user: nat)
    requires CatalogValid(s)
    requires FavoriteStep(s, movieId, user).Ok?
    ensures CatalogValid(FavoriteStep(s, movieId, user).value.0)
  {
  }

  /** Toggling a favorite twice gives back the tables as they were. */
  lemma FavoriteTwiceRestores(s: CatalogState, movieId: nat, user: nat)
    requires movieId in s.movies
    ensures FavoriteStep(s, movieId, user).Ok?
    ensures FavoriteStep(FavoriteStep(s, movieId, user).value.0, movieId, user).Ok?
    ensures FavoriteStep(FavoriteStep(s, movieId, user).value.0, movieId, user).value.0 == s
  {
    var s1 := FavoriteStep(s, movieId, user).value.0;
    var s2 := FavoriteStep(s1, movieId, user).value.0;
    assert s2.favorites == s.favorites;
  }

  /** The favorite rows of one movie, whose number is `count_of_favorites`. */
  function FavoriteRows(favorites: set<UserMovie>, movieId: nat): (rows: set<UserMovie>)
    ensures |rows| == CountOfFavorites(favorites, movieId)
    ensures forall um :: um in rows <==> um in favorites && um.movieId == movieId
  {
    set um | um in favorites && um.movieId == movieId
  }

  /** Adding a favorite raises the movie's `count_of_favorites` by one, deleting it lowers it by one. */
  lemma FavoriteMovesCount(s: CatalogState, movieId: nat, user: nat)
    requires movieId in s.movies
    ensures var s' := FavoriteStep(s, movieId, user).value.0;
      CountOfFavorites(s'.favorites, movieId)
        == CountOfFavorites(s.favorites, movieId) + VoteChange(UserMovie(user, movieId) in s'.favorites)
  {
    var um := UserMovie(user, movieId);
    if um in s.favorites {
      assert FavoriteStep(s, movieId, user).value.0.favorites == s.favorites - {um};
      FavoriteRowsWithout(s.favorites, um);
    } else {
      assert FavoriteStep(s, movieId, user).value.0.favorites == s.favorites + {um};
      FavoriteRowsWith(s.favorites, um);
    }
  }

  lemma FavoriteRowsWithout(favorites: set<UserMovie>, um: UserMovie)
    requires um in favorites
    ensures CountOfFavorites(favorites - {um}, um.movieId) == CountOfFavorites(favorites, um.movieId) - 1
  {
    assert FavoriteRows(favorites - {um}, um.movieId) == FavoriteRows(favorites, um.movieId) - {um};
  }

  lemma FavoriteRowsWith(favorites: set<UserMovie>, um: UserMovie)
    requires um !in favorites
    ensures CountOfFavorites(favorites + {um}, um.movieId) == CountOfFavorites(favorites, um.movieId) + 1
  {
    assert FavoriteRows(favorites + {um}, um.movieId) == FavoriteRows(favorites, um.movieId) + {um};
  }

  /* --- Like/dislike ratings -------------------------------------------- */

  function RatingMessage(created: bool): string
  {
    if created then "Rating was Created" else "Rating was Deleted"
  }

  /**
   * `like_or_dislike_movie_and_delete_if_exists`: a missing movie is
   * refused, and an existing rating of the requester is deleted whatever
   * the new choice, the movie losing one vote. Otherwise the handler adds
   * one vote and inserts a row holding the request's own value, which the
   * native enum column `movie_rating.rating` must accept: it accepts no
   * request value (`ChoiceRefusedByColumn`), so the commit fails, the
   * session is rolled back and the request ends in an internal error.
   */
  function RatingStep(s: CatalogState, movieId: nat, user: nat, choice: LikeOrDislike): (r: Result<(CatalogState, string)>)
    ensures r == Err(MovieNotFound) <==> movieId !in s.movies
    ensures r == Err(InternalError) <==> movieId in s.movies && UserMovie(user, movieId) !in s.ratings
    ensures r.Ok? ==>
      var (s', message) := r.value;
      var um := UserMovie(user, movieId);
      um in s.ratings && s'.ratings == s.ratings - {um}
      && s'.movies.Keys == s.movies.Keys
      && s'.movies[movieId] == s.movies[movieId].(votes := s.movies[movieId].votes - 1)
      && (forall id | id in s.movies && id != movieId :: s'.movies[id] == s.movies[id])
      && s'.(movies := s.movies, ratings := s.ratings) == s
      && message == RatingMessage(false)
  {
    if movieId !in s.movies then Err(MovieNotFound)
    else
      var um := UserMovie(user, movieId);
      var m := s.movies[movieId];
      if um in s.ratings then
        Ok((s.(ratings := s.ratings - {um}, movies := s.movies[movieId := m.(votes := m.votes - 1)]), RatingMessage(false)))
      else
        ChoiceRefusedByColumn(choice);
        match ParseStoredRating(LikeOrDislikeValue(choice))
        case Some(v) =>
          Ok((s.(ratings := s.ratings[um := v], movies := s.movies[movieId := m.(votes := m.votes + 1)]), RatingMessage(true)))
        case None => Err(InternalError)
  }

  method RateMovie(cat: Catalog, movieId: nat, who: Requester, choice: LikeOrDislike) returns (r: Result<string>)
    modifies cat`movies, cat`ratings
    ensures Performed(RatingStep(old(cat.State()), movieId, who.profileId, choice), old(cat.State()), cat.State(), r)
    ensures old(cat.Valid()) ==> cat.Valid()
  {
    ghost var s := cat.State();
    var um := UserMovie(who.profileId, movieId);
    if movieId !in cat.movies {
      r := Err(MovieNotFound);
    } else if um in cat.ratings {
      var m := cat.movies[movieId];
      cat.ratings := cat.ratings - {um};
      cat.movies := cat.movies[movieId := m.(votes := m.votes - 1)];
      r := Ok("Rating was Deleted");
    } else {
      match ParseStoredRating(LikeOrDislikeValue(choice))
      case Some(v) =>
        var m := cat.movies[movieId];
        cat.ratings := cat.ratings[um := v];
        cat.movies := cat.movies[movieId := m.(votes := m.votes + 1)];
        r := Ok("Rating was Created");
      case None =>
        // the commit is refused and the vote added before it rolled back
        r := Err(InternalError);
    }
    assert Performed(RatingStep(s, movieId, who.profileId, choice), s, cat.State(), r);
    if CatalogValid(s) {
      RatingKeepsValid(s, movieId, who.profileId, choice);
    }
  }

  /** The tables after a rating request, whatever its outcome: a refused request changes nothing. */
  function RatingAfter(s: CatalogState, movieId: nat, user: nat, choice: LikeOrDislike): CatalogState
  {
    var r := RatingStep(s, movieId, user, choice);
    if r.Ok? then r.value.0 else s
  }

  lemma RatingKeepsValid(s: CatalogState, movieId: nat, user: nat, choice: LikeOrDislike)
    requires CatalogValid(s)
    ensures CatalogValid(RatingAfter(s, movieId, user, choice))
  {
    var s' := RatingAfter(s, movieId, user, choice);
    forall id | id in s'.movies
      ensures id in s.movies && s'.movies[id].name == s.movies[id].name
        && s'.movies[id].year == s.movies[id].year && s'.movies[id].time == s.movies[id].time
    {
    }
  }

  /** After any rating request on an existing movie the requester holds no rating of it. */
  lemma RatingLeavesNoRow(s: CatalogState, movieId: nat, user: nat, choice: LikeOrDislike)
    ensures UserMovie(user, movieId) in RatingAfter(s, movieId, user, choice).ratings
        <==> movieId !in s.movies && UserMovie(user, movieId) in s.ratings
  {
    if movieId in s.movies && UserMovie(user, movieId) in s.ratings {
      assert RatingStep(s, movieId, user, choice).Ok?;
    }
  }

  /** A second request on an existing movie, with either choice, always fails. */
  lemma RatingTwiceFails(s: CatalogState, movieId: nat, user: nat, choice: LikeOrDislike, again: LikeOrDislike)
    requires movieId in s.movies
    ensures RatingStep(RatingAfter(s, movieId, user, choice), movieId, user, again) == Err(InternalError)
  {
    RatingLeavesNoRow(s, movieId, user, choice);
    assert movieId in RatingAfter(s, movieId, user, choice).movies;
  }

  /**
   * Rating twice gives back the tables exactly when the requester had no
   * rating of the movie (or the movie is missing): a stored rating is
   * deleted and can never be stored again.
   */
  lemma RatingTwiceRestores(s: CatalogState, movieId: nat, user: nat, choice: LikeOrDislike)
    ensures RatingAfter(RatingAfter(s, movieId, user, choice), movieId, user, choice) == s
        <==> movieId !in s.movies || UserMovie(user, movieId) !in s.ratings
  {
    var um := UserMovie(user, movieId);
    var s1 := RatingAfter(s, movieId, user, choice);
    if movieId in s.movies {
      RatingTwiceFails(s, movieId, user, choice, choice);
      if um in s.ratings {
        RatingLeavesNoRow(s, movieId, user, choice);
        assert um in s.ratings && um !in s1.ratings;
      }
    }
  }

  /** The ratings rows of one movie, whose number is `count_of_ratings`. */
  function RatingRows(ratings: map<UserMovie, StoredRating>, movieId: nat): (rows: set<UserMovie>)
    ensures |rows| == CountOfRatings(ratings, movieId)
    ensures forall um :: um in rows <==> um in ratings && um.movieId == movieId
  {
    set um | um in ratings && um.movieId == movieId
  }

  /**
   * A movie's votes less its number of ratings. The handler moves both by
   * one, so this offset stays what the movie was created with.
   */
  function VoteOffset(s: CatalogState, movieId: nat): int
    requires movieId in s.movies
  {
    s.movies[movieId].votes - CountOfRatings(s.ratings, movieId)
  }

  lemma RatingKeepsVoteOffset(s: CatalogState, movieId: nat, user: nat, choice: LikeOrDislike)
    ensures var s' := RatingAfter(s, movieId, user, choice);
      forall id | id in s.movies :: id in s'.movies && VoteOffset(s', id) == VoteOffset(s, id)
  {
    var s' := RatingAfter(s, movieId, user, choice);
    if RatingStep(s, movieId, user, choice).Ok? {
      forall id | id in s.movies
        ensures id in s'.movies && VoteOffset(s', id) == VoteOffset(s, id)
      {
        RatingRowsAfterDelete(s.ratings, UserMovie(user, movieId), id);
      }
    }
  }

  lemma RatingRowsAfterDelete(ratings: map<UserMovie, StoredRating>, um: UserMovie, id: nat)
    requires um in ratings
    ensures CountOfRatings(ratings - {um}, id) == CountOfRatings(ratings, id) - (if um.movieId == id then 1 else 0)
  {
    var before := RatingRows(ratings, id);
    var after := RatingRows(ratings - {um}, id);
    if um.movieId == id {
      assert after == before - {um};
    } else {
      assert after == before;
    }
  }

  /* --- Star rates ------------------------------------------------------ */

  function StarRateMessage(created: bool): string
  {
    if created then "Stars rate was created" else "Stars rate was deleted"
  }

  /**
   * `rate_movie_from_0_to_10_or_delete_rate_if_exists`: a missing movie is
   * refused; an existing star rate of the requester is deleted, otherwise
   * the validated rate is stored. No counter moves.
   */
  function StarRateStep(s: CatalogState, movieId: nat, user: nat, rate: StarRate): (r: Result<(CatalogState, string)>)
    ensures r.Err? <==> movieId !in s.movies
    ensures r.Err? ==> r.error == MovieNotFound
    ensures r.Ok? ==>
      var (s', message) := r.value;
      var um := UserMovie(user, movieId);
      var created := um in s'.starRates;
      created == (um !in s.starRates)
      && (created ==> s'.starRates == s.starRates[um := rate.rate])
      && (!created ==> s'.starRates == s.starRates - {um})
      && s'.(starRates := s.starRates) == s
      && message == StarRateMessage(created)
  {
    if movieId !in s.movies then Err(MovieNotFound)
    else
      var um := UserMovie(user, movieId);
      if um in s.starRates then Ok((s.(starRates := s.starRates - {um}), StarRateMessage(false)))
      else Ok((s.(starRates := s.starRates[um := rate.rate]), StarRateMessage(true)))
  }

  method RateInStars(cat: Catalog, movieId: nat, who: Requester, rate: StarRate) returns (r: Result<string>)
    modifies cat`starRates
    ensures Performed(StarRateStep(old(cat.State()), movieId, who.profileId, rate), old(cat.State()), cat.State(), r)
    ensures old(cat.Valid()) ==> cat.Valid()
  {
    if cat.Valid() && StarRateStep(cat.State(), movieId, who.profileId, rate).Ok? {
      StarRateKeepsValid(cat.State(), movieId, who.profileId, rate);
    }
    if movieId !in cat.movies {
      return Err(MovieNotFound);
    }
    var um := UserMovie(who.profileId, movieId);
    if um !in cat.starRates {
      cat.starRates := cat.starRates[um := rate.rate];
      r := Ok("Stars rate was created");
    } else {
      cat.starRates := cat.starRates - {um};
      r := Ok("Stars rate was deleted");
    }
  }

  /** The star-rate toggle keeps the catalogue valid: it touches no movie, comment or like. */
  lemma StarRateKeepsValid(s: CatalogState, movieId: nat, user: nat, rate: StarRate)
    requires CatalogValid(s)
    requires StarRateStep(s, movieId, user, rate).Ok?
    ensures CatalogValid(StarRateStep(s, movieId, user, rate).value.0)
  {
  }

  /** Every stored star rate lies in 0..10. */
  predicate StarRatesInRange(s: CatalogState)
  {
    forall um | um in s.starRates :: 0 <= s.starRates[um] <= 10
  }

  /** A validated rate keeps every stored star rate within 0..10. */
  lemma StarRateKeepsRange(s: CatalogState, movieId: nat, user: nat, rate: int)
    requires StarRatesInRange(s)
    requires ParseStarRate(rate).Some?
    requires movieId in s.movies
    ensures StarRatesInRange(StarRateStep(s, movieId, user, ParseStarRate(rate).value).value.0)
  {
  }

  /**
   * Rating in stars twice with the same rate gives back the tables exactly
   * when the requester had no rate or had stored that same rate.
   */
  lemma StarRateTwiceRestores(s: CatalogState, movieId: nat, user: nat, rate: StarRate)
    requires movieId in s.movies
    ensures StarRateStep(s, movieId, user, rate).Ok?
    ensures StarRateStep(StarRateStep(s, movieId, user, rate).value.0, movieId, user, rate).Ok?
    ensures StarRateStep(StarRateStep(s, movieId, user, rate).value.0, movieId, user, rate).value.0 == s
        <==> (UserMovie(user, movieId) in s.starRates ==> s.starRates[UserMovie(user, movieId)] == rate.rate)
  {
    var um := UserMovie(user, movieId);
    var s1 := StarRateStep(s, movieId, user, rate).value.0;
    var s2 := StarRateStep(s1, movieId, user, rate).value.0;
    if um in s.starRates {
      assert s2.starRates[um] == rate.rate;
      if s.starRates[um] == rate.rate {
        assert s2.starRates == s.starRates;
      }
    } else {
      assert s2.starRates == s.starRates;
    }
  }

  /* --- Deleting a comment ---------------------------------------------- */

  /**
   * `delete_comment`: refused to base-role users and for a missing
   * comment; otherwise the comment goes, and with it (the relationship's
   * delete-orphan cascade) its likes and its replies.
   */
  function DeleteCommentStep(s: CatalogState, who: Requester, commentId: nat): (r: Result<(CatalogState, string)>)
    ensures IsBaseRole(who.role) ==> r == Err(UserDontHavePermission)
    ensures !IsBaseRole(who.role) && commentId !in s.comments ==> r == Err(CommentNotFound)
    ensures r.Ok? <==> !IsBaseRole(who.role) && commentId in s.comments
    ensures r.Ok? ==>
      var (s', message) := r.value;
      s'.comments == s.comments - {commentId}
      && (forall l :: l in s'.commentLikes <==> l in s.commentLikes && l.commentId != commentId)
      && (forall id :: id in s'.replies <==> id in s.replies && s.replies[id].commentId != commentId)
      && (forall id | id in s'.replies :: s'.replies[id] == s.replies[id])
      && s'.(comments := s.comments, commentLikes := s.commentLikes, replies := s.replies) == s
      && message == "Comment was successfully deleted"
  {
    if IsBaseRole(who.role) then Err(UserDontHavePermission)
    else if commentId !in s.comments then Err(CommentNotFound)
    else
      Ok((s.(comments := s.comments - {commentId},
             commentLikes := (set l | l in s.commentLikes && l.commentId != commentId),
             replies := (map id | id in s.replies && s.replies[id].commentId != commentId :: s.replies[id])),
          "Comment was successfully deleted"))
  }

  method DeleteComment(cat: Catalog, who: Requester, commentId: nat) returns (r: Result<string>)
    modifies cat`comments, cat`commentLikes, cat`replies
    ensures Performed(DeleteCommentStep(old(cat.State()), who, commentId), old(cat.State()), cat.State(), r)
    ensures old(cat.Valid()) ==> cat.Valid()
  {
    ghost var s := cat.State();
    if IsBaseRole(who.role) {
      return Err(UserDontHavePermission);
    }
    if commentId !in cat.comments {
      return Err(CommentNotFound);
    }
    cat.commentLikes := set l | l in cat.commentLikes && l.commentId != commentId;
    cat.replies := map id | id in cat.replies && cat.replies[id].commentId != commentId :: cat.replies[id];
    cat.comments := cat.comments - {commentId};
    r := Ok("Comment was successfully deleted");
    if CatalogValid(s) {
      DeleteCommentKeepsValid(s, who, commentId);
    }
  }

  /** Deleting a comment keeps the catalogue valid and every other comment's votes equal to its likers. */
  lemma DeleteCommentKeepsInvariants(s: CatalogState, who: Requester, commentId: nat)
    requires CatalogValid(s) && VotesCountLikes(s)
    requires DeleteCommentStep(s, who, commentId).Ok?
    ensures CatalogValid(DeleteCommentStep(s, who, commentId).value.0)
    ensures VotesCountLikes(DeleteCommentStep(s, who, commentId).value.0)
  {
    var s' := DeleteCommentStep(s, who, commentId).value.0;
    forall id | id in s'.comments
      ensures LikersOf(s'.commentLikes, id) == LikersOf(s.commentLikes, id)
    {
      assert forall l: CommentLike | l.commentId == id :: l in s'.commentLikes <==> l in s.commentLikes;
    }
  }

  /** Deleting a comment keeps the catalogue valid: the likes of the comment go with it. */
  lemma DeleteCommentKeepsValid(s: CatalogState, who: Requester, commentId: nat)
    requires CatalogValid(s)
    requires DeleteCommentStep(s, who, commentId).Ok?
    ensures CatalogValid(DeleteCommentStep(s, who, commentId).value.0)
  {
  }

  /** The comment-like toggle keeps the catalogue valid: a new like points at its comment. */
  lemma LikeCommentKeepsValid(s: CatalogState, commentId: nat, user: nat)
    requires CatalogValid(s)
    requires LikeCommentStep(s, commentId, user).Ok?
    ensures CatalogValid(LikeCommentStep(s, commentId, user).value.0)
  {
  }

  /** The reply-like toggle keeps the catalogue valid, since a like without its comment is refused. */
  lemma LikeReplyKeepsValid(s: CatalogState, replyId: nat, user: nat)
    requires CatalogValid(s)
    requires LikeReplyStep(s, replyId, user).Ok?
    ensures CatalogValid(LikeReplyStep(s, replyId, user).value.0)
  {
  }

  /* --- Creating a movie ------------------------------------------------ */

  /** Another movie already has this (name, year, time). */
  predicate TitleTaken(movies: map<nat, Movie>, except: nat, t: Title)
  {
    exists id | id in movies && id != except :: TitleOf(movies[id]) == t
  }

  /** The ids of `ids` that name a row of the table: `Table.id.in_(ids)`. */
  function Existing(table: set<nat>, ids: seq<nat>): (r: set<nat>)
    ensures forall x :: x in r <==> x in table && x in ids
  {
    set x | x in table && x in ids
  }

  /**
   * The row `movie_create` builds: the image is not passed on, and only the
   * genre, star and director ids that exist are linked. A price left out is
   * stored as 0 cents.
   */
  function NewMovie(s: CatalogState, data: MovieCreate): (m: Movie)
    ensures m.image.None? && m.certificationId == Some(data.certificationId)
    ensures TitleOf(m) == Title(data.name, data.year, data.time)
    ensures m.genreIds <= s.genres && m.starIds <= s.stars && m.directorIds <= s.directors
  {
    Movie(data.name, data.year, data.time, None, data.imdb, data.votes, data.metaScore, data.gross,
          data.description, if data.price.Some? then data.price.value else 0, Some(data.certificationId),
          Existing(s.genres, data.genreIds), Existing(s.directors, data.directorIds), Existing(s.stars, data.starIds))
  }

  /**
   * `movie_create`: refused to base-role users; otherwise the movie is
   * inserted under the next id. The commit fails on an unknown
   * certification, a taken (name, year, time) or a taken id.
   */
  function CreateMovieStep(s: CatalogState, who: Requester, data: MovieCreate): (r: Result<(CatalogState, nat)>)
    ensures IsBaseRole(who.role) <==> r == Err(UserDontHavePermission)
    ensures r.Ok? <==>
      !IsBaseRole(who.role)
      && data.certificationId in s.certifications
      && !TitleTaken(s.movies, s.nextMovieId, Title(data.name, data.year, data.time))
      && s.nextMovieId !in s.movies
    ensures r.Err? && !IsBaseRole(who.role) ==> r.error == InternalError
    ensures r.Ok? ==>
      var (s', id) := r.value;
      id == s.nextMovieId && id !in s.movies
      && s'.movies == s.movies[id := NewMovie(s, data)]
      && s'.nextMovieId == id + 1
      && s'.(movies := s.movies, nextMovieId := s.nextMovieId) == s
  {
    if IsBaseRole(who.role) then Err(UserDontHavePermission)
    else
      var id := s.nextMovieId;
      var m := NewMovie(s, data);
      if data.certificationId !in s.certifications || TitleTaken(s.movies, id, TitleOf(m)) || id in s.movies then
        Err(InternalError)
      else
        Ok((s.(movies := s.movies[id := m], nextMovieId := id + 1), id))
  }

  method CreateMovie(cat: Catalog, who: Requester, data: MovieCreate) returns (r: Result<nat>)
    modifies cat`movies, cat`nextMovieId
    ensures Performed(CreateMovieStep(old(cat.State()), who, data), old(cat.State()), cat.State(), r)
    ensures old(cat.Valid()) ==> cat.Valid()
  {
    if cat.Valid() {
      CreateMovieKeepsValid(cat.State(), who, data);
    }
    if IsBaseRole(who.role) {
      return Err(UserDontHavePermission);
    }
    var id := cat.nextMovieId;
    var m := NewMovie(cat.State(), data);
    if data.certificationId !in cat.certifications || TitleTaken(cat.movies, id, TitleOf(m)) || id in cat.movies {
      return Err(InternalError);
    }
    cat.movies := cat.movies[id := m];
    cat.nextMovieId := id + 1;
    r := Ok(id);
  }

  /**
   * On a valid catalogue the id is always fresh, so a moderator's create
   * fails only on the certification or the title, and it keeps the
   * catalogue valid.
   */
  lemma CreateMovieKeepsValid(s: CatalogState, who: Requester, data: MovieCreate)
    requires CatalogValid(s)
    ensures CreateMovieStep(s, who, data).Ok? <==>
      !IsBaseRole(who.role) && data.certificationId in s.certifications
      && !TitleTaken(s.movies, s.nextMovieId, Title(data.name, data.year, data.time))
    ensures CreateMovieStep(s, who, data).Ok? ==> CatalogValid(CreateMovieStep(s, who, data).value.0)
  {
    if CreateMovieStep(s, who, data).Ok? {
      var s' := CreateMovieStep(s, who, data).value.0;
      var id := s.nextMovieId;
      forall a, b | a in s'.movies && b in s'.movies && a != b
        ensures TitleOf(s'.movies[a]) != TitleOf(s'.movies[b])
      {
        if a == id {
          assert !(b in s.movies && b != id && TitleOf(s.movies[b]) == TitleOf(NewMovie(s, data)));
        } else if b == id {
          assert !(a in s.movies && a != id && TitleOf(s.movies[a]) == TitleOf(NewMovie(s, data)));
        }
      }
    }
  }

  /* --- Deleting a movie ------------------------------------------------ */

  const MovieInCartMessage := "You can not delete the movie because it is in user's cart"

  /**
   * `delete_movie`: refused to base-role users and for a missing movie; a
   * movie that is in any cart stays, with a refusal message; otherwise it is
   * deleted, and the commit fails when an order item still refers to it
   * (the foreign key of `order_items.movie_id` has no cascade).
   */
  function DeleteMovieStep(s: CatalogState, cartItems: seq<CartItem>, orderItems: seq<OrderItem>,
                           who: Requester, movieId: nat): (r: Result<(CatalogState, string)>)
    ensures IsBaseRole(who.role) <==> r == Err(UserDontHavePermission)
    ensures !IsBaseRole(who.role) && movieId !in s.movies ==> r == Err(MovieNotFound)
    ensures r == Err(InternalError) <==>
      !IsBaseRole(who.role) && movieId in s.movies
      && (forall ci | ci in cartItems :: ci.movieId != movieId)
      && (exists oi | oi in orderItems :: oi.movieId == movieId)
    ensures r.Ok? && (exists ci | ci in cartItems :: ci.movieId == movieId) ==> r.value == (s, MovieInCartMessage)
    ensures r.Ok? && r.value.1 != MovieInCartMessage ==>
      r.value.0 == s.(movies := s.movies - {movieId})
      && movieId in s.movies && movieId !in r.value.0.movies
      && r.value.1 == "Movie was successfully deleted."    ensures r == Err(MovieNotFound) <==> !IsBaseRole(who.role) && movieId !in s.movies
    ensures r == Ok((s, MovieInCartMessage)) <==>
      !IsBaseRole(who.role) && movieId in s.movies && exists ci | ci in cartItems :: ci.movieId == movieId
    ensures r == Ok((s.(movies := s.movies - {movieId}), "Movie was successfully deleted.")) <==>
      !IsBaseRole(who.role) && movieId in s.movies
      && (forall ci | ci in cartItems :: ci.movieId != movieId)
      && (forall oi | oi in orderItems :: oi.movieId != movieId)
  {
    if IsBaseRole(who.role) then Err(UserDontHavePermission)
    else if movieId !in s.movies then Err(MovieNotFound)
    else if exists ci | ci in cartItems :: ci.movieId == movieId then Ok((s, MovieInCartMessage))
    else if exists oi | oi in orderItems :: oi.movieId == movieId then Err(InternalError)
    else Ok((s.(movies := s.movies - {movieId}), "Movie was successfully deleted."))
  }

  method DeleteMovie(cat: Catalog, db: Db, who: Requester, movieId: nat) returns (r: Result<string>)
    modifies cat`movies
    ensures Performed(DeleteMovieStep(old(cat.State()), db.cartItems, db.orderItems, who, movieId),
                      old(cat.State()), cat.State(), r)
    ensures old(cat.Valid()) ==> cat.Valid()
  {
    if cat.Valid() && DeleteMovieStep(cat.State(), db.cartItems, db.orderItems, who, movieId).Ok? {
      DeleteMovieKeepsValid(cat.State(), db.cartItems, db.orderItems, who, movieId);
    }
    if IsBaseRole(who.role) {
      return Err(UserDontHavePermission);
    }
    if movieId !in cat.movies {
      return Err(MovieNotFound);
    }
    if exists ci | ci in db.cartItems :: ci.movieId == movieId {
      return Ok(MovieInCartMessage);
    }
    if exists oi | oi in db.orderItems :: oi.movieId == movieId {
      return Err(InternalError);
    }
    cat.movies := cat.movies - {movieId};
    r := Ok("Movie was successfully deleted.");
  }

  /** Deleting a movie keeps the catalogue valid. */
  lemma DeleteMovieKeepsValid(s: CatalogState, cartItems: seq<CartItem>, orderItems: seq<OrderItem>,
                              who: Requester, movieId: nat)
    requires CatalogValid(s)
    requires DeleteMovieStep(s, cartItems, orderItems, who, movieId).Ok?
    ensures CatalogValid(DeleteMovieStep(s, cartItems, orderItems, who, movieId).value.0)
  {
  }

  /* --- Updating a movie ------------------------------------------------ */

  /** `setattr(movie, field, value)` for a column field; a relationship field is no column and leaves the row as it is. */
  function SetAttr(m: Movie, f: FieldValue): Movie
  {
    match f
    case NameField(x) => m.(name := x)
    case YearField(x) => m.(year := x)
    case TimeField(x) => m.(time := x)
    case ImdbField(x) => m.(imdb := x)
    case ImageField(x) => m.(image := Some(x))
    case MetaScoreField(x) => m.(metaScore := Some(x))
    case GrossField(x) => m.(gross := Some(x))
    case DescriptionField(x) => m.(description := x)
    case PriceField(x) => m.(price := x)
    case CertificationField(x) => m.(certificationId := Some(x))
    case GenreIdsField(_) => m
    case StarIdsField(_) => m
    case DirectorIdsField(_) => m
  }

  /** The field loop of `update_movie` run over `fields`, skipping the id lists. */
  function ApplyFields(m: Movie, fields: seq<FieldValue>): Movie
  {
    if fields == [] then m
    else
      var before := ApplyFields(m, fields[..|fields| - 1]);
      var f := fields[|fields| - 1];
      if IsIdListField(f) then before else SetAttr(before, f)
  }

  function Or<T>(o: Option<T>, default: T): T
  {
    if o.Some? then o.value else default
  }

  function OrKeep<T>(o: Option<T>, default: Option<T>): Option<T>
  {
    if o.Some? then o else default
  }

  /**
   * The movie with each column the update provides replaced by the
   * provided value and every other column kept: the reference the field
   * loop is proved against.
   */
  function Merged(m: Movie, u: MovieUpdate): Movie
  {
    m.(name := Or(u.name, m.name), year := Or(u.year, m.year), time := Or(u.time, m.time),
       imdb := Or(u.imdb, m.imdb), image := OrKeep(u.image, m.image),
       metaScore := OrKeep(u.metaScore, m.metaScore), gross := OrKeep(u.gross, m.gross),
       description := Or(u.description, m.description), price := Or(u.price, m.price),
       certificationId := OrKeep(u.certificationId, m.certificationId))
  }

  /** The loop over the name, year and time items sets those columns. */
  lemma NameYearTimeApplied(m: Movie, u: MovieUpdate)
    ensures ApplyFields(m, NameItem(u) + YearItem(u) + TimeItem(u))
         == m.(name := Or(u.name, m.name), year := Or(u.year, m.year), time := Or(u.time, m.time))
  {
    var p1 := NameItem(u);
    var p2 := YearItem(u);
    var p3 := TimeItem(u);
    var m1 := StepPart(m, p1);
    assert m1 == m.(name := Or(u.name, m.name)) by {
      if u.name.Some? { assert p1 == [NameField(u.name.value)]; }
    }
    var m2 := StepPart(m1, p2);
    assert m2 == m1.(year := Or(u.year, m.year)) by {
      if u.year.Some? { assert p2 == [YearField(u.year.value)]; }
    }
    var m3 := StepPart(m2, p3);
    assert m3 == m2.(time := Or(u.time, m.time)) by {
      if u.time.Some? { assert p3 == [TimeField(u.time.value)]; }
    }
    ThreeParts(m, p1, p2, p3);
  }

  /** The loop over the name, year, time, imdb and image items sets those columns. */
  lemma FirstColumnsApplied(m: Movie, u: MovieUpdate)
    ensures ApplyFields(m, FirstColumns(u)) == m.(name := Or(u.name, m.name), year := Or(u.year, m.year), time := Or(u.time, m.time), imdb := Or(u.imdb, m.imdb), image := OrKeep(u.image, m.image))
  {
    var p123 := NameItem(u) + YearItem(u) + TimeItem(u);
    var p4 := ImdbItem(u);
    var p5 := ImageItem(u);
    var m3 := m.(name := Or(u.name, m.name), year := Or(u.year, m.year), time := Or(u.time, m.time));
    NameYearTimeApplied(m, u);
    var m4 := StepPart(m3, p4);
    assert m4 == m3.(imdb := Or(u.imdb, m.imdb)) by {
      if u.imdb.Some? { assert p4 == [ImdbField(u.imdb.value)]; }
    }
    var m5 := StepPart(m4, p5);
    assert m5 == m4.(image := OrKeep(u.image, m.image)) by {
      if u.image.Some? { assert p5 == [ImageField(u.image.value)]; }
    }
    ApplyFieldsAppend(m, p123, p4);
    OnePart(m3, p4);
    ApplyFieldsAppend(m, p123 + p4, p5);
    OnePart(m4, p5);
  }

  /** The loop over the meta score, gross and description items sets those columns. */
  lemma ScoreColumnsApplied(m: Movie, u: MovieUpdate)
    ensures ApplyFields(m, ScoreColumns(u)) == m.(metaScore := OrKeep(u.metaScore, m.metaScore), gross := OrKeep(u.gross, m.gross), description := Or(u.description, m.description))
  {
    var p1 := MetaScoreItem(u);
    var p2 := GrossItem(u);
    var p3 := DescriptionItem(u);
    var m1 := StepPart(m, p1);
    assert m1 == m.(metaScore := OrKeep(u.metaScore, m.metaScore)) by {
      if u.metaScore.Some? { assert p1 == [MetaScoreField(u.metaScore.value)]; }
    }
    var m2 := StepPart(m1, p2);
    assert m2 == m1.(gross := OrKeep(u.gross, m.gross)) by {
      if u.gross.Some? { assert p2 == [GrossField(u.gross.value)]; }
    }
    var m3 := StepPart(m2, p3);
    assert m3 == m2.(description := Or(u.description, m.description)) by {
      if u.description.Some? { assert p3 == [DescriptionField(u.description.value)]; }
    }
    ThreeParts(m, p1, p2, p3);
  }

  /** The loop over the price and certification items sets those columns. */
  lemma SaleColumnsApplied(m: Movie, u: MovieUpdate)
    ensures ApplyFields(m, SaleColumns(u)) == m.(price := Or(u.price, m.price), certificationId := OrKeep(u.certificationId, m.certificationId))
  {
    var p1 := PriceItem(u);
    var p2 := CertificationItem(u);
    ApplyFieldsAppend(m, p1, p2);
    OnePart(m, p1);
    OnePart(StepPart(m, p1), p2);
  }

  /** The loop skips the id-list items. */
  lemma IdListsApplied(m: Movie, u: MovieUpdate)
    ensures ApplyFields(m, IdLists(u)) == m
  {
    ThreeParts(m, GenreIdsItem(u), StarIdsItem(u), DirectorIdsItem(u));
  }

  /** One pass of the loop body over at most one item. */
  function StepPart(m: Movie, p: seq<FieldValue>): Movie
    requires |p| <= 1
  {
    if p == [] || IsIdListField(p[0]) then m else SetAttr(m, p[0])
  }

  /** The loop over at most one item sets its column, or skips it when it is an id list. */
  lemma OnePart(m: Movie, p: seq<FieldValue>)
    requires |p| <= 1
    ensures ApplyFields(m, p) == StepPart(m, p)
  {
    if p != [] {
      assert p[..0] == [];
    }
  }

  /** The loop over three pieces of at most one item each. */
  lemma ThreeParts(m: Movie, p1: seq<FieldValue>, p2: seq<FieldValue>, p3: seq<FieldValue>)
    requires |p1| <= 1 && |p2| <= 1 && |p3| <= 1
    ensures ApplyFields(m, p1 + p2 + p3) == StepPart(StepPart(StepPart(m, p1), p2), p3)
  {
    ApplyFieldsAppend(m, p1 + p2, p3);
    ApplyFieldsAppend(m, p1, p2);
    OnePart(m, p1);
    OnePart(StepPart(m, p1), p2);
    OnePart(StepPart(StepPart(m, p1), p2), p3);
  }

  /** Running the loop over two pieces of a dump runs it over the first, then from there over the second. */
  lemma {:induction false} ApplyFieldsAppend(m: Movie, a: seq<FieldValue>, b: seq<FieldValue>)
    ensures ApplyFields(m, a + b) == ApplyFields(ApplyFields(m, a), b)
  {
    if b == [] {
      assert a + b == a;
    } else {
      var b' := b[..|b| - 1];
      ApplyFieldsAppend(m, a, b');
      assert (a + b)[..|a + b| - 1] == a + b';
      assert (a + b)[|a + b| - 1] == b[|b| - 1];
    }
  }

  /** The loop over the dump of an update yields the merged movie. */
  lemma DumpIsMerge(m: Movie, u: MovieUpdate)
    ensures ApplyFields(m, Dump(u)) == Merged(m, u)
  {
    var first := ApplyFields(m, FirstColumns(u));
    var score := ApplyFields(first, ScoreColumns(u));
    var sale := ApplyFields(score, SaleColumns(u));
    ApplyFieldsAppend(m, FirstColumns(u), ScoreColumns(u));
    ApplyFieldsAppend(m, FirstColumns(u) + ScoreColumns(u), SaleColumns(u));
    ApplyFieldsAppend(m, FirstColumns(u) + ScoreColumns(u) + SaleColumns(u), IdLists(u));
    FirstColumnsApplied(m, u);
    ScoreColumnsApplied(first, u);
    SaleColumnsApplied(score, u);
    IdListsApplied(sale, u);
  }

  /** The `setattr` loop of `update_movie` over a list of dump items, the id lists skipped. */
  method SetAttrLoop(m: Movie, fields: seq<FieldValue>) returns (r: Movie)
    ensures r == ApplyFields(m, fields)
  {
    r := m;
    for i := 0 to |fields|
      invariant r == ApplyFields(m, fields[..i])
    {
      assert fields[..i + 1][..i] == fields[..i];
      if !IsIdListField(fields[i]) {
        r := SetAttr(r, fields[i]);
      }
    }
    assert fields[..|fields|] == fields;
  }

  /**
   * The `setattr` loop of `update_movie` over the dump of the update: every
   * column the update provides is replaced and every other one is kept.
   */
  method ApplyUpdate(m: Movie, u: MovieUpdate) returns (r: Movie)
    ensures r == Merged(m, u)
  {
    r := SetAttrLoop(m, Dump(u));
    DumpIsMerge(m, u);
  }

  /** An id list replaces the relationship only when it is non-empty, and then by its existing ids. */
  function Relink(table: set<nat>, ids: Option<seq<nat>>, current: set<nat>): (r: set<nat>)
    ensures ids.None? || ids.value == [] ==> r == current
    ensures ids.Some? && ids.value != [] ==> forall x :: x in r <==> x in table && x in ids.value
  {
    if ids.Some? && ids.value != [] then Existing(table, ids.value) else current
  }

  /** The movie `update_movie` commits. */
  function UpdatedMovie(s: CatalogState, m: Movie, u: MovieUpdate): Movie
  {
    var merged := Merged(m, u);
    merged.(genreIds := Relink(s.genres, u.genreIds, m.genreIds),
            directorIds := Relink(s.directors, u.directorIds, m.directorIds),
            starIds := Relink(s.stars, u.starIds, m.starIds))
  }

  /**
   * `update_movie`: refused to base-role users and for a missing movie;
   * otherwise the provided columns are replaced and the non-empty id lists
   * relinked. The commit fails on an unknown certification or a title
   * another movie has.
   */
  function UpdateMovieStep(s: CatalogState, who: Requester, movieId: nat, u: MovieUpdate): (r: Result<(CatalogState, Movie)>)
    ensures IsBaseRole(who.role) <==> r == Err(UserDontHavePermission)
    ensures !IsBaseRole(who.role) && movieId !in s.movies ==> r == Err(MovieNotFound)
    ensures r.Ok? <==>
      !IsBaseRole(who.role) && movieId in s.movies
      && (u.certificationId.Some? ==> u.certificationId.value in s.certifications)
      && !TitleTaken(s.movies, movieId, TitleOf(UpdatedMovie(s, s.movies[movieId], u)))
    ensures r.Ok? ==>
      var (s', m') := r.value;
      var m := s.movies[movieId];
      s' == s.(movies := s.movies[movieId := m'])
      && m'.votes == m.votes
      && m'.(genreIds := m.genreIds, directorIds := m.directorIds, starIds := m.starIds) == Merged(m, u)
      && m'.genreIds == Relink(s.genres, u.genreIds, m.genreIds)
      && m'.directorIds == Relink(s.directors, u.directorIds, m.directorIds)
      && m'.starIds == Relink(s.stars, u.starIds, m.starIds)
  {
    if IsBaseRole(who.role) then Err(UserDontHavePermission)
    else if movieId !in s.movies then Err(MovieNotFound)
    else
      var m' := UpdatedMovie(s, s.movies[movieId], u);
      if (u.certificationId.Some? && u.certificationId.value !in s.certifications) || TitleTaken(s.movies, movieId, TitleOf(m')) then
        Err(InternalError)
      else
        Ok((s.(movies := s.movies[movieId := m']), m'))
  }

  method UpdateMovie(cat: Catalog, who: Requester, movieId: nat, u: MovieUpdate) returns (r: Result<Movie>)
    modifies cat`movies
    ensures Performed(UpdateMovieStep(old(cat.State()), who, movieId, u), old(cat.State()), cat.State(), r)
    ensures old(cat.Valid()) ==> cat.Valid()
  {
    ghost var s := cat.State();
    if IsBaseRole(who.role) {
      return Err(UserDontHavePermission);
    }
    if movieId !in cat.movies {
      return Err(MovieNotFound);
    }
    var m := cat.movies[movieId];
    var m' := ApplyUpdate(m, u);
    if u.genreIds.Some? && u.genreIds.value != [] {
      m' := m'.(genreIds := Existing(cat.genres, u.genreIds.value));
    }
    if u.directorIds.Some? && u.directorIds.value != [] {
      m' := m'.(directorIds := Existing(cat.directors, u.directorIds.value));
    }
    if u.starIds.Some? && u.starIds.value != [] {
      m' := m'.(starIds := Existing(cat.stars, u.starIds.value));
    }
    assert m' == UpdatedMovie(cat.State(), m, u);
    if (u.certificationId.Some? && u.certificationId.value !in cat.certifications) || TitleTaken(cat.movies, movieId, TitleOf(m')) {
      return Err(InternalError);
    }
    cat.movies := cat.movies[movieId := m'];
    r := Ok(m');
    if CatalogValid(s) {
      UpdateMovieKeepsValid(s, who, movieId, u);
    }
  }

  /** The update `{}` commits the movie unchanged on a valid catalogue. */
  lemma EmptyUpdateChangesNothing(s: CatalogState, who: Requester, movieId: nat)
    requires CatalogValid(s)
    requires !IsBaseRole(who.role) && movieId in s.movies
    ensures UpdateMovieStep(s, who, movieId, EmptyUpdate) == Ok((s, s.movies[movieId]))
  {
    var m := s.movies[movieId];
    assert UpdatedMovie(s, m, EmptyUpdate) == m;
    assert s.movies[movieId := m] == s.movies;
  }

  /** A successful update keeps the catalogue valid. */
  lemma UpdateMovieKeepsValid(s: CatalogState, who: Requester, movieId: nat, u: MovieUpdate)
    requires CatalogValid(s)
    requires UpdateMovieStep(s, who, movieId, u).Ok?
    ensures CatalogValid(UpdateMovieStep(s, who, movieId, u).value.0)
  {
    var s' := UpdateMovieStep(s, who, movieId, u).value.0;
    var m' := UpdateMovieStep(s, who, movieId, u).value.1;
    forall a, b | a in s'.movies && b in s'.movies && a != b
      ensures TitleOf(s'.movies[a]) != TitleOf(s'.movies[b])
    {
      if a == movieId {
        assert !(b in s.movies && b != movieId && TitleOf(s.movies[b]) == TitleOf(m'));
      } else if b == movieId {
        assert !(a in s.movies && a != movieId && TitleOf(s.movies[a]) == TitleOf(m'));
      }
    }
  }
}
