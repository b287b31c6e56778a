/** The movie, review and comment handlers of Endpoints.cs as operations on
    three tables. Reviews are scoped by their movie and comments by their
    review and that review's movie; a movie may be edited by its owner or an
    Admin; updates overwrite the editable fields. Row ids come from identity
    columns, modelled as one counter per table. A review requires its movie
    and a comment its review, so deleting a row deletes the rows below it
    (Entity Framework's cascade for required relationships). */
module Resources {
  import opened Common
  import opened Validators
  import Auth

  /** The authenticated caller: the "sub" claim (null when absent) and roles. */
  datatype Principal = Principal(sub: Option<string>, roles: set<string>)

  datatype Movie = Movie(id: int, name: Option<string>, description: Option<string>,
                         director: Option<string>, actors: Option<string>, releaseYear: int,
                         duration: int, genre: Option<string>, userId: Option<string>)

  datatype Review = Review(id: int, text: Option<string>, evaluation: int, date: int,
                           movieId: int, userId: Option<string>)

  datatype Comment = Comment(id: int, text: Option<string>, date: int, reviewId: int,
                             userId: Option<string>)

  /** The caller's "sub" claim; an anonymous caller has none. */
  function SubOf(caller: Option<Principal>): Option<string>
  {
    if caller.Some? then caller.value.sub else None
  }

  /** What [Authorize(Roles = PlatformUser)] lets through. */
  function Authorization(caller: Option<Principal>): (s: Option<Status>)
    ensures s.None? <==> caller.Some? && Auth.PlatformUser in caller.value.roles
  {
    if caller.None? then Some(Unauthorized)
    else if Auth.PlatformUser !in caller.value.roles then Some(Forbidden)
    else None
  }

  /** The review lookup of the review routes: the review exists and belongs
      to the movie of the route. */
  predicate ReviewInScope(reviews: map<int, Review>, movieId: int, reviewId: int)
  {
    reviewId in reviews && reviews[reviewId].movieId == movieId
  }

  /** The comment lookup of the comment routes: the comment exists, belongs
      to the review of the route, and that review belongs to the movie of
      the route. */
  predicate CommentInScope(reviews: map<int, Review>, comments: map<int, Comment>,
                           movieId: int, reviewId: int, commentId: int)
  {
    && commentId in comments
    && comments[commentId].reviewId == reviewId
    && ReviewInScope(reviews, movieId, reviewId)
  }

  /** The edit check: an Admin, or the caller whose sub is the movie's owner
      (C# string comparison: two nulls are equal). */
  predicate MayEdit(caller: Principal, movie: Movie)
  {
    Auth.Admin in caller.roles || caller.sub == movie.userId
  }

  /** The route of a review or comment is determined by the row: no review
      is reachable under two movies, no comment under two reviews or movies. */
  lemma ScopeIsUnique(reviews: map<int, Review>, comments: map<int, Comment>,
                      m1: int, r1: int, m2: int, r2: int, commentId: int)
    ensures ReviewInScope(reviews, m1, r1) && ReviewInScope(reviews, m2, r1) ==> m1 == m2
    ensures (CommentInScope(reviews, comments, m1, r1, commentId)
             && CommentInScope(reviews, comments, m2, r2, commentId)) ==> m1 == m2 && r1 == r2
  {
  }

  /** The update handlers keep every row under the route it was reachable
      from: overwriting text, evaluation and date moves no review to another
      movie and no comment to another review. */
  lemma UpdatesKeepScope(reviews: map<int, Review>, comments: map<int, Comment>, reviewId: int,
                         commentId: int, text: Option<string>, evaluation: int, now: int,
                         movieId: int, routeReviewId: int, routeCommentId: int)
    requires reviewId in reviews && commentId in comments
    ensures var reviews' := reviews[reviewId := reviews[reviewId].(text := text, evaluation := evaluation, date := now)];
            ReviewInScope(reviews', movieId, routeReviewId) <==> ReviewInScope(reviews, movieId, routeReviewId)
    ensures var comments' := comments[commentId := comments[commentId].(text := text, date := now)];
            CommentInScope(reviews, comments', movieId, routeReviewId, routeCommentId)
            <==> CommentInScope(reviews, comments, movieId, routeReviewId, routeCommentId)
  {
  }

  /** A comment in scope hangs off a review in scope for the same route. */
  lemma CommentScopeNestsInReviewScope(reviews: map<int, Review>, comments: map<int, Comment>,
                                       movieId: int, reviewId: int, commentId: int)
    requires CommentInScope(reviews, comments, movieId, reviewId, commentId)
    ensures ReviewInScope(reviews, movieId, comments[commentId].reviewId)
  {
  }

  /** Referential integrity: every review's movie and every comment's
      review exists. */
  ghost predicate Linked(movies: map<int, Movie>, reviews: map<int, Review>, comments: map<int, Comment>)
  {
    && (forall id | id in reviews :: reviews[id].movieId in movies)
    && (forall id | id in comments :: comments[id].reviewId in reviews)
  }

  /** The reviews left when a movie's reviews are deleted with it. */
  function ReviewsWithoutMovie(reviews: map<int, Review>, movieId: int): map<int, Review>
  {
    map id | id in reviews && reviews[id].movieId != movieId :: reviews[id]
  }

  /** The comments left when the reviews outside `kept` are deleted. */
  function CommentsUnder(comments: map<int, Comment>, kept: map<int, Review>): map<int, Comment>
  {
    map id | id in comments && comments[id].reviewId in kept :: comments[id]
  }

  /** Deleting a movie deletes exactly its reviews and their comments, and
      leaves the tables linked. */
  lemma DeleteMovieCascades(movies: map<int, Movie>, reviews: map<int, Review>,
                            comments: map<int, Comment>, movieId: int)
    requires Linked(movies, reviews, comments)
    ensures var reviews' := ReviewsWithoutMovie(reviews, movieId);
      && (forall id :: id in reviews' <==> id in reviews && reviews[id].movieId != movieId)
      && (forall id :: id in CommentsUnder(comments, reviews') <==>
            id in comments && reviews[comments[id].reviewId].movieId != movieId)
      && Linked(movies - {movieId}, reviews', CommentsUnder(comments, reviews'))
  {
  }

  /** Deleting a review deletes exactly its comments, and leaves the tables
      linked. */
  lemma DeleteReviewCascades(movies: map<int, Movie>, reviews: map<int, Review>,
                             comments: map<int, Comment>, reviewId: int)
    requires Linked(movies, reviews, comments)
    ensures forall id :: id in CommentsUnder(comments, reviews - {reviewId}) <==>
              id in comments && comments[id].reviewId != reviewId
    ensures Linked(movies, reviews - {reviewId}, CommentsUnder(comments, reviews - {reviewId}))
  {
  }

  /** In linked tables, a review reachable under a route has that movie, and
      a comment reachable under a route has that review and movie. */
  lemma ScopeNamesExistingParents(movies: map<int, Movie>, reviews: map<int, Review>,
                                  comments: map<int, Comment>, movieId: int, reviewId: int, commentId: int)
    requires Linked(movies, reviews, comments)
    ensures ReviewInScope(reviews, movieId, reviewId) ==> movieId in movies
    ensures CommentInScope(reviews, comments, movieId, reviewId, commentId) ==>
      reviewId in reviews && movieId in movies
  {
  }

  class ForumDb {
    var movies: map<int, Movie>
    var reviews: map<int, Review>
    var comments: map<int, Comment>
    // The next values of the three identity columns.
    var nextMovieId: int
    var nextReviewId: int
    var nextCommentId: int

    ghost predicate Valid()
      reads this
    {
      && (forall id | id in movies :: movies[id].id == id && 1 <= id < nextMovieId)
      && (forall id | id in reviews :: reviews[id].id == id && 1 <= id < nextReviewId)
      && (forall id | id in comments :: comments[id].id == id && 1 <= id < nextCommentId)
      && nextMovieId >= 1 && nextReviewId >= 1 && nextCommentId >= 1
      && Linked(movies, reviews, comments)
    }

    constructor ()
      ensures Valid()
      ensures movies == map[] && reviews == map[] && comments == map[]
    {
      movies, reviews, comments := map[], map[], map[];
      nextMovieId, nextReviewId, nextCommentId := 1, 1, 1;
    }

    // -------------------------------------------------------------------
    // Movies

    /** GET movies/{movieId}. */
    method GetMovie(movieId: int) returns (status: Status, movie: Option<Movie>)
      ensures status == Ok <==> movieId in movies
      ensures status != Ok ==> status == NotFound && movie.None?
      ensures status == Ok ==> movie == Some(movies[movieId])
    {
      if movieId !in movies {
        return NotFound, None;
      }
      return Ok, Some(movies[movieId]);
    }

    /** POST movies: the caller's sub becomes the owner. */
    method CreateMovie(dto: MovieDto, caller: Option<Principal>, currentYear: int)
      returns (status: Status, movieId: int)
      requires Valid()
      modifies this
      ensures Valid()
      ensures reviews == old(reviews) && comments == old(comments)
      ensures Authorization(caller).Some? ==>
        status == Authorization(caller).value && movies == old(movies)
      ensures Authorization(caller).None? && MovieFailures(dto, currentYear) != [] ==>
        status == UnprocessableEntity && movies == old(movies)
      // Genre and UserId are NOT NULL columns: saving a null one throws.
      ensures Authorization(caller).None? && MovieFailures(dto, currentYear) == []
              && (dto.genre.None? || caller.value.sub.None?) ==>
        status == ServerError && movies == old(movies)
      ensures Authorization(caller).None? && MovieFailures(dto, currentYear) == []
              && dto.genre.Some? && caller.value.sub.Some? ==>
        && status == Created
        && movieId !in old(movies)
        && movies == old(movies)[movieId := Movie(movieId, dto.name, dto.description, dto.director,
                                                  dto.actors, dto.releaseYear, dto.duration, dto.genre,
                                                  caller.value.sub)]
    {
      var denied := Authorization(caller);
      if denied.Some? {
        return denied.value, 0;
      }
      if ValidationProblem(MovieFailures(dto, currentYear)).Some? {
        return UnprocessableEntity, 0;
      }
      if dto.genre.None? || caller.value.sub.None? {
        return ServerError, 0;
      }
      movieId := nextMovieId;
      var movie := Movie(movieId, dto.name, dto.description, dto.director, dto.actors,
                         dto.releaseYear, dto.duration, dto.genre, caller.value.sub);
      movies := movies[movieId := movie];
      nextMovieId := nextMovieId + 1;
      status := Created;
    }

    /** PUT movies/{movieId}: a missing movie and a caller who is neither an
        Admin nor the owner both get NotFound; a null genre fails on save
        (the column is NOT NULL); otherwise the seven content fields are
        overwritten and the id and owner kept. */
    method EditMovie(movieId: int, dto: MovieDto, caller: Option<Principal>, currentYear: int)
      returns (status: Status)
      requires Valid()
      modifies this
      ensures Valid()
      ensures reviews == old(reviews) && comments == old(comments)
      ensures status != Ok ==> movies == old(movies)
      ensures Authorization(caller).Some? ==> status == Authorization(caller).value
      ensures Authorization(caller).None? && MovieUpdateFailures(dto, currentYear) != [] ==>
        status == UnprocessableEntity
      ensures Authorization(caller).None? && MovieUpdateFailures(dto, currentYear) == [] ==>
        if movieId !in old(movies) || !MayEdit(caller.value, old(movies)[movieId]) then
          status == NotFound
        else if dto.genre.None? then
          status == ServerError
        else
          var m := old(movies)[movieId];
          && status == Ok
          && movies == old(movies)[movieId := Movie(m.id, dto.name, dto.description, dto.director,
                                                    dto.actors, dto.releaseYear, dto.duration, dto.genre,
                                                    m.userId)]
    {
      var denied := Authorization(caller);
      if denied.Some? {
        return denied.value;
      }
      if ValidationProblem(MovieUpdateFailures(dto, currentYear)).Some? {
        return UnprocessableEntity;
      }
      if movieId !in movies {
        return NotFound;
      }
      var movie := movies[movieId];
      if Auth.Admin !in caller.value.roles && caller.value.sub != movie.userId {
        return NotFound;
      }
      if dto.genre.None? {
        return ServerError;
      }
      movie := movie.(name := dto.name, description := dto.description, director := dto.director,
                      actors := dto.actors, releaseYear := dto.releaseYear, duration := dto.duration,
                      genre := dto.genre);
      movies := movies[movieId := movie];
      status := Ok;
    }

    /** DELETE movies/{movieId}: no ownership or role check; the movie's
        reviews and their comments go with it. */
    method DeleteMovie(movieId: int) returns (status: Status)
      requires Valid()
      modifies this
      ensures Valid()
      ensures movieId !in old(movies) ==>
        status == NotFound && movies == old(movies) && reviews == old(reviews) && comments == old(comments)
      ensures movieId in old(movies) ==>
        && status == NoContent
        && movies == old(movies) - {movieId}
        && reviews == ReviewsWithoutMovie(old(reviews), movieId)
        && comments == CommentsUnder(old(comments), reviews)
    {
      if movieId !in movies {
        return NotFound;
      }
      DeleteMovieCascades(movies, reviews, comments, movieId);
      movies := movies - {movieId};
      reviews := ReviewsWithoutMovie(reviews, movieId);
      comments := CommentsUnder(comments, reviews);
      status := NoContent;
    }

    // -------------------------------------------------------------------
    // Reviews

    /** GET movies/{movieId}/reviews/{reviewId}. */
    method GetReview(movieId: int, reviewId: int) returns (status: Status, review: Option<Review>)
      ensures status == Ok <==> ReviewInScope(reviews, movieId, reviewId)
      ensures status != Ok ==> status == NotFound && review.None?
      ensures status == Ok ==> review == Some(reviews[reviewId])
    {
      if !ReviewInScope(reviews, movieId, reviewId) {
        return NotFound, None;
      }
      return Ok, Some(reviews[reviewId]);
    }

    /** POST movies/{movieId}/reviews: attached to the route's movie, dated
        now, owned by the caller's sub. */
    method CreateReview(movieId: int, dto: ReviewDto, caller: Option<Principal>, now: int)
      returns (status: Status, reviewId: int)
      requires Valid()
      modifies this
      ensures Valid()
      ensures movies == old(movies) && comments == old(comments)
      ensures status != Created ==> reviews == old(reviews)
      ensures ReviewFailures(dto) != [] ==> status == UnprocessableEntity
      ensures ReviewFailures(dto) == [] && movieId !in movies ==> status == NotFound
      ensures ReviewFailures(dto) == [] && movieId in movies ==>
        && status == Created
        && reviewId !in old(reviews)
        && reviews == old(reviews)[reviewId := Review(reviewId, dto.text, dto.evaluation, now,
                                                      movieId, SubOf(caller))]
    {
      if ValidationProblem(ReviewFailures(dto)).Some? {
        return UnprocessableEntity, 0;
      }
      if movieId !in movies {
        return NotFound, 0;
      }
      reviewId := nextReviewId;
      var review := Review(reviewId, dto.text, dto.evaluation, now, movieId, SubOf(caller));
      reviews := reviews[reviewId := review];
      nextReviewId := nextReviewId + 1;
      status := Created;
    }

    /** PUT movies/{movieId}/reviews/{reviewId}: text and evaluation are
        replaced and the date set to now. */
    method UpdateReview(movieId: int, reviewId: int, dto: ReviewDto, now: int) returns (status: Status)
      requires Valid()
      modifies this
      ensures Valid()
      ensures movies == old(movies) && comments == old(comments)
      ensures status != Ok ==> reviews == old(reviews)
      ensures ReviewUpdateFailures(dto) != [] ==> status == UnprocessableEntity
      ensures ReviewUpdateFailures(dto) == [] && !ReviewInScope(old(reviews), movieId, reviewId) ==>
        status == NotFound
      ensures ReviewUpdateFailures(dto) == [] && ReviewInScope(old(reviews), movieId, reviewId) ==>
        && status == Ok
        && reviews == old(reviews)[reviewId := old(reviews)[reviewId].(text := dto.text,
                                               evaluation := dto.evaluation, date := now)]
    {
      if ValidationProblem(ReviewUpdateFailures(dto)).Some? {
        return UnprocessableEntity;
      }
      if !ReviewInScope(reviews, movieId, reviewId) {
        return NotFound;
      }
      var review := reviews[reviewId];
      review := review.(text := dto.text, evaluation := dto.evaluation, date := now);
      reviews := reviews[reviewId := review];
      status := Ok;
    }

    /** DELETE movies/{movieId}/reviews/{reviewId}: the review's comments
        go with it. */
    method DeleteReview(movieId: int, reviewId: int) returns (status: Status)
      requires Valid()
      modifies this
      ensures Valid()
      ensures movies == old(movies)
      ensures !ReviewInScope(old(reviews), movieId, reviewId) ==>
        status == NotFound && reviews == old(reviews) && comments == old(comments)
      ensures ReviewInScope(old(reviews), movieId, reviewId) ==>
        && status == NoContent
        && reviews == old(reviews) - {reviewId}
        && comments == CommentsUnder(old(comments), reviews)
    {
      if !ReviewInScope(reviews, movieId, reviewId) {
        return NotFound;
      }
      DeleteReviewCascades(movies, reviews, comments, reviewId);
      reviews := reviews - {reviewId};
      comments := CommentsUnder(comments, reviews);
      status := NoContent;
    }

    // -------------------------------------------------------------------
    // Comments

    /** GET movies/{movieId}/reviews/{reviewId}/comments/{commentId}. */
    method GetComment(movieId: int, reviewId: int, commentId: int) returns (status: Status, comment: Option<Comment>)
      ensures status == Ok <==> CommentInScope(reviews, comments, movieId, reviewId, commentId)
      ensures status != Ok ==> status == NotFound && comment.None?
      ensures status == Ok ==> comment == Some(comments[commentId])
    {
      if !CommentInScope(reviews, comments, movieId, reviewId, commentId) {
        return NotFound, None;
      }
      return Ok, Some(comments[commentId]);
    }

    /** POST movies/{movieId}/reviews/{reviewId}/comments: the review must be
        in scope of the route's movie. */
    method CreateComment(movieId: int, reviewId: int, dto: CommentDto, caller: Option<Principal>, now: int)
      returns (status: Status, commentId: int)
      requires Valid()
      modifies this
      ensures Valid()
      ensures movies == old(movies) && reviews == old(reviews)
      ensures status != Created ==> comments == old(comments)
      ensures CommentFailures(dto) != [] ==> status == UnprocessableEntity
      ensures CommentFailures(dto) == [] && !ReviewInScope(reviews, movieId, reviewId) ==> status == NotFound
      ensures CommentFailures(dto) == [] && ReviewInScope(reviews, movieId, reviewId) ==>
        && status == Created
        && commentId !in old(comments)
        && comments == old(comments)[commentId := Comment(commentId, dto.text, now, reviewId, SubOf(caller))]
    {
      if ValidationProblem(CommentFailures(dto)).Some? {
        return UnprocessableEntity, 0;
      }
      if !ReviewInScope(reviews, movieId, reviewId) {
        return NotFound, 0;
      }
      commentId := nextCommentId;
      var comment := Comment(commentId, dto.text, now, reviewId, SubOf(caller));
      comments := comments[commentId := comment];
      nextCommentId := nextCommentId + 1;
      status := Created;
    }

    /** PUT movies/{movieId}/reviews/{reviewId}/comments/{commentId}: the text
        is replaced and the date set to now. */
    method UpdateComment(movieId: int, reviewId: int, commentId: int, dto: CommentDto, now: int)
      returns (status: Status)
      requires Valid()
      modifies this
      ensures Valid()
      ensures movies == old(movies) && reviews == old(reviews)
      ensures status != Ok ==> comments == old(comments)
      ensures CommentUpdateFailures(dto) != [] ==> status == UnprocessableEntity
      ensures CommentUpdateFailures(dto) == [] && !CommentInScope(reviews, old(comments), movieId, reviewId, commentId) ==>
        status == NotFound
      ensures CommentUpdateFailures(dto) == [] && CommentInScope(reviews, old(comments), movieId, reviewId, commentId) ==>
        && status == Ok
        && comments == old(comments)[commentId := old(comments)[commentId].(text := dto.text, date := now)]
    {
      if ValidationProblem(CommentUpdateFailures(dto)).Some? {
        return UnprocessableEntity;
      }
      if !CommentInScope(reviews, comments, movieId, reviewId, commentId) {
        return NotFound;
      }
      var comment := comments[commentId];
      comment := comment.(text := dto.text, date := now);
      comments := comments[commentId := comment];
      status := Ok;
    }

    /** DELETE movies/{movieId}/reviews/{reviewId}/comments/{commentId}. */
    method DeleteComment(movieId: int, reviewId: int, commentId: int) returns (status: Status)
      requires Valid()
      modifies this
      ensures Valid()
      ensures movies == old(movies) && reviews == old(reviews)
      ensures !CommentInScope(reviews, old(comments), movieId, reviewId, commentId) ==>
        status == NotFound && comments == old(comments)
      ensures CommentInScope(reviews, old(comments), movieId, reviewId, commentId) ==>
        status == NoContent && comments == old(comments) - {commentId}
    {
      if !CommentInScope(reviews, comments, movieId, reviewId, commentId) {
        return NotFound;
      }
      comments := comments - {commentId};
      status := NoContent;
    }
  }
}
