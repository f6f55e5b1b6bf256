/** `ReviewServiceImpl`: the review table and the operations on it, with who may change or
    remove a review. As in `PlaceService`, the current user is the result of looking up the
    signed-in e-mail, the places that exist are given by their ids, each read of the clock is
    a parameter, and a transaction that throws changes nothing. Whether the signed-in user has
    the `ROLE_ADMIN` authority is the parameter `isAdmin`. */
module ReviewService {
  import opened Wrappers
  import opened ReviewDtos
  import opened ServiceErrors

  /** The fields of a stored review; the place and the author are referred to by id. */
  datatype ReviewRecord = ReviewRecord(id: Option<int>, placeId: int, userId: int, rating: real,
                                       comment: Option<string>, createdAt: Option<int>, updatedAt: Option<int>)

  predicate TableValid(reviews: map<int, ReviewRecord>, nextId: int) {
    forall id :: id in reviews ==> reviews[id].id == Some(id) && id < nextId
  }

  function PlaceOf(r: ReviewRecord): int { r.placeId }
  function AuthorOf(r: ReviewRecord): int { r.userId }

  /** The reviews whose field `select` picks out equals `key` (`findAllByPlaceId`,
      `findAllByUserId`). */
  function ReviewsWhere(reviews: map<int, ReviewRecord>, select: ReviewRecord -> int, key: int): (found: map<int, ReviewRecord>)
    ensures forall id :: id in found <==> id in reviews && select(reviews[id]) == key
    ensures forall id :: id in found ==> found[id] == reviews[id]
  {
    map id | id in reviews && select(reviews[id]) == key :: reviews[id]
  }

  /** Every review is about exactly one place: the reviews of two different places never
      overlap, and together the reviews of all places are the whole table. */
  lemma ReviewsOfPlacesPartition(reviews: map<int, ReviewRecord>, a: int, b: int, id: int)
    requires id in reviews
    ensures id in ReviewsWhere(reviews, PlaceOf, reviews[id].placeId)
    ensures a != b ==> !(id in ReviewsWhere(reviews, PlaceOf, a) && id in ReviewsWhere(reviews, PlaceOf, b))
  {
  }

  // ---------------------------------------------------------------------------------------
  // The outcome of each changing operation: the answer and the new table

  /** `createReview`: the current user first, then the place, then the new review under the
      next id with both timestamps from the clock. */
  function Creation(reviews: map<int, ReviewRecord>, nextId: int, request: ReviewRequest, currentUser: Option<int>,
                    places: set<int>, now: int): (Result<ReviewRecord, ServiceError>, map<int, ReviewRecord>)
    requires request.placeId.Some? && request.rating.Some?
  {
    if currentUser.None? then (Err(IllegalState(CURRENT_USER_NOT_FOUND)), reviews)
    else if request.placeId.value !in places then (Err(PlaceNotFound(request.placeId.value)), reviews)
    else
      var review := ReviewRecord(Some(nextId), request.placeId.value, currentUser.value, request.rating.value,
                                 request.comment, Some(now), Some(now));
      (Ok(review), reviews[nextId := review])
  }

  /** `updateReview`: the review first, then the current user, then only its author may
      change it; the comment and the time of the last change are replaced. */
  function Update(reviews: map<int, ReviewRecord>, id: int, request: ReviewUpdateRequest, currentUser: Option<int>,
                  now: int): (Result<ReviewRecord, ServiceError>, map<int, ReviewRecord>)
  {
    if id !in reviews then (Err(ReviewNotFound(id)), reviews)
    else if currentUser.None? then (Err(IllegalState(CURRENT_USER_NOT_FOUND)), reviews)
    else if reviews[id].userId != currentUser.value then (Err(AccessDenied(UPDATE_OWN_REVIEWS_ONLY)), reviews)
    else
      var review := reviews[id].(comment := request.comment, updatedAt := Some(now));
      (Ok(review), reviews[id := review])
  }

  /** `deleteReview`: the review first, then the current user, then its author or an
      administrator may remove it. */
  function Deletion(reviews: map<int, ReviewRecord>, id: int, currentUser: Option<int>, isAdmin: bool)
    : (Result<(), ServiceError>, map<int, ReviewRecord>)
  {
    if id !in reviews then (Err(ReviewNotFound(id)), reviews)
    else if currentUser.None? then (Err(IllegalState(CURRENT_USER_NOT_FOUND)), reviews)
    else if !isAdmin && reviews[id].userId != currentUser.value then (Err(AccessDenied(DELETE_OWN_REVIEWS_ONLY)), reviews)
    else (Ok(()), reviews - {id})
  }

  /** A failed operation leaves the table as it was. */
  lemma FailureChangesNothing(reviews: map<int, ReviewRecord>, nextId: int, id: int, request: ReviewRequest,
                              update: ReviewUpdateRequest, currentUser: Option<int>, isAdmin: bool,
                              places: set<int>, now: int)
    requires request.placeId.Some? && request.rating.Some?
    ensures Creation(reviews, nextId, request, currentUser, places, now).0.Err? ==>
      Creation(reviews, nextId, request, currentUser, places, now).1 == reviews
    ensures Update(reviews, id, update, currentUser, now).0.Err? ==> Update(reviews, id, update, currentUser, now).1 == reviews
    ensures Deletion(reviews, id, currentUser, isAdmin).0.Err? ==> Deletion(reviews, id, currentUser, isAdmin).1 == reviews
  {
  }

  /** A review is removed exactly when it exists, the current user exists and is either its
      author or an administrator; nothing else is removed. */
  lemma DeletedOnlyByAuthorOrAdmin(reviews: map<int, ReviewRecord>, id: int, currentUser: Option<int>, isAdmin: bool)
    ensures var (result, after) := Deletion(reviews, id, currentUser, isAdmin);
      && (result.Ok? <==> id in reviews && currentUser.Some? && (isAdmin || reviews[id].userId == currentUser.value))
      && (result.Ok? ==> after == reviews - {id})
  {
  }

  /** Only the author can change a review, administrators included; the change touches only
      the comment and the time of the last change. */
  lemma UpdatedOnlyByAuthor(reviews: map<int, ReviewRecord>, id: int, request: ReviewUpdateRequest,
                            currentUser: Option<int>, now: int)
    ensures var (result, after) := Update(reviews, id, request, currentUser, now);
      && (result.Ok? <==> id in reviews && currentUser == Some(reviews[id].userId))
      && (result.Ok? ==> after == reviews[id := result.value]
                         && result.value.(comment := reviews[id].comment, updatedAt := reviews[id].updatedAt) == reviews[id])
  {
  }

  /** A missing review is reported as missing even when the current user is missing too. */
  lemma MissingReviewReportedFirst(reviews: map<int, ReviewRecord>, id: int, request: ReviewUpdateRequest, now: int, isAdmin: bool)
    requires id !in reviews
    ensures Update(reviews, id, request, None, now).0 == Err(ReviewNotFound(id))
    ensures Deletion(reviews, id, None, isAdmin).0 == Err(ReviewNotFound(id))
  {
  }

  /** A created review belongs to the current user and is stored under a fresh id. */
  lemma CreationAddsOneReview(reviews: map<int, ReviewRecord>, nextId: int, request: ReviewRequest,
                              currentUser: Option<int>, places: set<int>, now: int)
    requires TableValid(reviews, nextId)
    requires request.placeId.Some? && request.rating.Some?
    ensures var (result, after) := Creation(reviews, nextId, request, currentUser, places, now);
      result.Ok? ==>
        && nextId !in reviews && after.Keys == reviews.Keys + {nextId}
        && result.value.userId == currentUser.value && result.value.placeId in places
        && TableValid(after, nextId + 1)
  {
  }

  class ReviewServiceImpl {
    var reviews: map<int, ReviewRecord>
    var nextId: int

    predicate Valid()
      reads this
    {
      TableValid(reviews, nextId)
    }

    constructor ()
      ensures reviews == map[] && Valid()
    {
      reviews := map[];
      nextId := 1;
    }

    function GetAllReviews(): map<int, ReviewRecord>
      reads this
    {
      reviews
    }

    function GetReviewsByPlaceId(placeId: int): map<int, ReviewRecord>
      reads this
    {
      ReviewsWhere(reviews, PlaceOf, placeId)
    }

    function GetReviewsByUserId(userId: int): map<int, ReviewRecord>
      reads this
    {
      ReviewsWhere(reviews, AuthorOf, userId)
    }

    function GetReviewById(id: int): (result: Result<ReviewRecord, ServiceError>)
      reads this
      ensures result.Ok? <==> id in reviews
      ensures result.Ok? ==> result.value == reviews[id]
      ensures result.Err? ==> result.error == ReviewNotFound(id)
    {
      if id in reviews then Ok(reviews[id]) else Err(ReviewNotFound(id))
    }

    /** `createReview`, for a request that passed validation. */
    method CreateReview(request: ReviewRequest, currentUser: Option<int>, places: set<int>, now: int)
      returns (result: Result<ReviewRecord, ServiceError>)
      requires Valid()
      requires ReviewRequestViolations(request) == {}
      modifies this
      ensures Valid()
      ensures request.placeId.Some? && request.rating.Some?
      ensures result == Creation(old(reviews), old(nextId), request, currentUser, places, now).0
      ensures reviews == Creation(old(reviews), old(nextId), request, currentUser, places, now).1
    {
      ReviewRequestAccepted(request);
      if currentUser.None? {
        return Err(IllegalState(CURRENT_USER_NOT_FOUND));
      }
      if request.placeId.value !in places {
        return Err(PlaceNotFound(request.placeId.value));
      }
      var review := ReviewRecord(Some(nextId), request.placeId.value, currentUser.value, request.rating.value,
                                 request.comment, Some(now), Some(now));
      reviews := reviews[nextId := review];
      nextId := nextId + 1;
      result := Ok(review);
    }

    /** `updateReview`, for a request that passed validation. */
    method UpdateReview(id: int, request: ReviewUpdateRequest, currentUser: Option<int>, now: int)
      returns (result: Result<ReviewRecord, ServiceError>)
      requires Valid()
      requires ReviewUpdateRequestViolations(request) == {}
      modifies this
      ensures Valid() && nextId == old(nextId)
      ensures result == Update(old(reviews), id, request, currentUser, now).0
      ensures reviews == Update(old(reviews), id, request, currentUser, now).1
    {
      if id !in reviews {
        return Err(ReviewNotFound(id));
      }
      if currentUser.None? {
        return Err(IllegalState(CURRENT_USER_NOT_FOUND));
      }
      var review := reviews[id];
      if review.userId != currentUser.value {
        return Err(AccessDenied(UPDATE_OWN_REVIEWS_ONLY));
      }
      review := review.(comment := request.comment);
      review := review.(updatedAt := Some(now));
      reviews := reviews[id := review];
      result := Ok(review);
    }

    /** `deleteReview`. */
    method DeleteReview(id: int, currentUser: Option<int>, isAdmin: bool) returns (result: Result<(), ServiceError>)
      requires Valid()
      modifies this
      ensures Valid() && nextId == old(nextId)
      ensures result == Deletion(old(reviews), id, currentUser, isAdmin).0
      ensures reviews == Deletion(old(reviews), id, currentUser, isAdmin).1
    {
      if id !in reviews {
        return Err(ReviewNotFound(id));
      }
      if currentUser.None? {
        return Err(IllegalState(CURRENT_USER_NOT_FOUND));
      }
      if !isAdmin && reviews[id].userId != currentUser.value {
        return Err(AccessDenied(DELETE_OWN_REVIEWS_ONLY));
      }
      reviews := reviews - {id};
      result := Ok(());
    }
  }
}
