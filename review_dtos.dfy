/** The request bodies of the review endpoints (`ReviewRequest`, `ReviewUpdateRequest`) and
    their bean-validation constraints, in the style of `PlaceDtos`. Constraints without a
    message of their own report the validator's default English text. */
module ReviewDtos {
  import opened Wrappers
  import opened Text
  import opened Schema
  import PlaceDtos

  const RATING_REQUIRED: string := "Rating is required"
  const RATING_RANGE: string := "Rating must be between 0.01 and 5.00"
  const COMMENT_REQUIRED: string := "Comment is required"
  const MUST_NOT_BE_NULL: string := "must not be null"
  const MUST_NOT_BE_BLANK: string := "must not be blank"

  datatype ReviewRequest = ReviewRequest(rating: Option<real>, placeId: Option<int>, comment: Option<string>)

  datatype ReviewUpdateRequest = ReviewUpdateRequest(comment: Option<string>)

  function ReviewRequestViolations(r: ReviewRequest): set<Issue> {
    PlaceDtos.RequiredRangeViolations(r.rating, 0.01, 5.00, "rating", RATING_REQUIRED, RATING_RANGE, RATING_RANGE)
    + (if r.placeId.Some? then {} else {Issue("placeId", MUST_NOT_BE_NULL)})
    + (if NotBlank(r.comment) then {} else {Issue("comment", MUST_NOT_BE_BLANK)})
  }

  /** A review is accepted exactly when its rating lies between 0.01 and 5.00 (both
      included), it names a place and its comment is not blank. */
  lemma ReviewRequestAccepted(r: ReviewRequest)
    ensures ReviewRequestViolations(r) == {} <==>
      r.rating.Some? && 0.01 <= r.rating.value <= 5.00 && r.placeId.Some? && NotBlank(r.comment)
  {
    if ReviewRequestViolations(r) == {} {
      assert r.placeId.None? ==> Issue("placeId", MUST_NOT_BE_NULL) in ReviewRequestViolations(r);
      assert !NotBlank(r.comment) ==> Issue("comment", MUST_NOT_BE_BLANK) in ReviewRequestViolations(r);
    }
  }

  /** A rating out of range gets the same message on either side, reported once. */
  lemma RatingOutOfRange(r: ReviewRequest)
    requires r.rating.Some? && !(0.01 <= r.rating.value <= 5.00)
    ensures Issue("rating", RATING_RANGE) in ReviewRequestViolations(r)
    ensures Issue("rating", RATING_REQUIRED) !in ReviewRequestViolations(r)
  {
  }

  function ReviewUpdateRequestViolations(r: ReviewUpdateRequest): (v: set<Issue>)
    ensures v == {} <==> NotBlank(r.comment)
  {
    if NotBlank(r.comment) then {} else {Issue("comment", COMMENT_REQUIRED)}
  }
}
