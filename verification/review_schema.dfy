/** The request-body schemas of the review endpoints. A JSON number is
    modelled as a `real`; a field the client left out is `None`. */
module ReviewSchema {

  import opened Common

  datatype ReviewBody = ReviewBody(
    courseId: Option<string>,
    bookingId: Option<string>,
    rating: Option<real>,
    comment: Option<string>)

  datatype ReviewInput = ReviewInput(courseId: Id, bookingId: Option<Id>, rating: real, comment: Option<string>)

  /** The body of an edit; every field is optional. */
  datatype ReviewUpdate = ReviewUpdate(rating: Option<real>, comment: Option<string>)

  /** `z.number().min(1).max(5)`. */
  predicate RatingInRange(x: real)
  {
    1.0 <= x <= 5.0
  }

  /** `reviewSchema.parse`: a course id and a rating in range are required,
      the booking id and the comment are optional. */
  function ParseReview(b: ReviewBody): (r: Option<ReviewInput>)
    ensures r.Some? <==> b.courseId.Some? && b.rating.Some? && RatingInRange(b.rating.value)
    ensures r.Some? ==> r.value == ReviewInput(b.courseId.value, b.bookingId, b.rating.value, b.comment)
  {
    if b.courseId.Some? && b.rating.Some? && RatingInRange(b.rating.value)
    then Some(ReviewInput(b.courseId.value, b.bookingId, b.rating.value, b.comment))
    else None
  }

  /** `updateReviewSchema.parse`: a rating, when present, must be in range. */
  function ParseReviewUpdate(b: ReviewUpdate): (r: Option<ReviewUpdate>)
    ensures r.Some? <==> b.rating.None? || RatingInRange(b.rating.value)
    ensures r.Some? ==> r.value == b
  {
    if b.rating.None? || RatingInRange(b.rating.value) then Some(b) else None
  }

  /** Ratings need not be whole: 4.5 is accepted; 0.5 and 5.5 are not. */
  lemma RatingBounds(courseId: string)
    ensures ParseReview(ReviewBody(Some(courseId), None, Some(4.5), None)).Some?
    ensures ParseReview(ReviewBody(Some(courseId), None, Some(0.5), None)).None?
    ensures ParseReview(ReviewBody(Some(courseId), None, Some(5.5), None)).None?
    ensures ParseReview(ReviewBody(None, None, Some(3.0), None)).None?
  {
  }

  /** An edit that changes nothing is a valid edit. */
  lemma EmptyUpdateValid()
    ensures ParseReviewUpdate(ReviewUpdate(None, None)) == Some(ReviewUpdate(None, None))
  {
  }
}
