/** Creating, editing and deleting course reviews. Only a tourist with a
    CONFIRMED booking of the course may review it, once per course; only the
    author may edit or delete a review. None of these handlers tells a
    malformed body apart from other failures: both answer 500. */
module ReviewController {

  import opened Common
  import opened Store
  import opened ReviewSchema

  /** Some booking of `tourist` for the course is CONFIRMED; when a booking
      id is sent, it must be that booking (an absent id does not filter). */
  predicate HasConfirmedBooking(bookings: map<Id, Booking>, tourist: Id, input: ReviewInput)
  {
    exists b :: b in bookings
      && (input.bookingId.None? || b == input.bookingId.value)
      && bookings[b].courseId == input.courseId
      && bookings[b].touristId == tourist
      && bookings[b].status == Confirmed
  }

  /** `tourist` has already reviewed `course`. */
  predicate HasReviewed(reviews: map<Id, Review>, tourist: Id, course: Id)
  {
    exists r :: r in reviews && reviews[r].touristId == tourist && reviews[r].courseId == course
  }

  /** At most one review per tourist and course. */
  ghost predicate OneReviewPerCourse(reviews: map<Id, Review>)
  {
    forall r1, r2 :: r1 in reviews && r2 in reviews
      && reviews[r1].touristId == reviews[r2].touristId && reviews[r1].courseId == reviews[r2].courseId
      ==> r1 == r2
  }

  /** The status `createReviewController` answers with. */
  function CreateReviewCode(bookings: map<Id, Booking>, reviews: map<Id, Review>, caller: Option<User>, body: ReviewBody): int
  {
    if !HasRole(caller, Tourist) then 403
    else if ParseReview(body).None? then 500
    else if !HasConfirmedBooking(bookings, caller.value.id, ParseReview(body).value) then 403
    else if HasReviewed(reviews, caller.value.id, ParseReview(body).value.courseId) then 400
    else 201
  }

  /** The review row a successful create stores. */
  function NewReview(caller: User, input: ReviewInput): Review
  {
    Review(caller.id, input.courseId, input.bookingId, input.rating, input.comment)
  }

  /** `createReviewController`: on 201 exactly one review, by the caller and
      holding the sent fields, is added under a fresh id. */
  method CreateReview(db: Db, caller: Option<User>, body: ReviewBody) returns (code: int, id: Id)
    modifies db`reviews
    ensures code == CreateReviewCode(db.bookings, old(db.reviews), caller, body)
    ensures code != 201 ==> db.reviews == old(db.reviews)
    ensures code == 201 ==>
      && id !in old(db.reviews)
      && db.reviews == old(db.reviews)[id := NewReview(caller.value, ParseReview(body).value)]
  {
    id := "";
    if !HasRole(caller, Tourist) {
      return 403, id;
    }
    var parsed := ParseReview(body);
    if parsed.None? {
      return 500, id;
    }
    var input := parsed.value;
    if !HasConfirmedBooking(db.bookings, caller.value.id, input) {
      return 403, id;
    }
    if HasReviewed(db.reviews, caller.value.id, input.courseId) {
      return 400, id;
    }
    FreshIdExists(db.reviews.Keys);
    id :| id !in db.reviews;
    db.reviews := db.reviews[id := NewReview(caller.value, input)];
    code := 201;
  }

  /** A successful create keeps one review per tourist and course, and the
      same request sent again is refused with 400. */
  lemma CreateReviewOnce(bookings: map<Id, Booking>, reviews: map<Id, Review>, caller: Option<User>, body: ReviewBody, id: Id)
    requires OneReviewPerCourse(reviews) && id !in reviews
    requires CreateReviewCode(bookings, reviews, caller, body) == 201
    ensures var reviews' := reviews[id := NewReview(caller.value, ParseReview(body).value)];
      OneReviewPerCourse(reviews') && CreateReviewCode(bookings, reviews', caller, body) == 400
  {
    var input := ParseReview(body).value;
    var reviews' := reviews[id := NewReview(caller.value, input)];
    assert reviews'[id].touristId == caller.value.id && reviews'[id].courseId == input.courseId;
  }

  /** Only a tourist may review, and only with a matching CONFIRMED booking. */
  lemma CreateReviewNeedsConfirmedBooking(bookings: map<Id, Booking>, reviews: map<Id, Review>, caller: Option<User>, body: ReviewBody)
    requires CreateReviewCode(bookings, reviews, caller, body) == 201
    ensures caller.Some? && caller.value.role == Tourist
    ensures exists b ::
      && b in bookings && bookings[b].status == Confirmed
      && bookings[b].touristId == caller.value.id && bookings[b].courseId == ParseReview(body).value.courseId
  {
  }

  /** The status of `updateReviewController` and `deleteReviewController` up to the write. */
  function OwnerCode(reviews: map<Id, Review>, caller: Option<User>, id: Id, bodyValid: bool): int
  {
    if !HasRole(caller, Tourist) then 403
    else if !bodyValid then 500
    else if id !in reviews then 404
    else if reviews[id].touristId != caller.value.id then 403
    else 200
  }

  /** `review.update({ data })`: a field the edit leaves out keeps its value. */
  function ApplyUpdate(r: Review, u: ReviewUpdate): Review
  {
    r.(rating := if u.rating.Some? then u.rating.value else r.rating,
       comment := if u.comment.Some? then u.comment else r.comment)
  }

  /** `updateReviewController`. */
  method UpdateReview(db: Db, caller: Option<User>, id: Id, body: ReviewUpdate) returns (code: int)
    modifies db`reviews
    ensures code == OwnerCode(old(db.reviews), caller, id, ParseReviewUpdate(body).Some?)
    ensures code != 200 ==> db.reviews == old(db.reviews)
    ensures code == 200 ==> db.reviews == old(db.reviews)[id := ApplyUpdate(old(db.reviews)[id], body)]
  {
    if !HasRole(caller, Tourist) {
      return 403;
    }
    var parsed := ParseReviewUpdate(body);
    if parsed.None? {
      return 500;
    }
    if id !in db.reviews {
      return 404;
    }
    if db.reviews[id].touristId != caller.value.id {
      return 403;
    }
    db.reviews := db.reviews[id := ApplyUpdate(db.reviews[id], parsed.value)];
    code := 200;
  }

  /** An accepted edit touches only the caller's own review, keeps its author
      and course (so one review per course still holds), keeps the rating in
      range, and changes no other review. */
  lemma UpdateReviewOutcome(reviews: map<Id, Review>, caller: Option<User>, id: Id, body: ReviewUpdate)
    requires OneReviewPerCourse(reviews)
    requires OwnerCode(reviews, caller, id, ParseReviewUpdate(body).Some?) == 200
    ensures var reviews' := reviews[id := ApplyUpdate(reviews[id], body)];
      && OneReviewPerCourse(reviews')
      && reviews'[id].touristId == caller.value.id
      && reviews'[id].courseId == reviews[id].courseId
      && (RatingInRange(reviews[id].rating) ==> RatingInRange(reviews'[id].rating))
      && reviews'.Keys == reviews.Keys
      && forall r :: r in reviews && r != id ==> reviews'[r] == reviews[r]
  {
    var reviews' := reviews[id := ApplyUpdate(reviews[id], body)];
    forall r1, r2 | r1 in reviews' && r2 in reviews'
      && reviews'[r1].touristId == reviews'[r2].touristId && reviews'[r1].courseId == reviews'[r2].courseId
      ensures r1 == r2
    {
      assert reviews[r1].touristId == reviews'[r1].touristId && reviews[r1].courseId == reviews'[r1].courseId;
      assert reviews[r2].touristId == reviews'[r2].touristId && reviews[r2].courseId == reviews'[r2].courseId;
    }
  }

  /** `deleteReviewController`. */
  method DeleteReview(db: Db, caller: Option<User>, id: Id) returns (code: int)
    modifies db`reviews
    ensures code == OwnerCode(old(db.reviews), caller, id, true)
    ensures code != 200 ==> db.reviews == old(db.reviews)
    ensures code == 200 ==> db.reviews == old(db.reviews) - {id}
  {
    if !HasRole(caller, Tourist) {
      return 403;
    }
    if id !in db.reviews {
      return 404;
    }
    if db.reviews[id].touristId != caller.value.id {
      return 403;
    }
    db.reviews := db.reviews - {id};
    code := 200;
  }

  /** Only the author can delete a review, and deleting it frees the course
      for a new review by the same tourist. */
  lemma DeleteReviewFreesCourse(reviews: map<Id, Review>, caller: Option<User>, id: Id)
    requires OneReviewPerCourse(reviews)
    requires OwnerCode(reviews, caller, id, true) == 200
    ensures reviews[id].touristId == caller.value.id
    ensures OneReviewPerCourse(reviews - {id})
    ensures !HasReviewed(reviews - {id}, caller.value.id, reviews[id].courseId)
  {
  }
}
