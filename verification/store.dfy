/** The database the backend controllers share through one client: one map
    per table, keyed by the row's generated id (the tutor-response table is
    keyed by its unique `bookingId`). */
module Store {

  import opened Common

  /** The negotiation state of a booking. */
  datatype BookingStatus = Pending | Confirmed | Declined | Rescheduled

  /** A tourist's request to take a course. A new booking starts PENDING. */
  datatype Booking = Booking(
    courseId: Id,
    touristId: Id,
    message: Option<string>,
    status: BookingStatus,
    createdAt: int)

  /** One candidate date with its time range, stored as `"<start> - <end>"`. */
  datatype BookingOption = BookingOption(bookingId: Id, date: string, time: string)

  /** The tutor's decision on a booking; at most one per booking. */
  datatype TutorResponse = TutorResponse(
    status: BookingStatus,
    selectedOptionId: Option<Id>,
    message: Option<string>)

  datatype Level = Beginner | Intermediate | Advanced

  datatype Course = Course(
    tutorId: Id,
    categoryId: Id,
    title: string,
    description: string,
    price: real,
    duration: string,
    level: Level,
    location: Option<string>,
    prerequisite: Option<string>,
    createdAt: int)

  datatype CoursePhoto = CoursePhoto(courseId: Id, url: string)

  datatype Review = Review(
    touristId: Id,
    courseId: Id,
    bookingId: Option<Id>,
    rating: real,
    comment: Option<string>)

  datatype Notification = Notification(
    userId: Id,
    bookingId: Option<Id>,
    title: string,
    message: string,
    isRead: bool,
    createdAt: int)

  class Db {
    var categories: set<Id>
    var courses: map<Id, Course>
    var photos: map<Id, CoursePhoto>
    var bookings: map<Id, Booking>
    var options: map<Id, BookingOption>
    /** Keyed by `bookingId`, which is unique in this table. */
    var responses: map<Id, TutorResponse>
    var reviews: map<Id, Review>
    var notifications: map<Id, Notification>

    /** An empty database over the given categories. */
    constructor (categories: set<Id>)
      ensures this.categories == categories
      ensures courses == map[] && photos == map[] && bookings == map[] && options == map[]
      ensures responses == map[] && reviews == map[] && notifications == map[]
    {
      this.categories := categories;
      courses, photos, bookings, options := map[], map[], map[], map[];
      responses, reviews, notifications := map[], map[], map[];
    }
  }
}
