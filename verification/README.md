# Tourist–tutor booking platform: a Dafny model

This project models the core of a platform where tutors offer hands-on
courses and tourists book them.

A tourist books a course by proposing one or more date/time slots. The tutor
of the course answers the booking:

- CONFIRMED, naming one of the proposed slots;
- DECLINED;
- RESCHEDULED.

The tourist may reschedule, which replaces the slots and reopens the
negotiation. The model covers these parts of the system:

- **Booking negotiation.** The handlers that create, list, answer and
  reschedule bookings, and their request schemas
  (`booking_controller.dfy`, `booking_schema.dfy`). The database is one
  object, `Store.Db`, holding one map per table. Each handler is a method
  that changes only the tables it writes. Each method's contract gives its
  HTTP status as a function of the old tables, and its new tables as a
  function of the old ones. Every accepted write keeps the negotiation
  invariant `BookingController.Consistent`:
  - every slot and every tutor answer belongs to an existing booking;
  - every booking keeps at least one slot;
  - a booking's status is PENDING exactly when it has no tutor answer, and
    is otherwise the status of that answer.
- **Reviews.** Only a tourist with a CONFIRMED booking of a course may
  review it, once per course. Only the author may edit or delete a review.
- **Courses and their photos.** A tutor creates, edits and deletes their own
  courses. The course list can be filtered by category, level and tutor. A
  course's full bookings are shown only to its owner.
- **The role gates.** The middleware that lets only tourists or only tutors
  through, and the registration and login schemas. This includes the
  tourist registration schema, which trims and lower-cases its input
  before checking it.
- **The notification endpoints of the server.**
- **The browser side:**
  - the notification store with its unread counter;
  - the toast list of `useNotifications`, with ids from a shared counter;
  - the "time ago" label;
  - the fallback category tables;
  - the filters of the tourist's course browser;
  - the tutor's booking table and the answers its buttons send.

Some inputs are parameters of the model rather than parts of it:

- Library predicates are arrow parameters. These are `Date.parse`, zod's
  e-mail and URL checks, and `isNaN(Date.parse(...))`.
- The clock is a parameter. So are identifiers the database or
  `Math.random` would generate: the model picks fresh ones. A JSON number
  is a `real`, and a field the client left out is `None`.
- The server handlers wrap every failure in a `try`/`catch` that answers
  500. Three exceptions:
  - a malformed body of the booking and course handlers is answered 400;
  - the review handlers answer 500 for a malformed body too;
  - the notification routes for one id have no `catch`. The model assumes
    Express 4, where the rejected promise is left unhandled and an unknown
    id gets no reply at all (`NotificationRoutes.NoReply`). Express 5 would
    pass the rejection to its default error handler and answer 500; the
    model does not cover that case.

The booking handlers also differ from the source in one place. Rescheduling
a booking that has no tutor answer yet fails half-way in the source (see
Findings). `BookingController.Reschedule` models the evidently intended
behaviour: the answer is removed if there is one. The behaviour as written
is `BookingController.RescheduleAsWritten`.

## Model

| member | source | states |
|---|---|---|
| BookingSchema.ParseSlots | backend/zod/bookingSchema.ts:7-14 | a list of slots is accepted exactly when every entry is (a date that parses, a non-empty start and a non-empty end); the accepted slots keep their order and number |
| BookingSchema.ParseCreateBooking | backend/zod/bookingSchema.ts:4-16 | a booking request is accepted exactly when it has a course id and at least one valid slot; course id, message and slots are passed through |
| BookingSchema.ParseResponseStatus | backend/zod/bookingSchema.ts:20 | exactly CONFIRMED, DECLINED and RESCHEDULED are accepted answers, so an answer is never PENDING |
| BookingSchema.ParseTutorResponse | backend/zod/bookingSchema.ts:19-23 | an answer is accepted exactly when its status is one of the three; the selected option and message are optional and passed through |
| BookingSchema.ParseReschedule | backend/zod/bookingSchema.ts:26-37 | a reschedule is accepted exactly when it has at least one valid slot; the message is optional; the slots are passed through, each entry as its own schema returns it, in order |
| BookingSchema.AnyTimeRangeAccepted | backend/zod/bookingSchema.ts:9-13 | start and end time are never compared: any two non-empty strings make a valid slot |
| BookingSchema.EmptyOptionListRejected | backend/zod/bookingSchema.ts:15-35 | an empty slot list is refused both when creating and when rescheduling |
| BookingSchema.ResponseStatusRules | backend/zod/bookingSchema.ts:19-23 | a tutor cannot answer PENDING, and a bare status is a complete answer |
| BookingController.OptionsOfAfterInsert | backend/controllers/bookingController.ts:18-28 | inserting fresh slots for a booking gives it exactly those slots and changes no other booking's slots |
| BookingController.CreatePreservesConsistency | backend/controllers/bookingController.ts:23-31 | a new PENDING booking with no answer and at least one fresh slot keeps the negotiation invariant; its slots are exactly the new ones |
| BookingController.CreateBooking | backend/controllers/bookingController.ts:10-39 | 403 unless the caller is a tourist, 400 for a malformed body, else 201; on 201 a fresh PENDING booking of the caller with one slot per proposed slot (time stored as "start - end"); nothing changes otherwise; callable in any state, and the invariant is kept whenever it held before |
| BookingController.TutorRespond | backend/controllers/bookingController.ts:94-179 | 403 unless tutor, 400 malformed, 404 unknown booking, 500 when the booking's course row is missing, 403 for another tutor's course, 400 for a CONFIRMED answer naming a foreign slot, else 200; on 200 the answer is upserted and the booking status follows it; nothing changes otherwise |
| BookingController.RespondOutcome | backend/controllers/bookingController.ts:135-152 | an accepted answer keeps the invariant, sets the booking's status to the answer's status and touches no other booking |
| BookingController.UpsertKeepsOmittedFields | backend/controllers/bookingController.ts:135-140 | an answer that omits the selected option or the message keeps the stored one; supplied fields replace it |
| BookingController.RespondIdempotent | backend/controllers/bookingController.ts:94-179 | sending the same accepted answer twice leaves the tables as sending it once |
| BookingController.TouristBookings | backend/controllers/bookingController.ts:43-63 | 403 unless tourist; otherwise exactly the caller's bookings, each once, newest first, and their count |
| BookingController.TutorBookings | backend/controllers/bookingController.ts:67-90 | 403 unless tutor; otherwise exactly the bookings of the caller's courses, newest first, and their count |
| BookingController.CourseBookings | backend/controllers/bookingController.ts:183-228 | 403 unless tutor, 404 unknown course, 403 for another tutor's course; otherwise exactly that course's bookings, newest first |
| BookingController.CourseBookingsWithinTutorBookings | backend/controllers/bookingController.ts:194-206 | what a tutor sees on one course's page is part of their full bookings list |
| BookingController.OptionsWithout | backend/controllers/bookingController.ts:257 | deleting a booking's slots removes exactly its slots and keeps every other slot row unchanged |
| BookingController.Reschedule | backend/controllers/bookingController.ts:232-277 | 403 unless tourist, 400 malformed, 404 unknown, 403 for another tourist's booking, else 200; on 200 the slots are replaced by new ones whose ids no earlier slot ever had, the status is PENDING and any answer is removed (corrected behaviour) |
| BookingController.RescheduleResets | backend/controllers/bookingController.ts:250-267 | a reschedule keeps the invariant, leaves the booking PENDING with no answer and exactly the new slots |
| BookingController.RescheduleLeavesOthers | backend/controllers/bookingController.ts:256-267 | a reschedule leaves every other booking, its slots and its answer as they were |
| BookingController.OptionsOfAfterReplace | backend/controllers/bookingController.ts:256-263 | replacing a booking's slots gives it exactly the new ones and keeps every other booking's slots |
| BookingController.RescheduleAsWrittenStrandsPendingBooking | backend/controllers/bookingController.ts:256-276 | as written, rescheduling a PENDING booking answers 500 after its slots are already deleted, breaking the invariant |
| BookingController.StaleSelectionSurvivesConfirm | backend/controllers/bookingController.ts:122-140 | as written, a RESCHEDULED answer naming another booking's slot followed by a bare CONFIRMED answer leaves a CONFIRMED answer whose slot belongs to another booking |
| BookingController.CheckedRespondKeepsSelectionsOwn | backend/controllers/bookingController.ts:122-152 | with the slot check applied to the merged answer, every accepted answer keeps every CONFIRMED slot inside its own booking, and the invariant |
| BookingController.CreateAndRescheduleKeepSelectionsOwn | backend/controllers/bookingController.ts:256-264 | creating and rescheduling bookings also keep every CONFIRMED slot inside its own booking |
| ReviewSchema.ParseReview | backend/zod/reviewSchema.ts:4-9 | a review is accepted exactly when it has a course id and a rating from 1 to 5; booking id and comment optional |
| ReviewSchema.ParseReviewUpdate | backend/zod/reviewSchema.ts:11-14 | an edit is accepted exactly when its rating, if present, is from 1 to 5 |
| ReviewSchema.RatingBounds | backend/zod/reviewSchema.ts:7 | ratings need not be whole: 4.5 passes, 0.5 and 5.5 do not, and a course id is required |
| ReviewSchema.EmptyUpdateValid | backend/zod/reviewSchema.ts:11-14 | an edit with no field is valid |
| ReviewController.CreateReview | backend/controllers/reviewController.ts:5-55 | 403 unless tourist, 500 malformed, 403 without a matching CONFIRMED booking, 400 if already reviewed, else 201 and exactly one review by the caller is added |
| ReviewController.CreateReviewOnce | backend/controllers/reviewController.ts:30-49 | a create keeps one review per tourist and course, and the same request sent again gets 400 |
| ReviewController.CreateReviewNeedsConfirmedBooking | backend/controllers/reviewController.ts:14-28 | a 201 implies the caller is a tourist with a CONFIRMED booking of the course |
| ReviewController.UpdateReview | backend/controllers/reviewController.ts:59-83 | 403 unless tourist, 500 malformed, 404 unknown, 403 for another's review, else 200 and the sent fields replace the stored ones |
| ReviewController.UpdateReviewOutcome | backend/controllers/reviewController.ts:67-77 | an edit keeps author, course and one review per course, keeps the rating in range and changes no other review |
| ReviewController.DeleteReview | backend/controllers/reviewController.ts:87-108 | only the author deletes a review; nothing changes otherwise |
| ReviewController.DeleteReviewFreesCourse | backend/controllers/reviewController.ts:95-103 | after a delete the tourist may review that course again |
| CourseSchema.ParseLevel | backend/zod/courseSchema.ts:8 | exactly the three upper-case level names are accepted |
| CourseSchema.ParseCreateCourse | backend/zod/courseSchema.ts:3-13 | length and sign bounds on title, description, price, duration and category; photos must be URLs; a missing level becomes BEGINNER |
| CourseSchema.ParseUpdateCourse | backend/zod/courseSchema.ts:14-27 | every field optional; present title, description, price and level keep their create rules |
| CourseSchema.EmptyDurationOnlyOnUpdate | backend/zod/courseSchema.ts:7-21 | an empty duration is refused on create and accepted on edit |
| CourseSchema.LevelDefaultsToBeginner | backend/zod/courseSchema.ts:8 | no level gives BEGINNER; a lower-case level is refused |
| CourseController.PhotosWithout | backend/controllers/courseController.ts:209 | deleting a course's photos removes exactly its photos and keeps the rest unchanged |
| CourseController.PhotosOfAfterInsert | backend/controllers/courseController.ts:27-34 | the nested photo create gives the course exactly one photo per URL and no other course a new photo |
| CourseController.CreateCourse | backend/controllers/courseController.ts:6-47 | 400 malformed, 403 unless tutor, 400 unknown category, else 201 with a fresh course of the caller and its photos; nothing changes otherwise |
| CourseController.CreateCourseOutcome | backend/controllers/courseController.ts:24-34 | a created course belongs to the caller, is in an existing category, and every photo stays attached to a course |
| CourseController.UpdateCourse | backend/controllers/courseController.ts:135-190 | 400 malformed, 403 unless the owning tutor, 400 unknown non-empty category, else 200; sent fields replace stored ones and a sent photo list replaces all photos |
| CourseController.UpdateCourseOutcome | backend/controllers/courseController.ts:164-180 | an edit keeps the course's owner and keeps every photo attached |
| CourseController.DeleteCourse | backend/controllers/courseController.ts:194-216 | only the owning tutor deletes a course; its photos go with it |
| CourseController.DeleteCourseOutcome | backend/controllers/courseController.ts:209-210 | after a delete no photo of the course remains and every other course keeps its photos |
| CourseController.AllCourses | backend/controllers/courseController.ts:50-82 | exactly the courses passing the category, level and tutor filters, newest first, with their count |
| CourseController.UnknownLevelIgnored | backend/controllers/courseController.ts:58-73 | an unknown level filters nothing; an empty query lists every course |
| CourseController.CourseById | backend/controllers/courseController.ts:86-131 | 404 for an unknown course; the bookings are included only for the tutor who owns it, newest first |
| AuthorizeTourist.Authorize | backend/middleware/authorizeTourist.ts:3-19 | no user is refused as unauthenticated, a non-tourist as forbidden, a tourist passes |
| AuthorizeTourist.Status | backend/middleware/authorizeTourist.ts:9-16 | the refusal statuses are 401 and 403; a passed request gets none |
| AuthorizeTutor.Authorize | backend/middleware/authorizeTutor.ts:3-17 | no user is refused as unauthenticated, a non-tutor as forbidden, a tutor passes |
| AuthorizeTutor.GatesPartitionUsers | backend/middleware/authorizeTutor.ts:8-14 | no user passes both gates and every signed-in user passes exactly one |
| NotificationRoutes.List | backend/routes/notificationroutes.ts:9-19 | 401 without a user; otherwise exactly the caller's notifications, newest first, and their count |
| NotificationRoutes.MarkRead | backend/routes/notificationroutes.ts:22-28 | marks the one notification read whoever owns it; an unknown id gets no reply and changes nothing |
| NotificationRoutes.MarkAllReadEffect | backend/routes/notificationroutes.ts:35-38 | every notification of the user becomes read, no other changes, and doing it twice is doing it once |
| NotificationRoutes.MarkAllRead | backend/routes/notificationroutes.ts:31-41 | 401 without a user; otherwise marks all the caller's notifications read |
| NotificationRoutes.Delete | backend/routes/notificationroutes.ts:44-49 | deletes the one notification whoever owns it; an unknown id gets no reply and changes nothing |
| NotificationRoutes.ClearForEffect | backend/routes/notificationroutes.ts:56-58 | clearing removes all and only the user's notifications |
| NotificationRoutes.ClearAll | backend/routes/notificationroutes.ts:52-61 | 401 without a user; otherwise deletes all the caller's notifications |
| AuthSchema.ParseRole | backend/zod/authSchema.ts:4 | exactly TOURIST and TUTOR are roles |
| AuthSchema.ParseRegisterUser | backend/zod/authSchema.ts:6-19 | a registration is accepted exactly when name, e-mail, password (6 to 50), phone (6 to 20) and country meet their bounds; the role defaults to TOURIST |
| AuthSchema.ParseLogin | backend/zod/authSchema.ts:21-24 | a login is accepted exactly when the e-mail is valid and the password has at least 6 characters |
| AuthSchema.PasswordRulesAgree | backend/zod/authSchema.ts:9-23 | every password registration accepts is accepted at login, while login has no upper bound |
| TouristSchema.NormaliseEmail | backend/src/zod/authSchema.ts:4-8 | trimming and lower-casing never lengthen the e-mail |
| TouristSchema.NormaliseEmailIdempotent | backend/src/zod/authSchema.ts:4-8 | a normalised e-mail has no outer white space or capitals, and normalising again changes nothing |
| TouristSchema.ParseRegisterTourist | backend/src/zod/authSchema.ts:3-30 | the rules are checked on the trimmed and lower-cased values: password 8 to 100 with upper, lower and digit, name 2 to 50, phone an optional plus and 7 to 15 digits, country at most 50 |
| TouristSchema.ParseRegisterTouristStable | backend/src/zod/authSchema.ts:3-30 | an accepted registration parses again to itself |
| TouristSchema.AcceptsNormalised | backend/src/zod/authSchema.ts:3-30 | normalised values that meet the rules are accepted unchanged |
| TouristSchema.PasswordAndPhoneExamples | backend/src/zod/authSchema.ts:10-27 | sample passwords and phone numbers on each side of the rules |
| NotificationStore.MarkRead | frontend/src/store/notificationStore.ts:45-47 | only entries with the id become read; the others are unchanged |
| NotificationStore.MarkAll | frontend/src/store/notificationStore.ts:53 | every entry becomes read and nothing else changes |
| NotificationStore.ActionsKeepValid | frontend/src/store/notificationStore.ts:37-70 | every action keeps the counter non-negative and the list at 50 entries or fewer |
| NotificationStore.AddNoteOrder | frontend/src/store/notificationStore.ts:37-40 | a new notification is first, the older ones follow in order, only the oldest is dropped at 50, and the counter rises by exactly one |
| NotificationStore.RemoveNoteEffect | frontend/src/store/notificationStore.ts:57-61 | removing drops exactly the entries with the id and keeps the order of the rest |
| NotificationStore.RepeatedMarkAsReadUndercounts | frontend/src/store/notificationStore.ts:43-49 | as written, marking the same notification read twice leaves the counter at 0 with one unread notification |
| NotificationStore.AddAtCapOvercounts | frontend/src/store/notificationStore.ts:37-40 | as written, adding to a full list whose oldest entry is unread leaves the counter one above the unread entries |
| NotificationStore.CorrectedActionsKeepCount | frontend/src/store/notificationStore.ts:37-70 | with the corrected counter updates, the counter always equals the number of unread notifications |
| NotificationStore.Store.constructor | frontend/src/store/notificationStore.ts:25-27 | the store starts empty with counter 0 |
| NotificationStore.Store.AddNotification | frontend/src/store/notificationStore.ts:28-42 | the new state is the add action applied to the old one; the new entry is first and unread |
| NotificationStore.Store.MarkAsReadAction | frontend/src/store/notificationStore.ts:43-50 | the new state is the mark-as-read action applied to the old one |
| NotificationStore.Store.MarkAllAsReadAction | frontend/src/store/notificationStore.ts:51-56 | the new state is the mark-all action applied to the old one |
| NotificationStore.Store.RemoveNotification | frontend/src/store/notificationStore.ts:57-67 | the new state is the remove action applied to the old one |
| NotificationStore.Store.ClearAllAction | frontend/src/store/notificationStore.ts:68-70 | the list is empty and the counter 0 |
| NotificationsHook.IdForInjective | frontend/src/components/notifications.tsx:150 | different counter values give different ids |
| NotificationsHook.FilterKeepsDistinctIds | frontend/src/components/notifications.tsx:164-166 | removing toasts keeps the ids distinct |
| NotificationsHook.RemoveEffect | frontend/src/components/notifications.tsx:164-166 | removing drops exactly the toasts with the id and keeps the order of the rest |
| NotificationsHook.Hook.constructor | frontend/src/components/notifications.tsx:141-142 | the list starts empty and the sheet closed |
| NotificationsHook.Hook.Add | frontend/src/components/notifications.tsx:138-157 | the id is "notification-" plus the counter, which rises by one; the toast goes in front; the ids stay distinct |
| NotificationsHook.Hook.Remove | frontend/src/components/notifications.tsx:164-166 | the list is filtered by id; the ids stay distinct |
| NotificationsHook.Hook.ClearAll | frontend/src/components/notifications.tsx:168-170 | the list becomes empty |
| NotificationsHook.Hook.ToggleSheet | frontend/src/components/notifications.tsx:172-174 | the sheet flips, so two toggles restore it |
| TimeAgo.Elapsed | frontend/src/components/ui/notification-dropdown.tsx:9 | the elapsed seconds are rounded down, also for future timestamps |
| TimeAgo.FormatTimeAgo | frontend/src/components/ui/notification-dropdown.tsx:6-23 | "just now" exactly when under a minute has elapsed; every other label ends in " ago" |
| TimeAgo.FutureIsJustNow | frontend/src/components/ui/notification-dropdown.tsx:11-12 | a future timestamp reads "just now" |
| TimeAgo.MinutesAgo | frontend/src/components/ui/notification-dropdown.tsx:13-15 | between a minute and an hour the label is the whole minutes elapsed, 1 to 59, followed by "m ago" |
| TimeAgo.HoursAgo | frontend/src/components/ui/notification-dropdown.tsx:16-18 | between an hour and a day the label is the whole hours, 1 to 23, followed by "h ago" |
| TimeAgo.DaysAgo | frontend/src/components/ui/notification-dropdown.tsx:19-21 | from a day on the label is the whole days, at least 1, followed by "d ago" |
| TimeAgo.InvalidDateReadsNaN | frontend/src/components/ui/notification-dropdown.tsx:7-21 | a timestamp that is not a date falls through to "NaNd ago" |
| Categories.CategoryIdByName | frontend/src/lib/categories.ts:33-35 | the mapped id for a name in the table, else 'cat_other'; never empty |
| Categories.CategoryNameById | frontend/src/lib/categories.ts:38-40 | the name of the listed category with that id, else 'Unknown'; never empty |
| Categories.NameRoundTrip | frontend/src/lib/categories.ts:11-30 | for the five categories in both tables the name survives the round trip through its id |
| Categories.UnmappedNamesLoseTheirCategory | frontend/src/lib/categories.ts:17-35 | Language, Culture & Heritage and Adventure are listed but map to 'cat_other' and come back as 'Unknown' |
| TouristCoursesPage.HasPendingBooking | frontend/src/app/dashboard/tourist/courses/page.tsx:91-95 | true exactly when some booking of the course is PENDING |
| TouristCoursesPage.AvailabilityFollowsFirstBooking | frontend/src/app/dashboard/tourist/courses/page.tsx:97-101 | only the first booking of the course counts: available exactly when it is DECLINED or CONFIRMED |
| TouristCoursesPage.NoBookingMeansAvailable | frontend/src/app/dashboard/tourist/courses/page.tsx:91-101 | a course without bookings is available and has no pending booking |
| TouristCoursesPage.OlderPendingDoesNotBlock | frontend/src/app/dashboard/tourist/courses/page.tsx:91-101 | a newer CONFIRMED booking makes a course available although an older one is still PENDING |
| TouristCoursesPage.FilteredCoursesEffect | frontend/src/app/dashboard/tourist/courses/page.tsx:103-113 | a course is listed exactly when search, category, level and availability all match, in the original order |
| TouristCoursesPage.SearchIgnoresCase | frontend/src/app/dashboard/tourist/courses/page.tsx:104-106 | an empty search matches every course, and the case of the search term does not matter |
| TouristCoursesPage.CategoryNames | frontend/src/app/dashboard/tourist/courses/page.tsx:117 | exactly the non-empty category names of the courses |
| TouristCoursesPage.DedupFacts | frontend/src/app/dashboard/tourist/courses/page.tsx:117 | the set spread keeps every value, repeats none, and drops elements without reordering the rest |
| TouristCoursesPage.DedupOrder | frontend/src/app/dashboard/tourist/courses/page.tsx:117 | the values come in the order of their first occurrences in the input |
| TouristCoursesPage.DedupIsUnique | frontend/src/app/dashboard/tourist/courses/page.tsx:117 | any list holding each input value once, in order of first occurrence, is the set spread's result |
| TouristCoursesPage.CategoryOptionsShape | frontend/src/app/dashboard/tourist/courses/page.tsx:115-118 | "All" first, then each non-empty category name once, in order of first occurrence |
| TutorBookingsPage.StatusName | frontend/src/app/dashboard/tutor/bookings/page.tsx:127-134 | the status names the page compares are the ones the answer schema accepts, PENDING excepted |
| TutorBookingsPage.FilteredBookingsEffect | frontend/src/app/dashboard/tutor/bookings/page.tsx:127-130 | "ALL" shows every booking; any other choice shows exactly the bookings with that status, in order |
| TutorBookingsPage.CountsPartition | frontend/src/app/dashboard/tutor/bookings/page.tsx:132-134 | the four status counts add up to the number of bookings |
| TutorBookingsPage.CountersFit | frontend/src/app/dashboard/tutor/bookings/page.tsx:132-134 | the three counters shown add up to the bookings minus the RESCHEDULED ones |
| TutorBookingsPage.ActionsFor | frontend/src/app/dashboard/tutor/bookings/page.tsx:355-401 | Accept and Reject are offered exactly for PENDING bookings |
| TutorBookingsPage.ResponsesParse | frontend/src/app/dashboard/tutor/bookings/page.tsx:99-104 | Accept sends CONFIRMED with the first slot and "Looking forward to meeting you!"; Reject sends DECLINED with no slot and an empty message; both pass the schema |
| TutorBookingsPage.ResponsesAccepted | frontend/src/app/dashboard/tutor/bookings/page.tsx:92-104 | when the row shows the booking's own slots, the server accepts either answer from the course's tutor |
| Listing.ListNewestFirst | backend/controllers/bookingController.ts:53-57 | the listing returns exactly the selected rows, each once, newest first |

## Left out

- Foreign keys and referential actions of the database schema are not part of this model. For example, creating a booking for an unknown course would fail in the database. Deleting a course that still has bookings would fail too, but only at the course delete. That delete comes after the `coursePhoto.deleteMany` at backend/controllers/courseController.ts:209-210. So the course stays without its photos and the handler answers 500. `CourseController.DeleteCourse` instead answers 200 in that state and removes the course. An edit with category id "" skips the category check and stores "".
- The 500 a booking creation gets from the database for an unknown course id is not modelled, for the same reason.
- The `P2003` branch of course creation is not modelled: it cannot be reached once the category check has passed.
- The answer handler's 500 for a booking whose course row is gone is kept in `RespondCode`, but with foreign keys it cannot occur.
- Atomicity and concurrency: every handler runs alone, and its writes happen in the order of the source.
- The response payloads (the `include` relations, the tourist's name and e-mail) are not modelled. The listings return ids in their order.
- The average rating endpoint is not modelled: it is an aggregate over floating point.
- Password hashing, tokens, and the authentication that fills `req.user` are not modelled. The caller is a parameter.
- `Date` conversion of the slot dates is not modelled: a slot stores its date string.
- Query parameters given as arrays, and body fields of the wrong JSON type, are not modelled: a field is either present with the right type or absent.
- String lengths count characters, not UTF-16 code units. Lower-casing covers ASCII letters only.
- The 5-second auto-remove timer of a toast, the success-message timer, and every network call of the pages are not modelled.
- The pages' rendering and routing are not modelled, nor is the notification sheet's markup.
- Categories.CategoryIdByName: a name such as "toString" finds an inherited member of the JavaScript object and returns it; the model treats such names as absent.
- Common.FreshKeys chooses fresh ids instead of the database's generated ones; the ids' format is not modelled.

## Findings

| source | as written | input that shows it | evidently intended | confidence | as-written member | corrected member |
|---|---|---|---|---|---|---|
| backend/controllers/bookingController.ts:256-267 | the slots are deleted by a separate statement; then the update's nested `tutorResponse: { delete: true }` fails when the booking has no answer, so the handler answers 500 with the slots already gone | a PENDING booking with one slot and no answer, rescheduled by its tourist with one valid slot | the reschedule succeeds, removing an answer only if there is one | not executed; relies on the database client rejecting a nested delete of a missing relation | BookingController.RescheduleAsWrittenStrandsPendingBooking | BookingController.Reschedule |
| backend/controllers/bookingController.ts:122-140 | the slot check looks only at the slot sent now, while the upsert keeps a slot sent earlier | answer RESCHEDULED naming a slot of another booking (not checked), then answer a bare CONFIRMED | a CONFIRMED answer always names one of its own booking's slots | not executed | BookingController.StaleSelectionSurvivesConfirm | BookingController.CheckedRespondKeepsSelectionsOwn |
| frontend/src/store/notificationStore.ts:38-48 | `markAsRead` always lowers the counter by one, and `addNotification` always raises it by one even when the cap drops an unread entry | two unread notifications, `markAsRead` of the same id twice: counter 0, one still unread | the counter equals the number of unread notifications | not executed | NotificationStore.RepeatedMarkAsReadUndercounts | NotificationStore.CorrectedActionsKeepCount |

The store object `NotificationStore.Store` models the actions as written. The
corrected actions are `NotificationStore.AddNoteCounted`,
`NotificationStore.MarkAsReadCounted` and `NotificationStore.RemoveNoteCounted`.
The answer handler with the corrected slot check is
`BookingController.RespondCodeChecked`.
