/** Courses and their photos: tutors create, edit and delete their own
    courses; anyone may list and read them, and the owning tutor also sees
    the bookings of a course. */
module CourseController {

  import opened Common
  import opened Store
  import opened CourseSchema
  import Listing
  import BookingController

  /** The photo rows a nested `photos: { create }` inserts: the photo with id
      `ids[i]` holds URL `i`. */
  function NewPhotos(course: Id, ids: seq<Id>, urls: seq<string>): map<Id, CoursePhoto>
    requires |ids| == |urls| && Distinct(ids)
  {
    map i | 0 <= i < |ids| :: ids[i] := CoursePhoto(course, urls[i])
  }

  /** `photos?.map(...) || []`: the URLs sent, or none. */
  function UrlsOf(photos: Option<seq<string>>): seq<string>
  {
    if photos.None? then [] else photos.value
  }

  /** The ids of the photos of course `c`. */
  function PhotosOf(photos: map<Id, CoursePhoto>, c: Id): set<Id>
  {
    set p | p in photos && photos[p].courseId == c
  }

  /** The photos that remain after `coursePhoto.deleteMany({ where: { courseId: c } })`. */
  function PhotosWithout(photos: map<Id, CoursePhoto>, c: Id): (r: map<Id, CoursePhoto>)
    ensures forall p :: p in r <==> p in photos && photos[p].courseId != c
    ensures forall p :: p in r ==> r[p] == photos[p]
  {
    map p | p in photos && photos[p].courseId != c :: photos[p]
  }

  /** Every photo belongs to an existing course. */
  ghost predicate PhotosAttached(courses: map<Id, Course>, photos: map<Id, CoursePhoto>)
  {
    forall p :: p in photos ==> photos[p].courseId in courses
  }

  /** What inserting fresh photos for course `c` does to the photos of every course. */
  lemma {:induction false} PhotosOfAfterInsert(photos: map<Id, CoursePhoto>, c: Id, ids: seq<Id>, urls: seq<string>, d: Id)
    requires |ids| == |urls| && FreshIds(ids, photos.Keys)
    ensures PhotosOf(photos + NewPhotos(c, ids, urls), d)
         == if d == c then PhotosOf(photos, c) + (set x | x in ids) else PhotosOf(photos, d)
    ensures forall i :: 0 <= i < |ids| ==> (photos + NewPhotos(c, ids, urls))[ids[i]] == CoursePhoto(c, urls[i])
  {
    var added := NewPhotos(c, ids, urls);
    forall x | x in ids ensures x in added && added[x].courseId == c {
      var i :| 0 <= i < |ids| && ids[i] == x;
    }
    forall x | x in added ensures x in ids && added[x].courseId == c {
    }
  }

  // ---------------------------------------------------------------- create

  /** The status `createCourseController` answers with: the body is checked
      before the role, so a malformed body from anyone gets 400. */
  function CreateCourseCode(categories: set<Id>, caller: Option<User>, body: CourseBody, isUrl: string -> bool): int
  {
    if ParseCreateCourse(body, isUrl).None? then 400
    else if !HasRole(caller, Tutor) then 403
    else if ParseCreateCourse(body, isUrl).value.categoryId !in categories then 400
    else 201
  }

  /** The course row a create stores for `tutor`. */
  function CourseRow(tutor: Id, input: CourseInput, now: int): Course
  {
    Course(tutor, input.categoryId, input.title, input.description, input.price, input.duration,
           input.level, input.location, input.prerequisite, now)
  }

  /** `createCourseController`: on 201 a fresh course of the caller is stored
      with one photo per URL sent; otherwise nothing changes. */
  method CreateCourse(db: Db, caller: Option<User>, body: CourseBody, isUrl: string -> bool, now: int)
    returns (code: int, id: Id, photoIds: seq<Id>)
    modifies db`courses, db`photos
    ensures code == CreateCourseCode(db.categories, caller, body, isUrl)
    ensures code != 201 ==> db.courses == old(db.courses) && db.photos == old(db.photos)
    ensures code == 201 ==>
      var input := ParseCreateCourse(body, isUrl).value;
      && id !in old(db.courses)
      && db.courses == old(db.courses)[id := CourseRow(caller.value.id, input, now)]
      && |photoIds| == |UrlsOf(input.photos)| && FreshIds(photoIds, old(db.photos).Keys)
      && db.photos == old(db.photos) + NewPhotos(id, photoIds, UrlsOf(input.photos))
  {
    id, photoIds := "", [];
    var parsed := ParseCreateCourse(body, isUrl);
    if parsed.None? {
      return 400, id, photoIds;
    }
    if !HasRole(caller, Tutor) {
      return 403, id, photoIds;
    }
    var input := parsed.value;
    if input.categoryId !in db.categories {
      return 400, id, photoIds;
    }
    FreshIdExists(db.courses.Keys);
    id :| id !in db.courses;
    var urls := UrlsOf(input.photos);
    photoIds := FreshKeys(db.photos.Keys, |urls|);
    db.courses := db.courses[id := CourseRow(caller.value.id, input, now)];
    db.photos := db.photos + NewPhotos(id, photoIds, urls);
    code := 201;
  }

  /** A created course belongs to the caller, is in an existing category, and
      its photos are exactly the new ones, the `i`-th holding the `i`-th URL. */
  lemma CreateCourseOutcome(courses: map<Id, Course>, photos: map<Id, CoursePhoto>, categories: set<Id>,
                            caller: Option<User>, body: CourseBody, isUrl: string -> bool, now: int, id: Id, ids: seq<Id>)
    requires PhotosAttached(courses, photos) && id !in courses
    requires CreateCourseCode(categories, caller, body, isUrl) == 201
    requires |ids| == |UrlsOf(ParseCreateCourse(body, isUrl).value.photos)| && FreshIds(ids, photos.Keys)
    ensures var input := ParseCreateCourse(body, isUrl).value;
      var urls := UrlsOf(input.photos);
      var courses' := courses[id := CourseRow(caller.value.id, input, now)];
      var photos' := photos + NewPhotos(id, ids, urls);
      && PhotosAttached(courses', photos')
      && courses'[id].tutorId == caller.value.id && courses'[id].categoryId in categories
      && PhotosOf(photos', id) == (set x | x in ids)
      && (forall i :: 0 <= i < |ids| ==> photos'[ids[i]] == CoursePhoto(id, urls[i]))
  {
    var input := ParseCreateCourse(body, isUrl).value;
    var urls := UrlsOf(input.photos);
    PhotosOfAfterInsert(photos, id, ids, urls, id);
    assert PhotosOf(photos, id) == {};
  }

  // ---------------------------------------------------------------- update

  /** The status `updateCourseController` answers with. A missing course and
      another tutor's course both get 403; an empty category id skips the
      category check. */
  function UpdateCourseCode(courses: map<Id, Course>, categories: set<Id>, caller: Option<User>, id: Id, body: CourseBody, isUrl: string -> bool): int
  {
    if ParseUpdateCourse(body, isUrl).None? then 400
    else if !HasRole(caller, Tutor) then 403
    else if id !in courses || courses[id].tutorId != caller.value.id then 403
    else
      var category := ParseUpdateCourse(body, isUrl).value.categoryId;
      if category.Some? && category.value != "" && category.value !in categories then 400
      else 200
  }

  /** `course.update({ data: courseData })`: each field sent replaces the stored one. */
  function ApplyCourseUpdate(c: Course, u: CourseUpdate): Course
  {
    c.(title := if u.title.Some? then u.title.value else c.title,
       description := if u.description.Some? then u.description.value else c.description,
       price := if u.price.Some? then u.price.value else c.price,
       duration := if u.duration.Some? then u.duration.value else c.duration,
       level := if u.level.Some? then u.level.value else c.level,
       location := if u.location.Some? then u.location else c.location,
       prerequisite := if u.prerequisite.Some? then u.prerequisite else c.prerequisite,
       categoryId := if u.categoryId.Some? then u.categoryId.value else c.categoryId)
  }

  /** The photos after an edit: replaced wholesale when a list is sent (even
      an empty one), untouched otherwise. */
  function ReplacePhotos(photos: map<Id, CoursePhoto>, id: Id, u: CourseUpdate, ids: seq<Id>): map<Id, CoursePhoto>
    requires u.photos.Some? ==> |ids| == |u.photos.value| && Distinct(ids)
  {
    if u.photos.None? then photos else PhotosWithout(photos, id) + NewPhotos(id, ids, u.photos.value)
  }

  /** `updateCourseController`. */
  method UpdateCourse(db: Db, caller: Option<User>, id: Id, body: CourseBody, isUrl: string -> bool)
    returns (code: int, photoIds: seq<Id>)
    modifies db`courses, db`photos
    ensures code == UpdateCourseCode(old(db.courses), db.categories, caller, id, body, isUrl)
    ensures code != 200 ==> db.courses == old(db.courses) && db.photos == old(db.photos)
    ensures code == 200 ==>
      var u := ParseUpdateCourse(body, isUrl).value;
      && (u.photos.Some? ==> |photoIds| == |u.photos.value| && FreshIds(photoIds, PhotosWithout(old(db.photos), id).Keys))
      && db.courses == old(db.courses)[id := ApplyCourseUpdate(old(db.courses)[id], u)]
      && db.photos == ReplacePhotos(old(db.photos), id, u, photoIds)
  {
    photoIds := [];
    var parsed := ParseUpdateCourse(body, isUrl);
    if parsed.None? {
      return 400, photoIds;
    }
    if !HasRole(caller, Tutor) {
      return 403, photoIds;
    }
    if id !in db.courses || db.courses[id].tutorId != caller.value.id {
      return 403, photoIds;
    }
    var u := parsed.value;
    if u.categoryId.Some? && u.categoryId.value != "" && u.categoryId.value !in db.categories {
      return 400, photoIds;
    }
    db.courses := db.courses[id := ApplyCourseUpdate(db.courses[id], u)];
    if u.photos.Some? {
      db.photos := PhotosWithout(db.photos, id);
      photoIds := FreshKeys(db.photos.Keys, |u.photos.value|);
      db.photos := db.photos + NewPhotos(id, photoIds, u.photos.value);
    }
    code := 200;
  }

  /** An accepted edit keeps the course with its owner, keeps every photo
      attached, gives the course exactly the new photos when a list is sent
      and its old ones otherwise, and leaves every other course and its
      photos alone. */
  lemma UpdateCourseOutcome(courses: map<Id, Course>, photos: map<Id, CoursePhoto>, categories: set<Id>,
                            caller: Option<User>, id: Id, body: CourseBody, isUrl: string -> bool, ids: seq<Id>)
    requires PhotosAttached(courses, photos)
    requires UpdateCourseCode(courses, categories, caller, id, body, isUrl) == 200
    requires var u := ParseUpdateCourse(body, isUrl).value;
      u.photos.Some? ==> |ids| == |u.photos.value| && FreshIds(ids, PhotosWithout(photos, id).Keys)
    ensures var u := ParseUpdateCourse(body, isUrl).value;
      var courses' := courses[id := ApplyCourseUpdate(courses[id], u)];
      var photos' := ReplacePhotos(photos, id, u, ids);
      && PhotosAttached(courses', photos')
      && courses'[id].tutorId == caller.value.id
      && PhotosOf(photos', id) == (if u.photos.None? then PhotosOf(photos, id) else set x | x in ids)
      && (forall d :: d in courses && d != id ==> courses'[d] == courses[d] && PhotosOf(photos', d) == PhotosOf(photos, d))
  {
    var u := ParseUpdateCourse(body, isUrl).value;
    if u.photos.Some? {
      var kept := PhotosWithout(photos, id);
      assert PhotosOf(kept, id) == {};
      forall d ensures PhotosOf(ReplacePhotos(photos, id, u, ids), d) == if d == id then (set x | x in ids) else PhotosOf(photos, d) {
        PhotosOfAfterInsert(kept, id, ids, u.photos.value, d);
        assert d != id ==> PhotosOf(kept, d) == PhotosOf(photos, d);
      }
    }
  }

  // ---------------------------------------------------------------- delete

  /** The status `deleteCourseController` answers with. */
  function DeleteCourseCode(courses: map<Id, Course>, caller: Option<User>, id: Id): int
  {
    if !HasRole(caller, Tutor) then 403
    else if id !in courses || courses[id].tutorId != caller.value.id then 403
    else 200
  }

  /** `deleteCourseController`: the course's photos go first, then the course. */
  method DeleteCourse(db: Db, caller: Option<User>, id: Id) returns (code: int)
    modifies db`courses, db`photos
    ensures code == DeleteCourseCode(old(db.courses), caller, id)
    ensures code != 200 ==> db.courses == old(db.courses) && db.photos == old(db.photos)
    ensures code == 200 ==> db.courses == old(db.courses) - {id} && db.photos == PhotosWithout(old(db.photos), id)
  {
    if !HasRole(caller, Tutor) {
      return 403;
    }
    if id !in db.courses || db.courses[id].tutorId != caller.value.id {
      return 403;
    }
    db.photos := PhotosWithout(db.photos, id);
    db.courses := db.courses - {id};
    code := 200;
  }

  /** Deleting a course leaves no photo of it behind and every other course with its photos. */
  lemma DeleteCourseOutcome(courses: map<Id, Course>, photos: map<Id, CoursePhoto>, id: Id)
    requires PhotosAttached(courses, photos)
    ensures PhotosAttached(courses - {id}, PhotosWithout(photos, id))
    ensures PhotosOf(PhotosWithout(photos, id), id) == {}
    ensures forall d :: d != id ==> PhotosOf(PhotosWithout(photos, id), d) == PhotosOf(photos, d)
  {
  }

  // ---------------------------------------------------------------- read

  /** The query string of the course list. */
  datatype CourseQuery = CourseQuery(categoryId: Option<string>, level: Option<string>, tutorId: Option<string>)

  /** A query parameter that is present and not empty (JavaScript truthiness). */
  predicate Given(p: Option<string>)
  {
    p.Some? && p.value != ""
  }

  /** The level filter: only a known level filters; anything else is ignored. */
  function LevelFilter(q: CourseQuery): Option<Level>
  {
    if Given(q.level) then ParseLevel(q.level.value) else None
  }

  /** A course passes the query's filters. */
  predicate MatchesQuery(c: Course, q: CourseQuery)
  {
    && (!Given(q.categoryId) || c.categoryId == q.categoryId.value)
    && (LevelFilter(q).None? || c.level == LevelFilter(q).value)
    && (!Given(q.tutorId) || c.tutorId == q.tutorId.value)
  }

  function Selected(courses: map<Id, Course>, q: CourseQuery): set<Id>
  {
    set c | c in courses && MatchesQuery(courses[c], q)
  }

  function CourseStamp(c: Course): int
  {
    c.createdAt
  }

  /** `getAllCoursesController`: the courses that pass the filters, newest first, with their count. */
  method AllCourses(db: Db, q: CourseQuery) returns (code: int, count: nat, list: seq<Id>)
    ensures code == 200 && count == |list|
    ensures Listing.Lists(db.courses, CourseStamp, Selected(db.courses, q), list)
  {
    list := Listing.ListNewestFirst(db.courses, CourseStamp, Selected(db.courses, q));
    return 200, |list|, list;
  }

  /** A level that is not one of the three known ones filters nothing, and a
      query without filters selects every course. */
  lemma UnknownLevelIgnored(courses: map<Id, Course>, q: CourseQuery)
    ensures q.level.Some? && q.level.value !in {"BEGINNER", "INTERMEDIATE", "ADVANCED"} ==>
      Selected(courses, q) == Selected(courses, q.(level := None))
    ensures Selected(courses, CourseQuery(None, None, None)) == courses.Keys
  {
  }

  /** The full bookings of a course are shown to the tutor who owns it, and to no one else. */
  predicate BookingsVisible(c: Course, caller: Option<User>)
  {
    HasRole(caller, Tutor) && c.tutorId == caller.value.id
  }

  /** `getCourseByIdController`: 404 for an unknown course; otherwise the
      course, with its bookings (newest first) only for its owner. */
  method CourseById(db: Db, caller: Option<User>, id: Id) returns (code: int, bookings: Option<seq<Id>>)
    ensures id !in db.courses ==> code == 404 && bookings.None?
    ensures id in db.courses ==> code == 200 && (bookings.Some? <==> BookingsVisible(db.courses[id], caller))
    ensures bookings.Some? ==>
      Listing.Lists(db.bookings, BookingController.Stamp, BookingController.BookingsOfCourse(db.bookings, id), bookings.value)
  {
    if id !in db.courses {
      return 404, None;
    }
    if BookingsVisible(db.courses[id], caller) {
      var list := Listing.ListNewestFirst(db.bookings, BookingController.Stamp, BookingController.BookingsOfCourse(db.bookings, id));
      return 200, Some(list);
    }
    return 200, None;
  }
}
