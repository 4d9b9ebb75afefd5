/** The request-body schemas for creating and editing a course. Whether a
    string is a URL is decided by the validator library; here it is the
    parameter `isUrl`. */
module CourseSchema {

  import opened Common
  import opened Store

  /** A course body as sent; `None` for a field left out. */
  datatype CourseBody = CourseBody(
    title: Option<string>,
    description: Option<string>,
    price: Option<real>,
    duration: Option<string>,
    level: Option<string>,
    location: Option<string>,
    prerequisite: Option<string>,
    categoryId: Option<string>,
    photos: Option<seq<string>>)

  /** A validated new course. */
  datatype CourseInput = CourseInput(
    title: string,
    description: string,
    price: real,
    duration: string,
    level: Level,
    location: Option<string>,
    prerequisite: Option<string>,
    categoryId: Id,
    photos: Option<seq<string>>)

  /** A validated edit; every field is optional. */
  datatype CourseUpdate = CourseUpdate(
    title: Option<string>,
    description: Option<string>,
    price: Option<real>,
    duration: Option<string>,
    level: Option<Level>,
    location: Option<string>,
    prerequisite: Option<string>,
    categoryId: Option<string>,
    photos: Option<seq<string>>)

  /** `z.enum(["BEGINNER", "INTERMEDIATE", "ADVANCED"])`. */
  function ParseLevel(s: string): (r: Option<Level>)
    ensures r.Some? <==> s in {"BEGINNER", "INTERMEDIATE", "ADVANCED"}
    ensures r == Some(Beginner) <==> s == "BEGINNER"
  {
    if s == "BEGINNER" then Some(Beginner)
    else if s == "INTERMEDIATE" then Some(Intermediate)
    else if s == "ADVANCED" then Some(Advanced)
    else None
  }

  /** `z.string().min(n)` on an optional field: absent, or at least `n` long. */
  predicate MinIfPresent(f: Option<string>, n: nat)
  {
    f.None? || |f.value| >= n
  }

  /** `z.array(z.string().url()).optional()`. */
  predicate PhotosValid(photos: Option<seq<string>>, isUrl: string -> bool)
  {
    photos.None? || forall i :: 0 <= i < |photos.value| ==> isUrl(photos.value[i])
  }

  /** `createCourseSchema.parse`: bounds on the required fields, the level
      defaulting to BEGINNER, and the optional fields passed through. */
  function ParseCreateCourse(b: CourseBody, isUrl: string -> bool): (r: Option<CourseInput>)
    ensures r.Some? <==>
      && b.title.Some? && |b.title.value| >= 2
      && b.description.Some? && |b.description.value| >= 10
      && b.price.Some? && b.price.value >= 0.0
      && b.duration.Some? && |b.duration.value| >= 1
      && (b.level.None? || b.level.value in {"BEGINNER", "INTERMEDIATE", "ADVANCED"})
      && b.categoryId.Some? && |b.categoryId.value| >= 1
      && PhotosValid(b.photos, isUrl)
    ensures r.Some? ==>
      && r.value.title == b.title.value && r.value.description == b.description.value
      && r.value.price == b.price.value && r.value.duration == b.duration.value
      && r.value.categoryId == b.categoryId.value && r.value.photos == b.photos
      && r.value.location == b.location && r.value.prerequisite == b.prerequisite
      && (b.level.None? ==> r.value.level == Beginner)
      && (b.level.Some? ==> Some(r.value.level) == ParseLevel(b.level.value))
  {
    var level := if b.level.None? then Some(Beginner) else ParseLevel(b.level.value);
    if && b.title.Some? && |b.title.value| >= 2
       && b.description.Some? && |b.description.value| >= 10
       && b.price.Some? && b.price.value >= 0.0
       && b.duration.Some? && |b.duration.value| >= 1
       && level.Some?
       && b.categoryId.Some? && |b.categoryId.value| >= 1
       && PhotosValid(b.photos, isUrl)
    then Some(CourseInput(b.title.value, b.description.value, b.price.value, b.duration.value, level.value,
                          b.location, b.prerequisite, b.categoryId.value, b.photos))
    else None
  }

  /** `updateCourseSchema.parse`: every field optional; title, description,
      price and level keep their create rules when present, the other
      strings have none. */
  function ParseUpdateCourse(b: CourseBody, isUrl: string -> bool): (r: Option<CourseUpdate>)
    ensures r.Some? <==>
      && MinIfPresent(b.title, 2) && MinIfPresent(b.description, 10)
      && (b.price.None? || b.price.value >= 0.0)
      && (b.level.None? || b.level.value in {"BEGINNER", "INTERMEDIATE", "ADVANCED"})
      && PhotosValid(b.photos, isUrl)
    ensures r.Some? ==>
      && r.value.title == b.title && r.value.description == b.description && r.value.price == b.price
      && r.value.duration == b.duration && r.value.location == b.location
      && r.value.prerequisite == b.prerequisite && r.value.categoryId == b.categoryId && r.value.photos == b.photos
      && (b.level.None? <==> r.value.level.None?)
      && (b.level.Some? ==> r.value.level == ParseLevel(b.level.value))
  {
    var level := if b.level.None? then None else ParseLevel(b.level.value);
    if && MinIfPresent(b.title, 2) && MinIfPresent(b.description, 10)
       && (b.price.None? || b.price.value >= 0.0)
       && (b.level.None? || level.Some?)
       && PhotosValid(b.photos, isUrl)
    then Some(CourseUpdate(b.title, b.description, b.price, b.duration, level,
                           b.location, b.prerequisite, b.categoryId, b.photos))
    else None
  }

  /** An empty duration is refused when creating a course but accepted when
      editing one. */
  lemma EmptyDurationOnlyOnUpdate(b: CourseBody, isUrl: string -> bool)
    requires b.duration == Some("")
    ensures ParseCreateCourse(b, isUrl).None?
    ensures ParseUpdateCourse(CourseBody(None, None, None, Some(""), None, None, None, None, None), isUrl).Some?
  {
  }

  /** A create body without a level gets BEGINNER; one with an unknown level is refused. */
  lemma LevelDefaultsToBeginner(b: CourseBody, isUrl: string -> bool)
    requires ParseCreateCourse(b.(level := None), isUrl).Some?
    ensures ParseCreateCourse(b.(level := None), isUrl).value.level == Beginner
    ensures ParseCreateCourse(b.(level := Some("beginner")), isUrl).None?
  {
  }
}
