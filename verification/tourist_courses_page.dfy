/** The tourist's course browser: which courses it offers for booking, how
    the search box and the two selectors narrow the list, and the list of
    category names offered in the selector. `myBookings` is the tourist's
    booking list as the server sends it, newest first. */
module TouristCoursesPage {

  import opened Common
  import opened Text
  import opened Seqs
  import opened Store

  /** The fields of a listed course the page reads. */
  datatype CourseCard = CourseCard(id: Id, title: string, description: string, categoryName: Option<string>, level: string)

  /** The fields of one of the tourist's bookings the page reads. */
  datatype BookingCard = BookingCard(courseId: Id, status: BookingStatus)

  /** `hasPendingBooking`. */
  function HasPendingBooking(bookings: seq<BookingCard>, course: Id): (r: bool)
    ensures r <==> exists i :: 0 <= i < |bookings| && bookings[i].courseId == course && bookings[i].status == Pending
  {
    Find((b: BookingCard) => b.courseId == course && b.status == Pending, bookings).Some?
  }

  /** `isCourseAvailable`: a course with no booking is available; otherwise
      the first booking of it in the list decides. */
  function IsCourseAvailable(bookings: seq<BookingCard>, course: Id): bool
  {
    var b := Find((b: BookingCard) => b.courseId == course, bookings);
    b.None? || b.value.status == Declined || b.value.status == Confirmed
  }

  /** Only the first booking of the course counts: the course is available
      exactly when there is none, or the first one is DECLINED or CONFIRMED. */
  lemma AvailabilityFollowsFirstBooking(bookings: seq<BookingCard>, course: Id, i: nat)
    requires i < |bookings| && bookings[i].courseId == course
    requires forall j :: 0 <= j < i ==> bookings[j].courseId != course
    ensures IsCourseAvailable(bookings, course) <==> bookings[i].status in {Declined, Confirmed}
  {
    var f := Find((b: BookingCard) => b.courseId == course, bookings);
    var k :| 0 <= k < |bookings| && bookings[k] == f.value && bookings[k].courseId == course
      && forall j :: 0 <= j < k ==> bookings[j].courseId != course;
    assert k == i;
  }

  lemma NoBookingMeansAvailable(bookings: seq<BookingCard>, course: Id)
    requires forall j :: 0 <= j < |bookings| ==> bookings[j].courseId != course
    ensures IsCourseAvailable(bookings, course) && !HasPendingBooking(bookings, course)
  {
  }

  /** A newer CONFIRMED booking hides an older PENDING one: the course is
      offered again although a request for it is still waiting. */
  lemma OlderPendingDoesNotBlock(course: Id)
    ensures var bookings := [BookingCard(course, Confirmed), BookingCard(course, Pending)];
      IsCourseAvailable(bookings, course) && HasPendingBooking(bookings, course)
  {
    var bookings := [BookingCard(course, Confirmed), BookingCard(course, Pending)];
    assert bookings[1].courseId == course && bookings[1].status == Pending;
  }

  /** The search term occurs in the title or the description, ignoring case. */
  predicate MatchesSearch(c: CourseCard, search: string)
  {
    Contains(ToLower(c.title), ToLower(search)) || Contains(ToLower(c.description), ToLower(search))
  }

  /** The four conditions a listed course must meet. */
  predicate Keep(c: CourseCard, search: string, category: string, level: string, bookings: seq<BookingCard>)
  {
    && MatchesSearch(c, search)
    && (category == "All" || (c.categoryName.Some? && c.categoryName.value == category))
    && (level == "All" || c.level == level)
    && IsCourseAvailable(bookings, c.id)
  }

  /** `filteredCourses`. */
  function FilteredCourses(courses: seq<CourseCard>, search: string, category: string, level: string,
                           bookings: seq<BookingCard>): seq<CourseCard>
  {
    Filter((c: CourseCard) => Keep(c, search, category, level, bookings), courses)
  }

  /** A course is listed exactly when it meets all four conditions, and the
      listed courses keep their order. */
  lemma FilteredCoursesEffect(courses: seq<CourseCard>, search: string, category: string, level: string,
                              bookings: seq<BookingCard>, c: CourseCard)
    ensures c in FilteredCourses(courses, search, category, level, bookings) <==>
      c in courses && Keep(c, search, category, level, bookings)
    ensures IsSubsequence(FilteredCourses(courses, search, category, level, bookings), courses)
  {
    FilterMembers((c: CourseCard) => Keep(c, search, category, level, bookings), courses, c);
    FilterIsSubsequence((c: CourseCard) => Keep(c, search, category, level, bookings), courses);
  }

  /** An empty search box matches every course, and the case of the search
      term does not matter. */
  lemma SearchIgnoresCase(c: CourseCard, search: string)
    ensures MatchesSearch(c, "")
    ensures MatchesSearch(c, ToLower(search)) <==> MatchesSearch(c, search)
  {
    ContainsEmpty(ToLower(c.title));
    ToLowerNormalises(search);
  }

  /** `courses.map(c => c.category?.name).filter(Boolean)`. */
  function CategoryNames(courses: seq<CourseCard>): (r: seq<string>)
    ensures forall x :: x in r <==> x != "" && exists i :: 0 <= i < |courses| && courses[i].categoryName == Some(x)
  {
    if courses == [] then []
    else
      var rest := CategoryNames(courses[1..]);
      assert forall i :: 0 <= i < |courses[1..]| ==> courses[1..][i] == courses[i + 1];
      if courses[0].categoryName.Some? && courses[0].categoryName.value != "" then [courses[0].categoryName.value] + rest
      else rest
  }

  /** `s` with every occurrence of `v` dropped. */
  function Without(s: seq<string>, v: string): (r: seq<string>)
    ensures |r| <= |s|
  {
    Filter((x: string) => x != v, s)
  }

  /** Dropping `v` keeps exactly the other values, in their order. */
  lemma WithoutMembers(s: seq<string>, v: string, x: string)
    ensures x in Without(s, v) <==> x in s && x != v
    ensures IsSubsequence(Without(s, v), s)
  {
    FilterMembers((x: string) => x != v, s, x);
    FilterIsSubsequence((x: string) => x != v, s);
  }

  /** Dropping `v` keeps the order of first occurrences of the other values. */
  lemma WithoutFirstOrder(s: seq<string>, v: string, y: string, z: string)
    requires y in s && z in s && y != v && z != v
    ensures y in Without(s, v) && z in Without(s, v)
    ensures FirstIndex(Without(s, v), y) < FirstIndex(Without(s, v), z) <==> FirstIndex(s, y) < FirstIndex(s, z)
  {
    FilterKeepsFirstOrder((x: string) => x != v, s, y, z);
  }

  /** `[...new Set(s)]`: each value once, at the place of its first occurrence. */
  function Dedup(s: seq<string>): seq<string>
    decreases |s|
  {
    if s == [] then [] else [s[0]] + Dedup(Without(s[1..], s[0]))
  }

  /** Dedup keeps every value, repeats none, and drops elements without
      reordering the rest. */
  lemma {:induction false} DedupFacts(s: seq<string>)
    ensures forall x :: x in Dedup(s) <==> x in s
    ensures Distinct(Dedup(s))
    ensures IsSubsequence(Dedup(s), s)
    decreases |s|
  {
    if s != [] {
      var rest := Without(s[1..], s[0]);
      DedupFacts(rest);
      forall x
        ensures x in rest <==> x in s[1..] && x != s[0]
      {
        WithoutMembers(s[1..], s[0], x);
      }
      assert s == [s[0]] + s[1..];
      var r := Dedup(s);
      assert r == [s[0]] + Dedup(rest);
      forall i, j | 0 <= i < j < |r|
        ensures r[i] != r[j]
      {
        assert r[j] == Dedup(rest)[j - 1] && r[j] in Dedup(rest);
        if i > 0 {
          assert r[i] == Dedup(rest)[i - 1];
        } else {
          assert r[j] in rest;
        }
      }
      WithoutMembers(s[1..], s[0], s[0]);
      SubsequenceTransitive(Dedup(rest), rest, s[1..]);
      assert r[1..] == Dedup(rest);
    }
  }

  /** Two values other than `s[0]` that occur after it keep the order of
      their first occurrences once `s[0]` is dropped. */
  lemma TailFirstOrder(s: seq<string>, y: string, z: string)
    requires s != [] && y in Without(s[1..], s[0]) && z in Without(s[1..], s[0])
    requires FirstIndex(Without(s[1..], s[0]), y) < FirstIndex(Without(s[1..], s[0]), z)
    ensures y in s && z in s && FirstIndex(s, y) < FirstIndex(s, z)
  {
    WithoutMembers(s[1..], s[0], y);
    WithoutMembers(s[1..], s[0], z);
    WithoutFirstOrder(s[1..], s[0], y, z);
  }

  /** Any two positions of `Dedup(s)` hold values in the order of their
      first occurrences in `s`. */
  lemma {:induction false} DedupPairOrder(s: seq<string>, i: nat, j: nat)
    requires i < j < |Dedup(s)|
    ensures Dedup(s)[i] in s && Dedup(s)[j] in s
    ensures FirstIndex(s, Dedup(s)[i]) < FirstIndex(s, Dedup(s)[j])
    decreases |s|
  {
    assert s != [];
    var rest := Without(s[1..], s[0]);
    var d := Dedup(rest);
    assert Dedup(s) == [s[0]] + d;
    var z := d[j - 1];
    DedupFacts(rest);
    assert Dedup(s)[j] == z && z in rest;
    WithoutMembers(s[1..], s[0], z);
    if i == 0 {
      assert Dedup(s)[0] == s[0] && s[0] != z;
    } else {
      DedupPairOrder(rest, i - 1, j - 1);
      var y := d[i - 1];
      assert Dedup(s)[i] == y;
      TailFirstOrder(s, y, z);
    }
  }

  /** Dedup lists the values in the order of their first occurrences. */
  lemma DedupOrder(s: seq<string>)
    ensures FirstOccurrenceOrder(Dedup(s), s)
  {
    forall i, j | 0 <= i < j < |Dedup(s)| && Dedup(s)[i] in s && Dedup(s)[j] in s
      ensures FirstIndex(s, Dedup(s)[i]) < FirstIndex(s, Dedup(s)[j])
    {
      DedupPairOrder(s, i, j);
    }
  }

  /** A list holding the values of `s` in the order of their first
      occurrences starts with `s[0]`. */
  lemma OrderedListHead(s: seq<string>, r: seq<string>)
    requires s != [] && (forall x :: x in r <==> x in s) && FirstOccurrenceOrder(r, s)
    ensures r != [] && r[0] == s[0]
  {
    assert s[0] in s && s[0] in r;
    var k :| 0 <= k < |r| && r[k] == s[0];
    assert FirstIndex(s, s[0]) == 0;
    assert r[0] in s;
    assert k == 0;
  }

  /** Past its head, such a list holds exactly the values of `s` other
      than `s[0]`. */
  lemma OrderedListTailMembers(s: seq<string>, r: seq<string>)
    requires s != [] && r != [] && r[0] == s[0]
    requires (forall x :: x in r <==> x in s) && Distinct(r)
    ensures forall x :: x in r[1..] <==> x in Without(s[1..], s[0])
  {
    forall x
      ensures x in r[1..] <==> x in Without(s[1..], s[0])
    {
      WithoutMembers(s[1..], s[0], x);
      assert x in r <==> x == r[0] || x in r[1..];
      if x in r[1..] {
        var m :| 0 <= m < |r[1..]| && r[1..][m] == x;
        assert r[m + 1] == x;
      }
    }
  }

  /** Past its head, such a list keeps the order of first occurrences once
      `s[0]` is dropped from `s`. */
  lemma OrderedListTailOrder(s: seq<string>, r: seq<string>)
    requires s != [] && r != [] && FirstOccurrenceOrder(r, s)
    ensures FirstOccurrenceOrder(r[1..], Without(s[1..], s[0]))
  {
    var rest := Without(s[1..], s[0]);
    var r' := r[1..];
    forall i, j | 0 <= i < j < |r'| && r'[i] in rest && r'[j] in rest
      ensures FirstIndex(rest, r'[i]) < FirstIndex(rest, r'[j])
    {
      assert r'[i] == r[i + 1] && r'[j] == r[j + 1];
      WithoutMembers(s[1..], s[0], r'[i]);
      WithoutMembers(s[1..], s[0], r'[j]);
      WithoutFirstOrder(s[1..], s[0], r'[i], r'[j]);
    }
  }

  /** Dedup is the only list that holds each value of `s` once, in the order
      of first occurrences. */
  lemma {:induction false} DedupIsUnique(s: seq<string>, r: seq<string>)
    requires forall x :: x in r <==> x in s
    requires Distinct(r) && FirstOccurrenceOrder(r, s)
    ensures r == Dedup(s)
    decreases |s|
  {
    assert r != [] ==> r[0] in s;
    if s != [] {
      OrderedListHead(s, r);
      OrderedListTailMembers(s, r);
      OrderedListTailOrder(s, r);
      DedupIsUnique(Without(s[1..], s[0]), r[1..]);
      assert r == [s[0]] + r[1..];
    }
  }

  /** The category selector's options. */
  function CategoryOptions(courses: seq<CourseCard>): seq<string>
  {
    ["All"] + Dedup(CategoryNames(courses))
  }

  /** "All" first, then every non-empty category name of a listed course once,
      in the order the names first appear. */
  lemma CategoryOptionsShape(courses: seq<CourseCard>)
    ensures var r := CategoryOptions(courses);
      && r[0] == "All" && Distinct(r[1..])
      && (forall x :: x in r[1..] <==> x != "" && exists i :: 0 <= i < |courses| && courses[i].categoryName == Some(x))
      && IsSubsequence(r[1..], CategoryNames(courses))
      && FirstOccurrenceOrder(r[1..], CategoryNames(courses))
  {
    DedupFacts(CategoryNames(courses));
    DedupOrder(CategoryNames(courses));
    assert CategoryOptions(courses)[1..] == Dedup(CategoryNames(courses));
  }
}
