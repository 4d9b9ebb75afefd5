/** The booking negotiation between a tourist and the tutor of a course.

    A tourist creates a booking with one or more candidate slots; the tutor
    of the course answers CONFIRMED (optionally naming the chosen slot),
    DECLINED or RESCHEDULED; the tourist may reschedule, which replaces the
    slots, returns the booking to PENDING and removes the tutor's answer.

    Each handler is modelled in two parts: a function of the tables giving
    the HTTP status it answers with, and a function giving the tables it
    leaves behind on success. The methods perform the writes step by step
    on the shared `Db` and are proved to end in exactly that state. */
module BookingController {

  import opened Common
  import opened Store
  import opened BookingSchema
  import Listing

  /** The tables the booking handlers read and write. */
  datatype Tables = Tables(
    courses: map<Id, Course>,
    bookings: map<Id, Booking>,
    options: map<Id, BookingOption>,
    responses: map<Id, TutorResponse>)

  function Snapshot(db: Db): Tables
    reads db
  {
    Tables(db.courses, db.bookings, db.options, db.responses)
  }

  /** The ids of the options that belong to booking `b` (`booking.options`). */
  function OptionsOf(options: map<Id, BookingOption>, b: Id): set<Id>
  {
    set o | o in options && options[o].bookingId == b
  }

  /** The status of booking `b` is PENDING exactly when it has no tutor
      response, and otherwise is the status of that response. */
  ghost predicate StatusMirrorsResponse(t: Tables, b: Id)
    requires b in t.bookings
  {
    if b in t.responses then t.responses[b].status != Pending && t.bookings[b].status == t.responses[b].status
    else t.bookings[b].status == Pending
  }

  /** The invariant of the negotiation: options and responses hang off
      existing bookings, every booking has at least one candidate slot, and
      its status mirrors its response. */
  ghost predicate Consistent(t: Tables)
  {
    && (forall o :: o in t.options ==> t.options[o].bookingId in t.bookings)
    && (forall b :: b in t.responses ==> b in t.bookings)
    && (forall b :: b in t.bookings ==> StatusMirrorsResponse(t, b) && OptionsOf(t.options, b) != {})
  }

  /** The stored form of a slot's time range. */
  function TimeRange(s: Slot): string
  {
    s.startTime + " - " + s.endTime
  }

  /** The rows a nested `options: { create }` inserts for booking `b`: the
      option with id `ids[i]` holds slot `i`. */
  function NewOptions(b: Id, ids: seq<Id>, slots: seq<Slot>): map<Id, BookingOption>
    requires |ids| == |slots| && Distinct(ids)
  {
    map i | 0 <= i < |ids| :: ids[i] := OptionRow(b, slots[i])
  }

  /** The option row that stores slot `s` of booking `b`. */
  function OptionRow(b: Id, s: Slot): BookingOption
  {
    BookingOption(b, s.date, TimeRange(s))
  }

  /** What inserting fresh options for booking `b` does to the option set of every booking. */
  lemma {:induction false} OptionsOfAfterInsert(options: map<Id, BookingOption>, b: Id, ids: seq<Id>, slots: seq<Slot>, c: Id)
    requires |ids| == |slots| && FreshIds(ids, options.Keys)
    ensures OptionsOf(options + NewOptions(b, ids, slots), c)
         == if c == b then OptionsOf(options, b) + (set x | x in ids) else OptionsOf(options, c)
  {
    var added := NewOptions(b, ids, slots);
    forall x | x in ids ensures x in added && added[x].bookingId == b {
      var i :| 0 <= i < |ids| && ids[i] == x;
    }
    forall x | x in added ensures x in ids && added[x].bookingId == b {
    }
  }

  /** The options that remain after `bookingOption.deleteMany({ where: { bookingId: b } })`. */
  function OptionsWithout(options: map<Id, BookingOption>, b: Id): (r: map<Id, BookingOption>)
    ensures forall o :: o in r <==> o in options && options[o].bookingId != b
    ensures forall o :: o in r ==> r[o] == options[o]
  {
    map o | o in options && options[o].bookingId != b :: options[o]
  }

  // ---------------------------------------------------------------- create

  /** The status `createBookingController` answers with. */
  function CreateCode(caller: Option<User>, body: CreateBookingBody, dateParses: string -> bool): int
  {
    if !HasRole(caller, Tourist) then 403
    else if ParseCreateBooking(body, dateParses).None? then 400
    else 201
  }

  /** The tables after a booking `row` with id `b` and its options `ids` are inserted. */
  function InsertBooking(t: Tables, b: Id, row: Booking, ids: seq<Id>, slots: seq<Slot>): Tables
    requires |ids| == |slots| && Distinct(ids)
  {
    t.(bookings := t.bookings[b := row], options := t.options + NewOptions(b, ids, slots))
  }

  /** After the insertion every booking still mirrors its response and
      still has a candidate slot. */
  lemma InsertKeepsBooking(t: Tables, b: Id, row: Booking, ids: seq<Id>, slots: seq<Slot>, c: Id)
    requires Consistent(t) && b !in t.bookings && row.status == Pending
    requires |ids| == |slots| >= 1 && FreshIds(ids, t.options.Keys)
    requires c in InsertBooking(t, b, row, ids, slots).bookings
    ensures StatusMirrorsResponse(InsertBooking(t, b, row, ids, slots), c)
    ensures OptionsOf(InsertBooking(t, b, row, ids, slots).options, c) != {}
  {
    var t' := InsertBooking(t, b, row, ids, slots);
    OptionsOfAfterInsert(t.options, b, ids, slots, c);
    if c == b {
      assert b !in t'.responses;
      assert ids[0] in OptionsOf(t'.options, c);
    } else {
      assert t'.bookings[c] == t.bookings[c] && StatusMirrorsResponse(t, c);
      assert OptionsOf(t'.options, c) == OptionsOf(t.options, c);
    }
  }

  /** After the insertion every option still belongs to a booking. */
  lemma InsertKeepsOptionOwners(t: Tables, b: Id, row: Booking, ids: seq<Id>, slots: seq<Slot>)
    requires Consistent(t) && |ids| == |slots| && Distinct(ids)
    ensures var t' := InsertBooking(t, b, row, ids, slots);
      forall o :: o in t'.options ==> t'.options[o].bookingId in t'.bookings
  {
    var t' := InsertBooking(t, b, row, ids, slots);
    var added := NewOptions(b, ids, slots);
    forall o | o in t'.options
      ensures t'.options[o].bookingId in t'.bookings
    {
      if o in added {
        assert t'.options[o] == added[o];
      } else {
        assert t'.options[o] == t.options[o];
      }
    }
  }

  /** A new PENDING booking with at least one fresh option keeps the tables
      consistent, and its options are exactly the new ones. */
  lemma CreatePreservesConsistency(t: Tables, b: Id, row: Booking, ids: seq<Id>, slots: seq<Slot>)
    requires Consistent(t) && b !in t.bookings && row.status == Pending
    requires |ids| == |slots| >= 1 && FreshIds(ids, t.options.Keys)
    ensures Consistent(InsertBooking(t, b, row, ids, slots))
    ensures OptionsOf(InsertBooking(t, b, row, ids, slots).options, b) == set x | x in ids
    ensures b !in InsertBooking(t, b, row, ids, slots).responses
  {
    var t' := InsertBooking(t, b, row, ids, slots);
    assert OptionsOf(t.options, b) == {};
    InsertKeepsOptionOwners(t, b, row, ids, slots);
    forall c | c in t'.bookings
      ensures StatusMirrorsResponse(t', c) && OptionsOf(t'.options, c) != {}
    {
      InsertKeepsBooking(t, b, row, ids, slots, c);
    }
    OptionsOfAfterInsert(t.options, b, ids, slots, b);
  }

  /** Options inserted for a booking no stored option refers to are exactly
      that booking's options. */
  lemma InsertUnreferencedOptions(options: map<Id, BookingOption>, b: Id, ids: seq<Id>, slots: seq<Slot>)
    requires |ids| == |slots| && FreshIds(ids, options.Keys)
    requires b !in set o | o in options :: options[o].bookingId
    ensures OptionsOf(options + NewOptions(b, ids, slots), b) == set x | x in ids
  {
    assert OptionsOf(options, b) == {};
    OptionsOfAfterInsert(options, b, ids, slots, b);
  }

  /** `createBookingController`, in any state of the tables: on 201 a fresh
      PENDING booking of the caller holds the message and one option per
      requested slot; otherwise the tables are unchanged. The generated id is
      new to the bookings and to every stored option. */
  method CreateBooking(db: Db, caller: Option<User>, body: CreateBookingBody, dateParses: string -> bool, now: int)
    returns (code: int, b: Id, optionIds: seq<Id>)
    modifies db`bookings, db`options
    ensures code == CreateCode(caller, body, dateParses)
    ensures code != 201 ==> Snapshot(db) == old(Snapshot(db))
    ensures code == 201 ==>
      var input := ParseCreateBooking(body, dateParses).value;
      && b !in old(db.bookings)
      && |optionIds| == |input.options| && FreshIds(optionIds, old(db.options).Keys)
      && Snapshot(db) == InsertBooking(old(Snapshot(db)), b, Booking(input.courseId, caller.value.id, input.message, Pending, now), optionIds, input.options)
      && OptionsOf(db.options, b) == set x | x in optionIds
    ensures old(Consistent(Snapshot(db))) ==> Consistent(Snapshot(db))
  {
    b, optionIds := "", [];
    if !HasRole(caller, Tourist) {
      return 403, b, optionIds;
    }
    var parsed := ParseCreateBooking(body, dateParses);
    if parsed.None? {
      return 400, b, optionIds;
    }
    var input := parsed.value;
    var referenced := set o | o in db.options :: db.options[o].bookingId;
    FreshIdExists(db.bookings.Keys + referenced);
    b :| b !in db.bookings.Keys + referenced;
    var row := Booking(input.courseId, caller.value.id, input.message, Pending, now);
    db.bookings := db.bookings[b := row];
    optionIds := FreshKeys(db.options.Keys, |input.options|);
    db.options := db.options + NewOptions(b, optionIds, input.options);
    code := 201;
    assert Snapshot(db) == InsertBooking(old(Snapshot(db)), b, row, optionIds, input.options);
    if old(Consistent(Snapshot(db))) {
      CreatePreservesConsistency(old(Snapshot(db)), b, row, optionIds, input.options);
    }
    InsertUnreferencedOptions(old(db.options), b, optionIds, input.options);
  }

  // ---------------------------------------------------------------- respond

  /** A CONFIRMED answer whose (non-empty) selected option is not one of the booking's options. */
  predicate SelectionRejected(t: Tables, b: Id, input: RespondInput)
  {
    && input.status == Confirmed
    && input.selectedOptionId.Some? && input.selectedOptionId.value != ""
    && input.selectedOptionId.value !in OptionsOf(t.options, b)
  }

  /** The status `tutorRespondBookingController` answers with. A booking whose
      course row is gone makes `booking.course.tutorId` throw: 500. */
  function RespondCode(t: Tables, caller: Option<User>, b: Id, body: RespondBody): int
  {
    if !HasRole(caller, Tutor) then 403
    else if ParseTutorResponse(body).None? then 400
    else if b !in t.bookings then 404
    else if t.bookings[b].courseId !in t.courses then 500
    else if t.courses[t.bookings[b].courseId].tutorId != caller.value.id then 403
    else if SelectionRejected(t, b, ParseTutorResponse(body).value) then 400
    else 200
  }

  /** `tutorResponse.upsert` keyed by booking: a new row takes the answer as
      sent; an existing row takes the fields the answer supplies and keeps
      its other fields. */
  function Upsert(existing: Option<TutorResponse>, input: RespondInput): TutorResponse
  {
    match existing
    case None => TutorResponse(input.status, input.selectedOptionId, input.message)
    case Some(old_) =>
      TutorResponse(
        input.status,
        if input.selectedOptionId.Some? then input.selectedOptionId else old_.selectedOptionId,
        if input.message.Some? then input.message else old_.message)
  }

  function ResponseOf(t: Tables, b: Id): Option<TutorResponse>
  {
    if b in t.responses then Some(t.responses[b]) else None
  }

  /** The tables after an accepted answer: the response is upserted and the
      booking takes the answered status. */
  function RecordResponse(t: Tables, b: Id, input: RespondInput): Tables
    requires b in t.bookings
  {
    t.(responses := t.responses[b := Upsert(ResponseOf(t, b), input)],
       bookings := t.bookings[b := t.bookings[b].(status := input.status)])
  }

  /** `tutorRespondBookingController`. */
  method TutorRespond(db: Db, caller: Option<User>, b: Id, body: RespondBody) returns (code: int)
    modifies db`responses, db`bookings
    ensures code == RespondCode(old(Snapshot(db)), caller, b, body)
    ensures code == 200 ==> Snapshot(db) == RecordResponse(old(Snapshot(db)), b, ParseTutorResponse(body).value)
    ensures code != 200 ==> Snapshot(db) == old(Snapshot(db))
  {
    if !HasRole(caller, Tutor) {
      return 403;
    }
    var parsed := ParseTutorResponse(body);
    if parsed.None? {
      return 400;
    }
    var input := parsed.value;
    if b !in db.bookings {
      return 404;
    }
    var booking := db.bookings[b];
    if booking.courseId !in db.courses {
      return 500;
    }
    if db.courses[booking.courseId].tutorId != caller.value.id {
      return 403;
    }
    if input.status == Confirmed && input.selectedOptionId.Some? && input.selectedOptionId.value != "" {
      var sel := input.selectedOptionId.value;
      var optionExists := sel in db.options && db.options[sel].bookingId == b;
      assert optionExists <==> sel in OptionsOf(db.options, b);
      if !optionExists {
        return 400;
      }
    }
    var existing := if b in db.responses then Some(db.responses[b]) else None;
    db.responses := db.responses[b := Upsert(existing, input)];
    db.bookings := db.bookings[b := booking.(status := input.status)];
    code := 200;
  }

  /** An accepted answer keeps the tables consistent; the booking and its
      response both carry the answered status; a CONFIRMED answer that names
      a non-empty option names one of this booking's options; nothing else
      changes. */
  lemma RespondOutcome(t: Tables, caller: Option<User>, b: Id, body: RespondBody)
    requires Consistent(t) && RespondCode(t, caller, b, body) == 200
    ensures var input := ParseTutorResponse(body).value;
      var t' := RecordResponse(t, b, input);
      && Consistent(t')
      && t'.bookings[b].status == t'.responses[b].status == input.status != Pending
      && (input.status == Confirmed && input.selectedOptionId.Some? && input.selectedOptionId.value != "" ==>
            input.selectedOptionId.value in OptionsOf(t.options, b))
      && t'.options == t.options && t'.courses == t.courses
      && t'.bookings.Keys == t.bookings.Keys
      && (forall c :: c in t.bookings && c != b ==> t'.bookings[c] == t.bookings[c])
      && (forall c :: c in t.responses && c != b ==> c in t'.responses && t'.responses[c] == t.responses[c])
  {
    var input := ParseTutorResponse(body).value;
    var t' := RecordResponse(t, b, input);
    forall c | c in t'.bookings ensures StatusMirrorsResponse(t', c) && OptionsOf(t'.options, c) != {} {
      assert c in t.bookings;
    }
  }

  /** An answer the tutor omits a field from leaves that field of an
      existing response as it was. */
  lemma UpsertKeepsOmittedFields(existing: TutorResponse, input: RespondInput)
    ensures Upsert(Some(existing), input).status == input.status
    ensures input.selectedOptionId.None? ==> Upsert(Some(existing), input).selectedOptionId == existing.selectedOptionId
    ensures input.message.None? ==> Upsert(Some(existing), input).message == existing.message
    ensures input.selectedOptionId.Some? ==> Upsert(Some(existing), input).selectedOptionId == input.selectedOptionId
    ensures input.message.Some? ==> Upsert(Some(existing), input).message == input.message
  {
  }

  /** Sending the same answer twice has the effect of sending it once. */
  lemma {:induction false} RespondIdempotent(t: Tables, caller: Option<User>, b: Id, body: RespondBody)
    requires RespondCode(t, caller, b, body) == 200
    ensures var t' := RecordResponse(t, b, ParseTutorResponse(body).value);
      RespondCode(t', caller, b, body) == 200 && RecordResponse(t', b, ParseTutorResponse(body).value) == t'
  {
    var input := ParseTutorResponse(body).value;
    var t' := RecordResponse(t, b, input);
    assert Upsert(Some(Upsert(ResponseOf(t, b), input)), input) == Upsert(ResponseOf(t, b), input);
    assert t'.responses[b := t'.responses[b]] == t'.responses;
    assert t'.bookings[b := t'.bookings[b].(status := input.status)] == t'.bookings;
  }

  // ---------------------------------------------------------------- listings

  function Stamp(b: Booking): int
  {
    b.createdAt
  }

  /** The bookings a tourist made. */
  function BookingsOfTourist(bookings: map<Id, Booking>, tourist: Id): set<Id>
  {
    set b | b in bookings && bookings[b].touristId == tourist
  }

  /** The bookings on the courses a tutor teaches (`where: { course: { tutorId } }`). */
  function BookingsOfTutor(t: Tables, tutor: Id): set<Id>
  {
    set b | b in t.bookings && t.bookings[b].courseId in t.courses && t.courses[t.bookings[b].courseId].tutorId == tutor
  }

  /** The bookings of one course. */
  function BookingsOfCourse(bookings: map<Id, Booking>, course: Id): set<Id>
  {
    set b | b in bookings && bookings[b].courseId == course
  }

  /** `getTouristBookingsController`: a tourist gets their own bookings, newest first, and their count. */
  method TouristBookings(db: Db, caller: Option<User>) returns (code: int, count: nat, list: seq<Id>)
    ensures !HasRole(caller, Tourist) ==> code == 403 && list == []
    ensures HasRole(caller, Tourist) ==>
      code == 200 && Listing.Lists(db.bookings, Stamp, BookingsOfTourist(db.bookings, caller.value.id), list)
    ensures count == |list|
  {
    if !HasRole(caller, Tourist) {
      return 403, 0, [];
    }
    list := Listing.ListNewestFirst(db.bookings, Stamp, BookingsOfTourist(db.bookings, caller.value.id));
    return 200, |list|, list;
  }

  /** `getTutorBookingsController`: a tutor gets the bookings of all their courses, newest first. */
  method TutorBookings(db: Db, caller: Option<User>) returns (code: int, count: nat, list: seq<Id>)
    ensures !HasRole(caller, Tutor) ==> code == 403 && list == []
    ensures HasRole(caller, Tutor) ==>
      code == 200 && Listing.Lists(db.bookings, Stamp, BookingsOfTutor(Snapshot(db), caller.value.id), list)
    ensures count == |list|
  {
    if !HasRole(caller, Tutor) {
      return 403, 0, [];
    }
    list := Listing.ListNewestFirst(db.bookings, Stamp, BookingsOfTutor(Snapshot(db), caller.value.id));
    return 200, |list|, list;
  }

  /** `getBookingsByCourseIdController`: the owner of a course gets its bookings, newest first. */
  method CourseBookings(db: Db, caller: Option<User>, course: Id) returns (code: int, count: nat, list: seq<Id>)
    ensures code == (if !HasRole(caller, Tutor) then 403
                     else if course !in db.courses then 404
                     else if db.courses[course].tutorId != caller.value.id then 403
                     else 200)
    ensures code != 200 ==> list == []
    ensures code == 200 ==> Listing.Lists(db.bookings, Stamp, BookingsOfCourse(db.bookings, course), list)
    ensures count == |list|
  {
    if !HasRole(caller, Tutor) {
      return 403, 0, [];
    }
    if course !in db.courses {
      return 404, 0, [];
    }
    if db.courses[course].tutorId != caller.value.id {
      return 403, 0, [];
    }
    list := Listing.ListNewestFirst(db.bookings, Stamp, BookingsOfCourse(db.bookings, course));
    return 200, |list|, list;
  }

  /** What the tutor of a course sees on its page is part of what they see on their bookings list. */
  lemma CourseBookingsWithinTutorBookings(t: Tables, tutor: Id, course: Id)
    requires course in t.courses && t.courses[course].tutorId == tutor
    ensures BookingsOfCourse(t.bookings, course) <= BookingsOfTutor(t, tutor)
  {
  }

  // ---------------------------------------------------------------- reschedule

  /** The status `rescheduleBookingController` answers with when the store accepts every write. */
  function RescheduleCode(t: Tables, caller: Option<User>, b: Id, body: RescheduleBody, dateParses: string -> bool): int
  {
    if !HasRole(caller, Tourist) then 403
    else if ParseReschedule(body, dateParses).None? then 400
    else if b !in t.bookings then 404
    else if t.bookings[b].touristId != caller.value.id then 403
    else 200
  }

  /** The tables after a reschedule: the booking's options are replaced by
      the new ones, it is PENDING again, its message is replaced when one is
      sent, and its tutor response is gone. */
  function ReplaceOptions(t: Tables, b: Id, input: RescheduleInput, ids: seq<Id>): Tables
    requires b in t.bookings && |ids| == |input.options| && Distinct(ids)
  {
    var row := t.bookings[b];
    t.(options := OptionsWithout(t.options, b) + NewOptions(b, ids, input.options),
       bookings := t.bookings[b := row.(status := Pending, message := if input.message.Some? then input.message else row.message)],
       responses := t.responses - {b})
  }

  /** A reschedule keeps the tables consistent and resets the negotiation
      of that booking: PENDING, no response, exactly the new options, same
      course and tourist. */
  lemma RescheduleResets(t: Tables, b: Id, input: RescheduleInput, ids: seq<Id>)
    requires Consistent(t) && b in t.bookings
    requires |ids| == |input.options| >= 1 && FreshIds(ids, OptionsWithout(t.options, b).Keys)
    ensures var t' := ReplaceOptions(t, b, input, ids);
      && Consistent(t')
      && t'.bookings[b].status == Pending && b !in t'.responses
      && OptionsOf(t'.options, b) == (set x | x in ids)
      && t'.bookings[b].courseId == t.bookings[b].courseId
      && t'.bookings[b].touristId == t.bookings[b].touristId
  {
    var t' := ReplaceOptions(t, b, input, ids);
    forall o | o in t'.options ensures t'.options[o].bookingId in t'.bookings {
      if o in NewOptions(b, ids, input.options) {
        assert t'.options[o].bookingId == b;
      } else {
        assert t'.options[o] == t.options[o];
      }
    }
    forall c | c in t'.bookings
      ensures StatusMirrorsResponse(t', c) && OptionsOf(t'.options, c) != {}
    {
      ReplaceKeepsBooking(t, b, input, ids, c);
    }
    OptionsOfAfterReplace(t.options, b, ids, input.options, b);
  }

  /** After a reschedule every booking still mirrors its response and still
      has a candidate slot. */
  lemma ReplaceKeepsBooking(t: Tables, b: Id, input: RescheduleInput, ids: seq<Id>, c: Id)
    requires Consistent(t) && b in t.bookings
    requires |ids| == |input.options| >= 1 && FreshIds(ids, OptionsWithout(t.options, b).Keys)
    requires c in ReplaceOptions(t, b, input, ids).bookings
    ensures StatusMirrorsResponse(ReplaceOptions(t, b, input, ids), c)
    ensures OptionsOf(ReplaceOptions(t, b, input, ids).options, c) != {}
  {
    var t' := ReplaceOptions(t, b, input, ids);
    OptionsOfAfterReplace(t.options, b, ids, input.options, c);
    if c == b {
      assert b !in t'.responses && t'.bookings[b].status == Pending;
      assert ids[0] in OptionsOf(t'.options, c);
    } else {
      assert t'.bookings[c] == t.bookings[c] && StatusMirrorsResponse(t, c);
      assert (c in t'.responses <==> c in t.responses) && (c in t.responses ==> t'.responses[c] == t.responses[c]);
    }
  }

  /** A reschedule leaves every other booking, its options and its response as they were. */
  lemma RescheduleLeavesOthers(t: Tables, b: Id, input: RescheduleInput, ids: seq<Id>)
    requires b in t.bookings
    requires |ids| == |input.options| && FreshIds(ids, OptionsWithout(t.options, b).Keys)
    ensures var t' := ReplaceOptions(t, b, input, ids);
      && t'.bookings.Keys == t.bookings.Keys
      && (forall c :: c in t.bookings && c != b ==>
            t'.bookings[c] == t.bookings[c] && OptionsOf(t'.options, c) == OptionsOf(t.options, c))
      && (forall c :: c in t.responses && c != b ==> c in t'.responses && t'.responses[c] == t.responses[c])
  {
    forall c | c in t.bookings && c != b
      ensures OptionsOf(ReplaceOptions(t, b, input, ids).options, c) == OptionsOf(t.options, c)
    {
      OptionsOfAfterReplace(t.options, b, ids, input.options, c);
    }
  }

  /** What replacing the options of booking `b` does to the option set of every booking. */
  lemma OptionsOfAfterReplace(options: map<Id, BookingOption>, b: Id, ids: seq<Id>, slots: seq<Slot>, c: Id)
    requires |ids| == |slots| && FreshIds(ids, OptionsWithout(options, b).Keys)
    ensures OptionsOf(OptionsWithout(options, b) + NewOptions(b, ids, slots), c)
         == if c == b then (set x | x in ids) else OptionsOf(options, c)
  {
    var kept := OptionsWithout(options, b);
    OptionsOfAfterInsert(kept, b, ids, slots, c);
    assert OptionsOf(kept, b) == {};
    assert c != b ==> OptionsOf(kept, c) == OptionsOf(options, c);
  }

  /** `rescheduleBookingController` with a store that accepts every write:
      on 200 the booking's options are replaced by fresh ones, it is PENDING
      and its tutor response is removed; otherwise nothing changes. */
  method Reschedule(db: Db, caller: Option<User>, b: Id, body: RescheduleBody, dateParses: string -> bool)
    returns (code: int, optionIds: seq<Id>)
    modifies db`options, db`bookings, db`responses
    ensures code == RescheduleCode(old(Snapshot(db)), caller, b, body, dateParses)
    ensures code != 200 ==> Snapshot(db) == old(Snapshot(db))
    ensures code == 200 ==>
      var input := ParseReschedule(body, dateParses).value;
      && |optionIds| == |input.options|
      && FreshIds(optionIds, old(db.options).Keys)
      && Snapshot(db) == ReplaceOptions(old(Snapshot(db)), b, input, optionIds)
  {
    optionIds := [];
    if !HasRole(caller, Tourist) {
      return 403, optionIds;
    }
    var parsed := ParseReschedule(body, dateParses);
    if parsed.None? {
      return 400, optionIds;
    }
    var input := parsed.value;
    if b !in db.bookings {
      return 404, optionIds;
    }
    var row := db.bookings[b];
    if row.touristId != caller.value.id {
      return 403, optionIds;
    }
    optionIds := FreshKeys(db.options.Keys, |input.options|);
    db.options := OptionsWithout(db.options, b);
    db.bookings := db.bookings[b := row.(status := Pending, message := if input.message.Some? then input.message else row.message)];
    db.options := db.options + NewOptions(b, optionIds, input.options);
    db.responses := db.responses - {b};
    code := 200;
  }

  // ---------------------------------------------------------------- findings

  /** The reschedule as the store runs it: the options are deleted by a
      statement of their own, then the update's nested `tutorResponse:
      { delete: true }` fails when the booking has no response, so the whole
      update is rejected and the handler answers 500 with the options already
      gone. */
  function RescheduleAsWritten(t: Tables, caller: Option<User>, b: Id, body: RescheduleBody, dateParses: string -> bool, ids: seq<Id>): (Tables, int)
    requires RescheduleCode(t, caller, b, body, dateParses) == 200 ==>
      |ids| == |ParseReschedule(body, dateParses).value.options| && Distinct(ids)
  {
    var code := RescheduleCode(t, caller, b, body, dateParses);
    if code != 200 then (t, code)
    else if b !in t.responses then (t.(options := OptionsWithout(t.options, b)), 500)
    else (ReplaceOptions(t, b, ParseReschedule(body, dateParses).value, ids), 200)
  }

  /** A PENDING booking, which has no tutor response yet, that its tourist
      reschedules: the handler answers 500 and leaves the booking with no
      option at all. */
  lemma RescheduleAsWrittenStrandsPendingBooking()
    ensures var t := Tables(
              map["c" := Course("tutor", "cat", "Pottery", "Throw a bowl", 10.0, "2h", Beginner, None, None, 0)],
              map["b" := Booking("c", "tourist", None, Pending, 0)],
              map["o" := BookingOption("b", "2025-01-01", "10:00 - 12:00")],
              map[]);
      var body := RescheduleBody(Some([SlotBody(Some("2025-02-01"), Some("09:00"), Some("11:00"))]), None);
      var (t', code) := RescheduleAsWritten(t, Some(User("tourist", Tourist)), "b", body, _ => true, ["o2"]);
      && Consistent(t)
      && RescheduleCode(t, Some(User("tourist", Tourist)), "b", body, _ => true) == 200
      && code == 500
      && "b" in t'.bookings && t'.bookings["b"].status == Pending
      && OptionsOf(t'.options, "b") == {}
      && !Consistent(t')
  {
    var t := Tables(
      map["c" := Course("tutor", "cat", "Pottery", "Throw a bowl", 10.0, "2h", Beginner, None, None, 0)],
      map["b" := Booking("c", "tourist", None, Pending, 0)],
      map["o" := BookingOption("b", "2025-01-01", "10:00 - 12:00")],
      map[]);
    assert OptionsOf(t.options, "b") == {"o"};
    assert Consistent(t);
    var body := RescheduleBody(Some([SlotBody(Some("2025-02-01"), Some("09:00"), Some("11:00"))]), None);
    var (t', code) := RescheduleAsWritten(t, Some(User("tourist", Tourist)), "b", body, _ => true, ["o2"]);
    assert t'.options == map[];
  }

  /** Every CONFIRMED response that names a non-empty option names one of its own booking's options. */
  ghost predicate SelectionsOwn(t: Tables)
  {
    forall b :: b in t.responses && t.responses[b].status == Confirmed
      && t.responses[b].selectedOptionId.Some? && t.responses[b].selectedOptionId.value != ""
      ==> t.responses[b].selectedOptionId.value in OptionsOf(t.options, b)
  }

  /** The option check looks only at the option sent now, while the upsert
      keeps an option sent earlier: a RESCHEDULED answer naming another
      booking's option, then a CONFIRMED answer naming none, leaves a
      CONFIRMED response whose selected option belongs to another booking. */
  lemma StaleSelectionSurvivesConfirm()
    ensures var t := Tables(
              map["c" := Course("tutor", "cat", "Pottery", "Throw a bowl", 10.0, "2h", Beginner, None, None, 0)],
              map["b1" := Booking("c", "tourist", None, Pending, 0), "b2" := Booking("c", "tourist", None, Pending, 1)],
              map["o1" := BookingOption("b1", "2025-01-01", "10:00 - 12:00"), "o2" := BookingOption("b2", "2025-01-02", "10:00 - 12:00")],
              map[]);
      var tutor := Some(User("tutor", Tutor));
      var first := RespondBody(Some("RESCHEDULED"), Some("o2"), None);
      var second := RespondBody(Some("CONFIRMED"), None, None);
      var t1 := RecordResponse(t, "b1", ParseTutorResponse(first).value);
      var t2 := RecordResponse(t1, "b1", ParseTutorResponse(second).value);
      && Consistent(t) && SelectionsOwn(t)
      && RespondCode(t, tutor, "b1", first) == 200
      && RespondCode(t1, tutor, "b1", second) == 200
      && t2.responses["b1"] == TutorResponse(Confirmed, Some("o2"), None)
      && "o2" !in OptionsOf(t2.options, "b1")
      && !SelectionsOwn(t2)
  {
    var t := Tables(
      map["c" := Course("tutor", "cat", "Pottery", "Throw a bowl", 10.0, "2h", Beginner, None, None, 0)],
      map["b1" := Booking("c", "tourist", None, Pending, 0), "b2" := Booking("c", "tourist", None, Pending, 1)],
      map["o1" := BookingOption("b1", "2025-01-01", "10:00 - 12:00"), "o2" := BookingOption("b2", "2025-01-02", "10:00 - 12:00")],
      map[]);
    assert OptionsOf(t.options, "b1") == {"o1"};
    assert OptionsOf(t.options, "b2") == {"o2"};
    assert Consistent(t);
    var first := RespondBody(Some("RESCHEDULED"), Some("o2"), None);
    var second := RespondBody(Some("CONFIRMED"), None, None);
    assert ParseTutorResponse(first).value == RespondInput(Rescheduled, Some("o2"), None);
    assert ParseTutorResponse(second).value == RespondInput(Confirmed, None, None);
    var t1 := RecordResponse(t, "b1", ParseTutorResponse(first).value);
    assert t1.options == t.options && t1.responses["b1"] == TutorResponse(Rescheduled, Some("o2"), None);
    var t2 := RecordResponse(t1, "b1", ParseTutorResponse(second).value);
    assert t2.options == t.options && t2.responses["b1"] == TutorResponse(Confirmed, Some("o2"), None);
  }

  /** The evidently intended check: the option the stored response will
      carry after the upsert, not only the one sent now, must belong to the
      booking when the answer is CONFIRMED. */
  predicate EffectiveSelectionRejected(t: Tables, b: Id, input: RespondInput)
    requires b in t.bookings
  {
    var merged := Upsert(ResponseOf(t, b), input);
    && input.status == Confirmed
    && merged.selectedOptionId.Some? && merged.selectedOptionId.value != ""
    && merged.selectedOptionId.value !in OptionsOf(t.options, b)
  }

  /** The status of the answer handler with the corrected option check. */
  function RespondCodeChecked(t: Tables, caller: Option<User>, b: Id, body: RespondBody): int
  {
    if !HasRole(caller, Tutor) then 403
    else if ParseTutorResponse(body).None? then 400
    else if b !in t.bookings then 404
    else if t.bookings[b].courseId !in t.courses then 500
    else if t.courses[t.bookings[b].courseId].tutorId != caller.value.id then 403
    else if EffectiveSelectionRejected(t, b, ParseTutorResponse(body).value) then 400
    else 200
  }

  /** With the corrected check, accepting an answer keeps every CONFIRMED
      selection within its own booking, as well as the tables consistent. */
  lemma CheckedRespondKeepsSelectionsOwn(t: Tables, caller: Option<User>, b: Id, body: RespondBody)
    requires Consistent(t) && SelectionsOwn(t) && RespondCodeChecked(t, caller, b, body) == 200
    ensures RespondCode(t, caller, b, body) == 200
    ensures var t' := RecordResponse(t, b, ParseTutorResponse(body).value);
      Consistent(t') && SelectionsOwn(t')
  {
    var input := ParseTutorResponse(body).value;
    var t' := RecordResponse(t, b, input);
    RespondOutcome(t, caller, b, body);
  }

  /** Creating a booking and rescheduling keep every CONFIRMED selection within its own booking. */
  lemma CreateAndRescheduleKeepSelectionsOwn(t: Tables, b: Id, row: Booking, input: RescheduleInput, ids: seq<Id>)
    requires Consistent(t) && SelectionsOwn(t) && |ids| == |input.options| >= 1
    ensures b !in t.bookings && row.status == Pending && FreshIds(ids, t.options.Keys) ==>
      SelectionsOwn(InsertBooking(t, b, row, ids, input.options))
    ensures b in t.bookings && FreshIds(ids, OptionsWithout(t.options, b).Keys) ==>
      SelectionsOwn(ReplaceOptions(t, b, input, ids))
  {
    if b !in t.bookings && row.status == Pending && FreshIds(ids, t.options.Keys) {
      var t' := InsertBooking(t, b, row, ids, input.options);
      forall c | c in t'.responses ensures OptionsOf(t'.options, c) == OptionsOf(t.options, c) {
        OptionsOfAfterInsert(t.options, b, ids, input.options, c);
      }
    }
    if b in t.bookings && FreshIds(ids, OptionsWithout(t.options, b).Keys) {
      RescheduleResets(t, b, input, ids);
    }
  }
}
