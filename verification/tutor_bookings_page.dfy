/** The tutor's booking table: the status filter, the three counters above
    the table, and the answer each action button sends to the server. */
module TutorBookingsPage {

  import opened Common
  import opened Seqs
  import opened Store
  import opened BookingSchema
  import opened BookingController

  /** The fields of a booking row the page reads; `optionIds` are the ids of
      the booking's proposed slots, in the order the server lists them. */
  datatype BookingRow = BookingRow(id: Id, status: BookingStatus, optionIds: seq<Id>)

  /** The status as the server spells it. */
  function StatusName(s: BookingStatus): (r: string)
    ensures ParseResponseStatus(r) == if s == Pending then None else Some(s)
  {
    match s
    case Pending => "PENDING"
    case Confirmed => "CONFIRMED"
    case Declined => "DECLINED"
    case Rescheduled => "RESCHEDULED"
  }

  /** `filteredBookings`. */
  function FilteredBookings(bookings: seq<BookingRow>, filterStatus: string): seq<BookingRow>
  {
    if filterStatus == "ALL" then bookings
    else Filter((b: BookingRow) => StatusName(b.status) == filterStatus, bookings)
  }

  /** "ALL" shows every booking; any other choice shows exactly the bookings
      with that status, in their order. */
  lemma FilteredBookingsEffect(bookings: seq<BookingRow>, filterStatus: string, x: BookingRow)
    ensures filterStatus == "ALL" ==> FilteredBookings(bookings, filterStatus) == bookings
    ensures filterStatus != "ALL" ==>
      (x in FilteredBookings(bookings, filterStatus) <==> x in bookings && StatusName(x.status) == filterStatus)
    ensures IsSubsequence(FilteredBookings(bookings, filterStatus), bookings)
  {
    var p := (b: BookingRow) => StatusName(b.status) == filterStatus;
    FilterMembers(p, bookings, x);
    FilterIsSubsequence(p, bookings);
    if filterStatus == "ALL" {
      SubsequenceReflexive(bookings);
    }
  }

  /** The number of bookings with status `s`, as each counter computes it. */
  function CountWith(bookings: seq<BookingRow>, s: BookingStatus): (n: nat)
    ensures n <= |bookings|
  {
    |Filter((b: BookingRow) => b.status == s, bookings)|
  }

  /** Every booking has exactly one of the four statuses, so the four counts
      add up to the number of bookings. */
  lemma {:induction false} CountsPartition(bookings: seq<BookingRow>)
    ensures CountWith(bookings, Pending) + CountWith(bookings, Confirmed) + CountWith(bookings, Declined)
      + CountWith(bookings, Rescheduled) == |bookings|
  {
    if bookings != [] {
      CountsPartition(bookings[1..]);
    }
  }

  /** The three counters shown never exceed the number of bookings; they
      fall short of it by exactly the RESCHEDULED ones. */
  lemma CountersFit(bookings: seq<BookingRow>)
    ensures CountWith(bookings, Pending) + CountWith(bookings, Confirmed) + CountWith(bookings, Declined)
      == |bookings| - CountWith(bookings, Rescheduled)
    ensures CountWith(bookings, Pending) + CountWith(bookings, Confirmed) + CountWith(bookings, Declined) <= |bookings|
  {
    CountsPartition(bookings);
  }

  datatype Action = Accept | Reject

  /** The buttons of a row: both for a PENDING booking, none otherwise. */
  function ActionsFor(b: BookingRow): (r: seq<Action>)
    ensures r != [] <==> b.status == Pending
    ensures r != [] ==> Accept in r && Reject in r
  {
    if b.status == Pending then [Accept, Reject] else []
  }

  /** The answer a button sends: Accept confirms with the first slot (an
      empty id is dropped by `|| undefined`), Reject declines with no slot
      and an empty message. */
  function ResponseFor(b: BookingRow, a: Action): RespondBody
  {
    match a
    case Accept =>
      var first := if |b.optionIds| > 0 && b.optionIds[0] != "" then Some(b.optionIds[0]) else None;
      RespondBody(Some("CONFIRMED"), first, Some("Looking forward to meeting you!"))
    case Reject => RespondBody(Some("DECLINED"), None, Some(""))
  }

  /** Both answers pass the server's schema: Accept as a CONFIRMED answer
      naming the first slot when there is one, Reject as a DECLINED answer
      with no slot. */
  lemma ResponsesParse(b: BookingRow)
    ensures var r := ParseTutorResponse(ResponseFor(b, Accept));
      && r.Some? && r.value.status == Confirmed
      && (r.value.selectedOptionId.Some? <==> |b.optionIds| > 0 && b.optionIds[0] != "")
      && (r.value.selectedOptionId.Some? ==> r.value.selectedOptionId.value == b.optionIds[0])
      && r.value.message == Some("Looking forward to meeting you!")
    ensures var r := ParseTutorResponse(ResponseFor(b, Reject));
      && r.Some? && r.value.status == Declined && r.value.selectedOptionId.None? && r.value.message == Some("")
  {
  }

  /** When the row shows the booking's own slots, the server accepts either
      answer from the course's tutor: the slot Accept names is one of the
      booking's options. */
  lemma ResponsesAccepted(t: Tables, caller: Option<User>, b: BookingRow, a: Action)
    requires b.id in t.bookings && t.bookings[b.id].courseId in t.courses
    requires caller.Some? && caller.value.role == Tutor
    requires t.courses[t.bookings[b.id].courseId].tutorId == caller.value.id
    requires forall i :: 0 <= i < |b.optionIds| ==> b.optionIds[i] in OptionsOf(t.options, b.id)
    ensures RespondCode(t, caller, b.id, ResponseFor(b, a)) == 200
  {
  }
}
