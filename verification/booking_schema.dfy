/** The request-body schemas of the booking endpoints. A body is modelled
    field by field, with `None` for a field the client left out; parsing
    yields the typed input or `None` (the controller's 400). `Date.parse` is
    a library function, so date validity is the parameter `dateParses`. */
module BookingSchema {

  import opened Common
  import opened Store

  /** One `{ date, startTime, endTime }` entry of `options` as sent. */
  datatype SlotBody = SlotBody(date: Option<string>, startTime: Option<string>, endTime: Option<string>)

  /** One validated candidate slot. */
  datatype Slot = Slot(date: string, startTime: string, endTime: string)

  datatype CreateBookingBody = CreateBookingBody(
    courseId: Option<string>,
    message: Option<string>,
    options: Option<seq<SlotBody>>)

  datatype CreateBookingInput = CreateBookingInput(courseId: string, message: Option<string>, options: seq<Slot>)

  datatype RespondBody = RespondBody(
    status: Option<string>,
    selectedOptionId: Option<string>,
    message: Option<string>)

  datatype RespondInput = RespondInput(status: BookingStatus, selectedOptionId: Option<Id>, message: Option<string>)

  datatype RescheduleBody = RescheduleBody(options: Option<seq<SlotBody>>, message: Option<string>)

  datatype RescheduleInput = RescheduleInput(options: seq<Slot>, message: Option<string>)

  /** `z.string().min(1)` on a field that must be present. */
  predicate NonEmptyField(f: Option<string>)
  {
    f.Some? && |f.value| >= 1
  }

  /** The schema of one option: a date `Date.parse` accepts and two non-empty time strings. */
  function ParseSlot(b: SlotBody, dateParses: string -> bool): Option<Slot>
  {
    if b.date.Some? && dateParses(b.date.value) && NonEmptyField(b.startTime) && NonEmptyField(b.endTime)
    then Some(Slot(b.date.value, b.startTime.value, b.endTime.value))
    else None
  }

  /** `z.array(slot)`: succeeds when every entry does, keeping the entries in order. */
  function ParseSlots(bs: seq<SlotBody>, dateParses: string -> bool): (r: Option<seq<Slot>>)
    ensures r.Some? <==> forall i :: 0 <= i < |bs| ==> ParseSlot(bs[i], dateParses).Some?
    ensures r.Some? ==> |r.value| == |bs|
    ensures r.Some? ==> forall i :: 0 <= i < |bs| ==> ParseSlot(bs[i], dateParses) == Some(r.value[i])
  {
    if bs == [] then Some([])
    else
      var head := ParseSlot(bs[0], dateParses);
      var tail := ParseSlots(bs[1..], dateParses);
      assert forall i :: 1 <= i < |bs| ==> bs[i] == bs[1..][i - 1];
      if head.Some? && tail.Some? then Some([head.value] + tail.value) else None
  }

  /** `options: z.array(slot).min(1)`. */
  function ParseSlotList(o: Option<seq<SlotBody>>, dateParses: string -> bool): (r: Option<seq<Slot>>)
    ensures r.Some? ==> |r.value| >= 1
  {
    if o.None? || |o.value| < 1 then None else ParseSlots(o.value, dateParses)
  }

  /** `createBookingSchema.parse`. */
  function ParseCreateBooking(b: CreateBookingBody, dateParses: string -> bool): (r: Option<CreateBookingInput>)
    ensures r.Some? <==>
      && b.courseId.Some?
      && b.options.Some? && |b.options.value| >= 1
      && forall i :: 0 <= i < |b.options.value| ==> ParseSlot(b.options.value[i], dateParses).Some?
    ensures r.Some? ==> r.value.courseId == b.courseId.value && r.value.message == b.message
    ensures r.Some? ==> |r.value.options| == |b.options.value| >= 1
    ensures r.Some? ==> forall i :: 0 <= i < |r.value.options| ==> ParseSlot(b.options.value[i], dateParses) == Some(r.value.options[i])
  {
    var slots := ParseSlotList(b.options, dateParses);
    if b.courseId.Some? && slots.Some? then Some(CreateBookingInput(b.courseId.value, b.message, slots.value))
    else None
  }

  /** `z.enum(["CONFIRMED", "DECLINED", "RESCHEDULED"])`. */
  function ParseResponseStatus(s: string): (r: Option<BookingStatus>)
    ensures r.Some? <==> s in {"CONFIRMED", "DECLINED", "RESCHEDULED"}
    ensures r.Some? ==> r.value != Pending
  {
    if s == "CONFIRMED" then Some(Confirmed)
    else if s == "DECLINED" then Some(Declined)
    else if s == "RESCHEDULED" then Some(Rescheduled)
    else None
  }

  /** `tutorResponseSchema.parse`: a status is required; the selected option and the message are optional. */
  function ParseTutorResponse(b: RespondBody): (r: Option<RespondInput>)
    ensures r.Some? <==> b.status.Some? && b.status.value in {"CONFIRMED", "DECLINED", "RESCHEDULED"}
    ensures r.Some? ==> r.value.status != Pending
    ensures r.Some? ==> r.value.selectedOptionId == b.selectedOptionId && r.value.message == b.message
  {
    if b.status.None? then None
    else
      match ParseResponseStatus(b.status.value)
      case None => None
      case Some(s) => Some(RespondInput(s, b.selectedOptionId, b.message))
  }

  /** `rescheduleBookingSchema.parse`. */
  function ParseReschedule(b: RescheduleBody, dateParses: string -> bool): (r: Option<RescheduleInput>)
    ensures r.Some? <==>
      && b.options.Some? && |b.options.value| >= 1
      && forall i :: 0 <= i < |b.options.value| ==> ParseSlot(b.options.value[i], dateParses).Some?
    ensures r.Some? ==> r.value.message == b.message && |r.value.options| == |b.options.value| >= 1
    ensures r.Some? ==> forall i :: 0 <= i < |r.value.options| ==> ParseSlot(b.options.value[i], dateParses) == Some(r.value.options[i])
  {
    var slots := ParseSlotList(b.options, dateParses);
    if slots.Some? then Some(RescheduleInput(slots.value, b.message)) else None
  }

  /** The time range is not checked for order: any two non-empty strings are
      accepted, an end before the start included. */
  lemma AnyTimeRangeAccepted(date: string, start: string, end: string, dateParses: string -> bool)
    requires dateParses(date) && start != "" && end != ""
    ensures ParseSlot(SlotBody(Some(date), Some(start), Some(end)), dateParses) == Some(Slot(date, start, end))
  {
  }

  /** Creating or rescheduling with an empty option list is rejected, whatever else the body holds. */
  lemma EmptyOptionListRejected(courseId: Option<string>, message: Option<string>, dateParses: string -> bool)
    ensures ParseCreateBooking(CreateBookingBody(courseId, message, Some([])), dateParses).None?
    ensures ParseReschedule(RescheduleBody(Some([]), message), dateParses).None?
  {
  }

  /** A tutor cannot answer PENDING, and the status alone is a valid answer. */
  lemma ResponseStatusRules(sel: Option<string>, message: Option<string>)
    ensures ParseTutorResponse(RespondBody(Some("PENDING"), sel, message)).None?
    ensures ParseTutorResponse(RespondBody(Some("DECLINED"), None, None)) == Some(RespondInput(Declined, None, None))
  {
  }
}
