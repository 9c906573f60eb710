/** The public booking form: a three-step wizard (service, date and time,
    personal details) over the services, slots and appointments that the
    admin panel keeps in local storage. */
module Booking {
  import opened Common
  import opened Turnero

  const TotalSteps: int := 3

  // ---------------------------------------------------------------------
  // Free time slots of a date (loadAvailableTimeSlots)

  /** The text times of the appointments booked on `date`. */
  function BookedTimes(appointments: seq<Record>, date: int): seq<string>
  {
    Times(Filter(appointments, OnDay(date)))
  }

  function IsFree(booked: seq<string>): TimeSlot -> bool
  {
    (s: TimeSlot) => s.available && s.time !in booked
  }

  /** The slots offered for `date`. */
  function AvailableSlots(slots: seq<TimeSlot>, appointments: seq<Record>, date: int): seq<TimeSlot>
  {
    Filter(slots, IsFree(BookedTimes(appointments, date)))
  }

  /** A slot is offered exactly when it is flagged available and no
      appointment of that date has its time; offered slots keep the order
      of the schedule. */
  lemma AvailableSlotsSpec(slots: seq<TimeSlot>, appointments: seq<Record>, date: int)
    ensures forall s :: s in AvailableSlots(slots, appointments, date) <==>
      (s in slots && s.available &&
       forall i :: 0 <= i < |appointments| && OnDay(date)(appointments[i]) ==> !HasTime(appointments[i], s.time))
    ensures forall a, b :: (AvailableSlots(a + b, appointments, date) ==
      AvailableSlots(a, appointments, date) + AvailableSlots(b, appointments, date))
  {
    var todays := Filter(appointments, OnDay(date));
    forall s: TimeSlot ensures s.time in BookedTimes(appointments, date) <==>
      exists i :: 0 <= i < |appointments| && OnDay(date)(appointments[i]) && HasTime(appointments[i], s.time)
    {
      if s.time in BookedTimes(appointments, date) {
        var j :| 0 <= j < |todays| && HasTime(todays[j], s.time);
        assert todays[j] in appointments;
        var i :| 0 <= i < |appointments| && appointments[i] == todays[j];
      }
      if exists i :: 0 <= i < |appointments| && OnDay(date)(appointments[i]) && HasTime(appointments[i], s.time) {
        var i :| 0 <= i < |appointments| && OnDay(date)(appointments[i]) && HasTime(appointments[i], s.time);
        assert appointments[i] in todays;
        var j :| 0 <= j < |todays| && todays[j] == appointments[i];
      }
    }
    forall a, b ensures AvailableSlots(a + b, appointments, date) ==
      AvailableSlots(a, appointments, date) + AvailableSlots(b, appointments, date)
    {
      FilterAppend(a, b, IsFree(BookedTimes(appointments, date)));
    }
  }

  /** Once an appointment at time `t` is stored for `date`, no slot at `t`
      is offered for that date any more. */
  lemma BookedSlotIsNoLongerOffered(slots: seq<TimeSlot>, appointments: seq<Record>, date: int, booking: Record, t: string)
    requires OnDay(date)(booking) && HasTime(booking, t)
    ensures forall s :: s in AvailableSlots(slots, appointments + [booking], date) ==> s.time != t
  {
    var all := appointments + [booking];
    AvailableSlotsSpec(slots, all, date);
    assert all[|appointments|] == booking;
  }

  /** An appointment stored for another date leaves the slots offered for
      `date` as they were. */
  lemma OtherDateBookingKeepsOffer(slots: seq<TimeSlot>, appointments: seq<Record>, date: int, booking: Record)
    requires !OnDay(date)(booking)
    ensures AvailableSlots(slots, appointments + [booking], date) == AvailableSlots(slots, appointments, date)
  {
    FilterAppend(appointments, [booking], OnDay(date));
    assert Filter([booking], OnDay(date)) == [];
    assert Filter(appointments + [booking], OnDay(date)) == Filter(appointments, OnDay(date));
  }

  /** The three-slot day with 10:00 booked offers 09:00 and 11:00. */
  lemma AvailableSlotsExample(date: int)
    ensures var slots := [TimeSlot(9, "09:00", true, None), TimeSlot(10, "10:00", true, None), TimeSlot(11, "11:00", true, None)];
      var booked := map["date" := Day(date), "time" := Str("10:00")];
      AvailableSlots(slots, [booked], date) == [slots[0], slots[2]]
  {
    var booked: Record := map["date" := Day(date), "time" := Str("10:00")];
    var slots := [TimeSlot(9, "09:00", true, None), TimeSlot(10, "10:00", true, None), TimeSlot(11, "11:00", true, None)];
    assert Filter([booked], OnDay(date)) == [booked];
    assert Times([booked]) == ["10:00"];
    assert BookedTimes([booked], date) == ["10:00"];
    var free := IsFree(["10:00"]);
    assert free(slots[0]) && !free(slots[1]) && free(slots[2]);
    assert Filter(slots[2..], free) == [slots[2]];
    assert Filter(slots[1..], free) == [slots[2]];
  }

  // ---------------------------------------------------------------------
  // Bookable dates (loadAvailableDates)

  predicate IsWeekday(day: int)
  {
    Weekday(day) != 0 && Weekday(day) != 6
  }

  /** The next 30 days from `today` (offset 0 included) that are neither
      Saturday nor Sunday, earliest first. */
  method AvailableDates(today: int) returns (dates: seq<int>)
    ensures |dates| <= 30
    ensures forall d :: d in dates <==> today <= d < today + 30 && IsWeekday(d)
    ensures forall i, j :: 0 <= i < j < |dates| ==> dates[i] < dates[j]
  {
    dates := [];
    for i := 0 to 30
      invariant |dates| <= i
      invariant forall d :: d in dates <==> today <= d < today + i && IsWeekday(d)
      invariant forall k :: 0 <= k < |dates| ==> today <= dates[k] < today + i
      invariant forall k, l :: 0 <= k < l < |dates| ==> dates[k] < dates[l]
    {
      var date := today + i;
      if IsWeekday(date) {
        dates := dates + [date];
      }
    }
  }

  // ---------------------------------------------------------------------
  // Personal information (validatePersonalInfo)

  const RequiredFields: seq<string> := ["clientName", "clientEmail", "clientPhone"]

  /** The input `field` is missing from the page or blank after trimming.
      `inputs` maps an element id to the text in that input. */
  function Blank(inputs: map<string, string>): string -> bool
  {
    field => field !in inputs || Trim(inputs[field]) == []
  }

  /** The loop that collects the required fields left blank, in form order. */
  method MissingFields(inputs: map<string, string>) returns (missing: seq<string>)
    ensures missing == Filter(RequiredFields, Blank(inputs))
  {
    missing := [];
    for i := 0 to |RequiredFields|
      invariant missing == Filter(RequiredFields[..i], Blank(inputs))
    {
      var field := RequiredFields[i];
      assert RequiredFields[..i + 1] == RequiredFields[..i] + [field];
      FilterAppend(RequiredFields[..i], [field], Blank(inputs));
      if Blank(inputs)(field) {
        missing := missing + [field];
      }
    }
    assert RequiredFields[..|RequiredFields|] == RequiredFields;
  }

  predicate IsAtSign(c: char) { c == '@' }

  predicate IsDot(c: char) { c == '.' }

  /** A character that `[^\s@]` matches. */
  predicate Plain(c: char)
  {
    !IsSpace(c) && c != '@'
  }

  predicate AllPlain(s: string)
  {
    forall i :: 0 <= i < |s| ==> Plain(s[i])
  }

  /** The email regular expression `^[^\s@]+@[^\s@]+\.[^\s@]+$`, read as a
      decomposition: non-empty plain text, '@', non-empty plain text, '.',
      non-empty plain text, nothing else. */
  ghost predicate EmailPattern(s: string)
  {
    exists at, dot :: SplitsAt(s, at, dot)
  }

  /** A matcher for the pattern: one '@' after some text, nothing but plain
      characters around it, and a '.' strictly inside the domain. */
  predicate EmailShape(s: string)
  {
    match FirstIndex(s, IsAtSign)
    case None => false
    case Some(at) => at > 0 && AllPlain(s[..at]) && DomainShape(s[at + 1..])
  }

  /** What follows the '@': plain characters with a '.' that is neither the
      first nor the last of them. */
  predicate DomainShape(domain: string)
  {
    AllPlain(domain) && |domain| >= 3 && FirstIndex(domain[1..|domain| - 1], IsDot).Some?
  }

  lemma DomainShapeOfParts(b: string, c: string)
    requires AllPlain(b) && AllPlain(c) && b != [] && c != []
    ensures DomainShape(b + ['.'] + c)
  {
    var domain := b + ['.'] + c;
    assert AllPlain(['.']) by {
      assert Plain('.');
    }
    AllPlainConcat(b, ['.']);
    AllPlainConcat(b + ['.'], c);
    var inner := domain[1..|domain| - 1];
    assert domain[|b|] == '.';
    assert inner[|b| - 1] == domain[|b|];
    assert IsDot(inner[|b| - 1]);
  }

  lemma AllPlainSlice(s: string, i: int, j: int)
    requires AllPlain(s) && 0 <= i <= j <= |s|
    ensures AllPlain(s[i..j])
  {
    assert forall k :: 0 <= k < j - i ==> s[i..j][k] == s[i + k];
  }

  lemma EmailShapeSound(s: string)
    requires EmailShape(s)
    ensures EmailPattern(s)
  {
    var at := FirstIndex(s, IsAtSign).value;
    var domain := s[at + 1..];
    var k := FirstIndex(domain[1..|domain| - 1], IsDot).value;
    var dot := at + 2 + k;
    assert IsDot(domain[1..|domain| - 1][k]);
    assert s[dot] == domain[1..|domain| - 1][k];
    AllPlainSlice(domain, 0, k + 1);
    AllPlainSlice(domain, k + 2, |domain|);
    assert s[at + 1..dot] == domain[..k + 1];
    assert s[dot + 1..] == domain[k + 2..];
    assert SplitsAt(s, at, dot);
  }

  lemma FirstAtSign(s: string, at: int)
    requires 0 <= at < |s| && s[at] == '@' && forall j :: 0 <= j < at ==> s[j] != '@'
    ensures FirstIndex(s, IsAtSign) == Some(at)
  {
  }

  lemma AllPlainConcat(a: string, b: string)
    requires AllPlain(a) && AllPlain(b)
    ensures AllPlain(a + b)
  {
    forall i | 0 <= i < |a + b| ensures Plain((a + b)[i]) {
      if i >= |a| {
        assert (a + b)[i] == b[i - |a|];
      }
    }
  }

  /** `s` splits as the regular expression demands, with the '@' at `at`
      and the separating '.' at `dot`. */
  predicate SplitsAt(s: string, at: int, dot: int)
  {
    0 < at && at + 1 < dot && dot + 1 < |s| && s[at] == '@' && s[dot] == '.' &&
    AllPlain(s[..at]) && AllPlain(s[at + 1..dot]) && AllPlain(s[dot + 1..])
  }

  lemma ShapeOfSplit(s: string, at: int, dot: int)
    requires SplitsAt(s, at, dot)
    ensures EmailShape(s)
  {
    forall i | 0 <= i < at ensures s[i] != '@' {
      assert s[..at][i] == s[i];
    }
    FirstAtSign(s, at);
    var b, c := s[at + 1..dot], s[dot + 1..];
    assert s[at + 1..] == b + ['.'] + c;
    DomainShapeOfParts(b, c);
  }

  lemma EmailShapeComplete(s: string)
    requires EmailPattern(s)
    ensures EmailShape(s)
  {
    var at, dot :| SplitsAt(s, at, dot);
    ShapeOfSplit(s, at, dot);
  }

  /** The matcher accepts exactly the strings the regular expression does. */
  lemma EmailShapeMatchesPattern(s: string)
    ensures EmailShape(s) <==> EmailPattern(s)
  {
    if EmailShape(s) {
      EmailShapeSound(s);
    }
    if EmailPattern(s) {
      EmailShapeComplete(s);
    }
  }

  /** `'a@b.c'` is accepted. */
  lemma EmailShapeAccepts()
    ensures EmailShape("a@b.c")
  {
    var s := "a@b.c";
    assert AllPlain(s[..1]) && AllPlain(s[2..3]) && AllPlain(s[4..]) by {
      assert s[..1] == ['a'] && s[2..3] == ['b'] && s[4..] == ['c'];
      assert Plain('a') && Plain('b') && Plain('c');
    }
    assert SplitsAt(s, 1, 3);
    ShapeOfSplit(s, 1, 3);
  }

  /** `'a@b'` and `'a@b.'` lack a domain with an inner dot; `'a b@c.d'` has
      white space before the '@'. */
  lemma EmailShapeRejects()
    ensures !EmailShape("a@b") && !EmailShape("a b@c.d") && !EmailShape("a@b.")
  {
    FirstAtSign("a@b", 1);
    FirstAtSign("a@b.", 1);
    var t := "a b@c.d";
    FirstAtSign(t, 3);
    assert t[..3][1] == ' ';
  }

  /** Whether the personal-information step passes, from the input texts.
      Blankness is judged after trimming, the email and phone checks on the
      untrimmed text. */
  ghost predicate PersonalInfoValid(inputs: map<string, string>)
  {
    "clientName" in inputs && "clientEmail" in inputs && "clientPhone" in inputs &&
    Trim(inputs["clientName"]) != [] && Trim(inputs["clientEmail"]) != [] && Trim(inputs["clientPhone"]) != [] &&
    EmailPattern(inputs["clientEmail"]) && |inputs["clientPhone"]| >= 8
  }

  method ValidatePersonalInfo(inputs: map<string, string>) returns (ok: bool)
    ensures ok <==> PersonalInfoValid(inputs)
  {
    var missing := MissingFields(inputs);
    FilterKeepsAll(RequiredFields, (f: string) => !Blank(inputs)(f));
    if |missing| > 0 {
      assert missing[0] in RequiredFields && Blank(inputs)(missing[0]);
      return false;
    }
    assert forall f :: f in RequiredFields ==> !Blank(inputs)(f);
    assert !Blank(inputs)("clientName") && !Blank(inputs)("clientEmail") && !Blank(inputs)("clientPhone");
    EmailShapeMatchesPattern(inputs["clientEmail"]);
    if !EmailShape(inputs["clientEmail"]) {
      return false;
    }
    if |inputs["clientPhone"]| < 8 {
      return false;
    }
    ok := true;
  }

  /** Whether a step passes, from the selections and the input texts. */
  ghost predicate StepValid(step: int, service: Option<Service>, date: Option<int>, time: Option<TimeSlot>,
                            inputs: map<string, string>)
  {
    if step == 1 then service.Some?
    else if step == 2 then date.Some? && time.Some?
    else if step == 3 then PersonalInfoValid(inputs)
    else true
  }

  method ValidateCurrentStep(step: int, service: Option<Service>, date: Option<int>, time: Option<TimeSlot>,
                             inputs: map<string, string>) returns (ok: bool)
    ensures ok <==> StepValid(step, service, date, time, inputs)
  {
    if step == 1 {
      ok := service.Some?;
    } else if step == 2 {
      ok := date.Some? && time.Some?;
    } else if step == 3 {
      ok := ValidatePersonalInfo(inputs);
    } else {
      ok := true;
    }
  }

  // ---------------------------------------------------------------------
  // Past dates and times

  /** isDateInPast: the date's day lies before today. */
  function IsDateInPast(date: int, today: int): bool
  {
    date < today
  }

  const DayMs: int := 86_400_000

  /** Comparing day numbers is comparing instants: whatever the time of day
      `t` (milliseconds since midnight), the instant `t` into `date` comes
      before today's midnight, which `today.setHours(0, 0, 0, 0)` yields,
      exactly when the date is in the past. */
  lemma DateInPastMeansDayOver(date: int, today: int, t: int)
    requires 0 <= t < DayMs
    ensures IsDateInPast(date, today) <==> date * DayMs + t < today * DayMs
  {
    if date < today {
      assert date * DayMs + DayMs <= today * DayMs;
    } else {
      assert today * DayMs <= date * DayMs;
    }
  }

  /** isTimeInPast as written: only a date before today gets past the first
      test, after which the slot's clock time is compared with the clock of
      today. `slotMs` and `nowMs` are milliseconds since midnight. */
  function IsTimeInPastAsWritten(slotMs: int, date: int, today: int, nowMs: int): bool
  {
    if !IsDateInPast(date, today) then false else slotMs < nowMs
  }

  /** As written, no slot of today or of a later date is ever reported as
      past, whatever its hour and the current time; in particular a 09:00
      slot of today is not past at 12:00. */
  lemma EarlierSlotTodayNotReportedPast(slotMs: int, date: int, today: int, nowMs: int)
    ensures date >= today ==> !IsTimeInPastAsWritten(slotMs, date, today, nowMs)
    ensures !IsTimeInPastAsWritten(9 * 3_600_000, today, today, 12 * 3_600_000)
  {
  }

  /** The evidently intended test: past days are past, and on today the
      slot's clock time is compared with the current one. */
  function IsSlotInPast(slotMs: int, date: int, today: int, nowMs: int): bool
  {
    IsDateInPast(date, today) || (date == today && slotMs < nowMs)
  }

  /** The intended test compares the two instants. */
  lemma IsSlotInPastComparesInstants(slotMs: int, date: int, today: int, nowMs: int)
    requires 0 <= slotMs < DayMs && 0 <= nowMs < DayMs
    ensures IsSlotInPast(slotMs, date, today, nowMs) <==> date * DayMs + slotMs < today * DayMs + nowMs
  {
    if date < today {
      assert date * DayMs + DayMs <= today * DayMs;
    } else if date > today {
      assert today * DayMs + DayMs <= date * DayMs;
    }
  }

  // ---------------------------------------------------------------------
  // The contact fields of a submitted booking

  /** The trimmed contact inputs and the notes ('' when the notes input is
      absent), as submitBooking copies them into the form data. */
  function ContactFields(inputs: map<string, string>): (r: Record)
    requires "clientName" in inputs && "clientEmail" in inputs && "clientPhone" in inputs
    ensures r.Keys == {"clientName", "clientEmail", "clientPhone", "notes"}
    ensures r["clientName"] == Str(Trim(inputs["clientName"])) && r["clientEmail"] == Str(Trim(inputs["clientEmail"]))
    ensures r["clientPhone"] == Str(Trim(inputs["clientPhone"]))
    ensures r["notes"] == Str(if "clientNotes" in inputs then Trim(inputs["clientNotes"]) else "")
  {
    map["clientName" := Str(Trim(inputs["clientName"])), "clientEmail" := Str(Trim(inputs["clientEmail"])),
        "clientPhone" := Str(Trim(inputs["clientPhone"])),
        "notes" := Str(if "clientNotes" in inputs then Trim(inputs["clientNotes"]) else "")]
  }

  /** Copying the contact fields keeps the service, date and time recorded
      by the earlier steps. */
  lemma ContactKeepsSelections(formData: Record, inputs: map<string, string>)
    requires "clientName" in inputs && "clientEmail" in inputs && "clientPhone" in inputs
    ensures forall k :: k in formData && k in {"serviceId", "serviceName", "date", "time"} ==>
      k in formData + ContactFields(inputs) && (formData + ContactFields(inputs))[k] == formData[k]
  {
    var keys := ContactFields(inputs).Keys;
    assert "serviceId" !in keys && "serviceName" !in keys && "date" !in keys && "time" !in keys;
  }

  // ---------------------------------------------------------------------
  // The wizard

  class Wizard {
    var currentStep: int
    var selectedService: Option<Service>
    var selectedDate: Option<int>
    var selectedTime: Option<TimeSlot>
    var formData: Record
    /** What local storage holds under odysseyAppointments ([] when absent). */
    var stored: seq<Record>

    /** The step lies in 1..3, a later step is only reached with the
        selections of the earlier ones, and the form data mirrors every
        selection made. */
    ghost predicate Valid()
      reads this
    {
      1 <= currentStep <= TotalSteps &&
      (currentStep >= 2 ==> selectedService.Some?) &&
      (currentStep == 3 ==> selectedDate.Some? && selectedTime.Some?) &&
      (selectedService.Some? ==> "serviceId" in formData && formData["serviceId"] == Num(selectedService.value.id)) &&
      (selectedDate.Some? ==> "date" in formData && formData["date"] == Day(selectedDate.value)) &&
      (selectedTime.Some? ==> "time" in formData && formData["time"] == Str(selectedTime.value.time))
    }

    /** Page load: step 1, nothing selected, empty form data. */
    constructor (storedAppointments: seq<Record>)
      ensures Valid()
      ensures currentStep == 1 && selectedService.None? && selectedDate.None? && selectedTime.None?
      ensures formData == map[] && stored == storedAppointments
    {
      currentStep := 1;
      selectedService, selectedDate, selectedTime := None, None, None;
      formData := map[];
      stored := storedAppointments;
    }

    method SelectService(service: Service)
      requires Valid()
      modifies this
      ensures Valid()
      ensures selectedService == Some(service)
      ensures formData == old(formData)["serviceId" := Num(service.id)]["serviceName" := Str(service.name)]
      ensures currentStep == old(currentStep) && selectedDate == old(selectedDate) && selectedTime == old(selectedTime)
      ensures stored == old(stored)
    {
      selectedService := Some(service);
      formData := formData["serviceId" := Num(service.id)]["serviceName" := Str(service.name)];
    }

    /** selectDate; the time chosen for an earlier date stays selected. */
    method SelectDate(date: int)
      requires Valid()
      modifies this
      ensures Valid()
      ensures selectedDate == Some(date) && formData == old(formData)["date" := Day(date)]
      ensures currentStep == old(currentStep) && selectedService == old(selectedService) && selectedTime == old(selectedTime)
      ensures stored == old(stored)
    {
      selectedDate := Some(date);
      formData := formData["date" := Day(date)];
    }

    method SelectTimeSlot(slot: TimeSlot)
      requires Valid()
      modifies this
      ensures Valid()
      ensures selectedTime == Some(slot) && formData == old(formData)["time" := Str(slot.time)]
      ensures currentStep == old(currentStep) && selectedService == old(selectedService) && selectedDate == old(selectedDate)
      ensures stored == old(stored)
    {
      selectedTime := Some(slot);
      formData := formData["time" := Str(slot.time)];
    }

    /** nextStep: advances only from a step before the last, and only when
        that step validates. */
    method NextStep(inputs: map<string, string>) returns (advanced: bool)
      requires Valid()
      modifies this
      ensures Valid()
      ensures advanced <==>
                old(currentStep) < TotalSteps &&
                StepValid(old(currentStep), selectedService, selectedDate, selectedTime, inputs)
      ensures currentStep == if advanced then old(currentStep) + 1 else old(currentStep)
      ensures selectedService == old(selectedService) && selectedDate == old(selectedDate) && selectedTime == old(selectedTime)
      ensures formData == old(formData) && stored == old(stored)
    {
      advanced := false;
      if currentStep < TotalSteps {
        var ok := ValidateCurrentStep(currentStep, selectedService, selectedDate, selectedTime, inputs);
        if ok {
          currentStep := currentStep + 1;
          advanced := true;
        }
      }
    }

    method PrevStep()
      requires Valid()
      modifies this
      ensures Valid()
      ensures currentStep == if old(currentStep) > 1 then old(currentStep) - 1 else old(currentStep)
      ensures selectedService == old(selectedService) && selectedDate == old(selectedDate) && selectedTime == old(selectedTime)
      ensures formData == old(formData) && stored == old(stored)
    {
      if currentStep > 1 {
        currentStep := currentStep - 1;
      }
    }

    /** saveAppointment: one stamped copy of the data joins the stored list. */
    method SaveAppointment(data: Record, newId: int, createdAt: string)
      modifies this
      ensures stored == old(stored) + [StampAppointment(data, newId, createdAt)]
      ensures currentStep == old(currentStep) && formData == old(formData)
      ensures selectedService == old(selectedService) && selectedDate == old(selectedDate) && selectedTime == old(selectedTime)
    {
      stored := stored + [StampAppointment(data, newId, createdAt)];
    }

    /** submitBooking: validates the current step, copies the trimmed
        contact fields and the notes into the form data and saves it. The
        page always has the three contact inputs. */
    method SubmitBooking(inputs: map<string, string>, newId: int, createdAt: string) returns (saved: bool)
      requires Valid()
      requires "clientName" in inputs && "clientEmail" in inputs && "clientPhone" in inputs
      modifies this
      ensures Valid()
      ensures saved <==> StepValid(old(currentStep), selectedService, selectedDate, selectedTime, inputs)
      ensures saved ==> formData == old(formData) + ContactFields(inputs)
      ensures saved ==> stored == old(stored) + [StampAppointment(formData, newId, createdAt)]
      ensures !saved ==> formData == old(formData) && stored == old(stored)
      ensures currentStep == old(currentStep)
      ensures selectedService == old(selectedService) && selectedDate == old(selectedDate) && selectedTime == old(selectedTime)
    {
      var ok := ValidateCurrentStep(currentStep, selectedService, selectedDate, selectedTime, inputs);
      if !ok {
        return false;
      }
      ContactKeepsSelections(formData, inputs);
      formData := formData + ContactFields(inputs);
      SaveAppointment(formData, newId, createdAt);
      saved := true;
    }

    /** odysseyBooking.resetForm. */
    method ResetForm()
      requires Valid()
      modifies this
      ensures Valid()
      ensures currentStep == 1 && selectedService.None? && selectedDate.None? && selectedTime.None?
      ensures formData == map[] && stored == old(stored)
    {
      currentStep := 1;
      selectedService, selectedDate, selectedTime := None, None, None;
      formData := map[];
    }
  }

  /** A booking submitted from the last step carries the chosen date, time
      and service, is confirmed, and therefore takes its slot off the offer
      for that date. */
  lemma SubmittedBookingTakesItsSlot(w: Record, slots: seq<TimeSlot>, stored: seq<Record>, date: int, t: string,
                                     service: int, newId: int, createdAt: string)
    requires "date" in w && w["date"] == Day(date) && "time" in w && w["time"] == Str(t)
    requires "serviceId" in w && w["serviceId"] == Num(service)
    ensures var r := StampAppointment(w, newId, createdAt);
      r["date"] == Day(date) && r["time"] == Str(t) && r["serviceId"] == Num(service) &&
      r["status"] == Str("confirmed")
    ensures forall s :: s in AvailableSlots(slots, stored + [StampAppointment(w, newId, createdAt)], date) ==> s.time != t
  {
    BookedSlotIsNoLongerOffered(slots, stored, date, StampAppointment(w, newId, createdAt), t);
  }
}
