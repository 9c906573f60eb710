/** The appointment manager of the admin panel: three in-memory collections
    (services, time slots, appointments), each written back to local storage
    after every change, and the statistics derived from them. */
module Turnero {
  import opened Common

  datatype Service = Service(id: int, name: string, duration: int, color: string, active: bool)

  /** A bookable hour. Its id is the hour itself, so ids repeat across
      regenerations; `serviceId` is None while no service is linked. */
  datatype TimeSlot = TimeSlot(id: int, time: string, available: bool, serviceId: Option<int>)

  /** The services created when local storage holds none. */
  function DefaultServices(): seq<Service>
  {
    [ Service(1, "Consulta General", 60, "#4dd0e1", true),
      Service(2, "Servicio Técnico", 60, "#26c6da", true),
      Service(3, "Asesoramiento", 60, "#00bcd4", true) ]
  }

  // ---------------------------------------------------------------------
  // Slot generation

  /** `${hour.toString().padStart(2, '0')}:00` */
  function HourLabel(hour: int): (r: string)
    ensures |r| >= 5 && r[|r| - 3..] == ":00"
  {
    PadStart2(IntText(hour)) + ":00"
  }

  /** The label of an hour below 100: its two digits and ":00". */
  function TwoDigitLabel(hour: int): string
    requires 0 <= hour < 100
  {
    [DigitChar(hour / 10), DigitChar(hour % 10), ':', '0', '0']
  }

  /** For the hours of a day the label is the two-digit hour and ":00". */
  lemma HourLabelTwoDigits(hour: int)
    requires 0 <= hour < 100
    ensures HourLabel(hour) == TwoDigitLabel(hour)
  {
    if hour < 10 {
      assert IntText(hour) == [DigitChar(hour)];
      assert DigitChar(0) == '0';
    } else {
      assert NatText(hour / 10) == [DigitChar(hour / 10)];
      assert IntText(hour) == [DigitChar(hour / 10), DigitChar(hour % 10)];
    }
  }

  /** Labels of earlier hours sort first under the string order that the
      booking form and the statistics use. */
  lemma HourLabelsAscending(h1: int, h2: int)
    requires 0 <= h1 < h2 < 100
    ensures LexLess(HourLabel(h1), HourLabel(h2))
  {
    HourLabelTwoDigits(h1);
    HourLabelTwoDigits(h2);
    TwoDigitLabelsAscending(h1, h2);
  }

  lemma TwoDigitLabelsAscending(h1: int, h2: int)
    requires 0 <= h1 < h2 < 100
    ensures LexLess(TwoDigitLabel(h1), TwoDigitLabel(h2))
  {
    var a, b := TwoDigitLabel(h1), TwoDigitLabel(h2);
    if h1 / 10 == h2 / 10 {
      assert a[0] == b[0] && a[1] < b[1];
      assert LexLess(a[1..], b[1..]);
    } else {
      assert a[0] < b[0];
    }
  }

  function HourSlot(hour: int): TimeSlot
  {
    TimeSlot(hour, HourLabel(hour), true, None)
  }

  /** The slots generated for the hours startHour, startHour + 1, …, endHour - 1. */
  function HourSlots(startHour: int, endHour: int): (r: seq<TimeSlot>)
  {
    seq(if startHour < endHour then endHour - startHour else 0, i => HourSlot(startHour + i))
  }

  /** What a generated schedule is: one free, unassigned slot per hour, with
      the hour as id and its two-digit label as time. */
  lemma HourSlotsShape(startHour: int, endHour: int)
    requires 0 <= startHour < endHour <= 100
    ensures |HourSlots(startHour, endHour)| == endHour - startHour
    ensures forall i :: 0 <= i < endHour - startHour ==>
      HourSlots(startHour, endHour)[i].id == startHour + i && HourSlots(startHour, endHour)[i].available &&
      HourSlots(startHour, endHour)[i].serviceId.None? &&
      HourSlots(startHour, endHour)[i].time == TwoDigitLabel(startHour + i)
  {
    forall i | 0 <= i < endHour - startHour
      ensures HourSlots(startHour, endHour)[i] == TimeSlot(startHour + i, TwoDigitLabel(startHour + i), true, None)
    {
      HourSlotAt(startHour, endHour, i);
    }
  }

  /** The slot at position `i` of a generated schedule. */
  lemma HourSlotAt(startHour: int, endHour: int, i: int)
    requires 0 <= startHour < endHour <= 100 && 0 <= i < endHour - startHour
    ensures HourSlots(startHour, endHour)[i] == TimeSlot(startHour + i, TwoDigitLabel(startHour + i), true, None)
  {
    assert HourSlots(startHour, endHour)[i] == HourSlot(startHour + i);
    HourLabelTwoDigits(startHour + i);
  }

  /** The slots of a generated schedule are in strictly ascending time order. */
  lemma HourSlotsAscending(startHour: int, endHour: int)
    requires 0 <= startHour < endHour <= 100
    ensures forall i, j :: 0 <= i < j < |HourSlots(startHour, endHour)| ==>
      LexLess(HourSlots(startHour, endHour)[i].time, HourSlots(startHour, endHour)[j].time)
  {
    forall i, j | 0 <= i < j < |HourSlots(startHour, endHour)|
      ensures LexLess(HourSlots(startHour, endHour)[i].time, HourSlots(startHour, endHour)[j].time)
    {
      HourSlotPairAscending(startHour, endHour, i, j);
    }
  }

  lemma HourSlotPairAscending(startHour: int, endHour: int, i: int, j: int)
    requires 0 <= startHour < endHour <= 100 && 0 <= i < j < endHour - startHour
    ensures LexLess(HourSlots(startHour, endHour)[i].time, HourSlots(startHour, endHour)[j].time)
  {
    HourSlotAt(startHour, endHour, i);
    HourSlotAt(startHour, endHour, j);
    TwoDigitLabelsAscending(startHour + i, startHour + j);
  }

  /** The `for (let hour = startHour; hour < endHour; hour++) push(…)` loop
      shared by generateDefaultTimeSlots and generateTimeSlots. */
  method SlotsForHours(startHour: int, endHour: int) returns (slots: seq<TimeSlot>)
    ensures slots == HourSlots(startHour, endHour)
  {
    slots := [];
    var hour := startHour;
    while hour < endHour
      invariant startHour <= hour && (hour <= endHour || hour == startHour)
      invariant slots == HourSlots(startHour, hour)
    {
      HourSlotsSnoc(startHour, hour);
      slots := slots + [HourSlot(hour)];
      hour := hour + 1;
    }
  }

  /** One more hour appends one more slot. */
  lemma HourSlotsSnoc(startHour: int, hour: int)
    requires startHour <= hour
    ensures HourSlots(startHour, hour + 1) == HourSlots(startHour, hour) + [HourSlot(hour)]
  {
    var a, b := HourSlots(startHour, hour + 1), HourSlots(startHour, hour) + [HourSlot(hour)];
    assert |a| == |b|;
    forall i | 0 <= i < |a|
      ensures a[i] == b[i]
    {
      if i < hour - startHour {
        assert b[i] == HourSlots(startHour, hour)[i];
      }
    }
  }

  /** generateDefaultTimeSlots: the hours 9 to 17. */
  method DefaultTimeSlots() returns (slots: seq<TimeSlot>)
    ensures slots == HourSlots(9, 18) && |slots| == 9
    ensures forall i :: 0 <= i < 9 ==> slots[i].id == 9 + i && slots[i].available && slots[i].serviceId.None?
    ensures forall i :: 0 <= i < 9 ==> slots[i].time == TwoDigitLabel(9 + i)
    ensures slots[0].time == "09:00" && slots[8].time == "17:00"
  {
    slots := SlotsForHours(9, 18);
    HourSlotsShape(9, 18);
    assert slots[0].time == TwoDigitLabel(9) && slots[8].time == TwoDigitLabel(17);
  }

  // ---------------------------------------------------------------------
  // Input guards (see the findings in README.md)

  /** saveService and updateService as written: they reject only an empty
      name or `duration <= 0`, and `NaN <= 0` is false. */
  predicate ServiceGuardAsWritten(name: string, duration: ParsedInt)
  {
    !(name == [] || (duration.Int? && duration.n <= 0))
  }

  /** An empty duration field slips through the guard as written. */
  lemma EmptyDurationPassesGuard()
    ensures ServiceGuardAsWritten("Consulta", NaN)
  {
  }

  /** The intended guard: a non-empty name and a positive whole duration. */
  predicate ServiceInputOk(name: string, duration: ParsedInt)
  {
    name != [] && duration.Int? && duration.n > 0
  }

  /** The intended guard differs from the written one exactly on NaN. */
  lemma ServiceInputOkCorrectsGuard(name: string, duration: ParsedInt)
    ensures ServiceInputOk(name, duration) <==> ServiceGuardAsWritten(name, duration) && duration != NaN
  {
  }

  /** The time-slot schedule after generateTimeSlots as written: only
      `startHour >= endHour` is refused, and a comparison with NaN is false,
      so an unreadable hour empties the schedule. */
  function SlotsAfterGenerateAsWritten(slots: seq<TimeSlot>, startHour: ParsedInt, endHour: ParsedInt): seq<TimeSlot>
  {
    if startHour.Int? && endHour.Int? then
      (if startHour.n >= endHour.n then slots else HourSlots(startHour.n, endHour.n))
    else []
  }

  /** An unreadable start or end hour, whatever the other hour, wipes the
      schedule; a non-empty one is lost. The empty start field with end hour
      18 is one instance. */
  lemma UnreadableHourWipesSchedule(slots: seq<TimeSlot>, startHour: ParsedInt, endHour: ParsedInt)
    ensures SlotsAfterGenerateAsWritten(slots, NaN, endHour) == []
    ensures SlotsAfterGenerateAsWritten(slots, startHour, NaN) == []
    ensures slots != [] ==> SlotsAfterGenerateAsWritten(slots, NaN, Int(18)) != slots
  {
  }

  /** The intended guard: two readable hours in increasing order. */
  predicate SlotRangeOk(startHour: ParsedInt, endHour: ParsedInt)
  {
    startHour.Int? && endHour.Int? && startHour.n < endHour.n
  }

  /** The schedule after generation with the intended guard. */
  function SlotsAfterGenerate(slots: seq<TimeSlot>, startHour: ParsedInt, endHour: ParsedInt): seq<TimeSlot>
  {
    if SlotRangeOk(startHour, endHour) then HourSlots(startHour.n, endHour.n) else slots
  }

  /** With the intended guard a generation either keeps the schedule or
      produces one slot per requested hour, and never empties it. */
  lemma SlotsAfterGenerateNeverEmpties(slots: seq<TimeSlot>, startHour: ParsedInt, endHour: ParsedInt)
    ensures var r := SlotsAfterGenerate(slots, startHour, endHour);
      (r == slots || |r| == endHour.n - startHour.n > 0)
      && (slots != [] ==> r != [])
  {
  }

  // ---------------------------------------------------------------------
  // Records

  predicate HasId(r: Record, id: int)
  {
    "id" in r && r["id"] == Num(id)
  }

  /** The filter callback `a => a.id !== id`. */
  function OtherId(id: int): Record -> bool
  {
    (r: Record) => !HasId(r, id)
  }

  /** The `find`/`findIndex` callbacks `x => x.id === id` and the `filter`
      callbacks `x => x.id !== id` on services, slots and records. */
  function ServiceHasId(id: int): Service -> bool
  {
    (s: Service) => s.id == id
  }

  function OtherService(id: int): Service -> bool
  {
    (s: Service) => s.id != id
  }

  function SlotHasId(id: int): TimeSlot -> bool
  {
    (s: TimeSlot) => s.id == id
  }

  function OtherSlot(id: int): TimeSlot -> bool
  {
    (s: TimeSlot) => s.id != id
  }

  function RecordHasId(id: int): Record -> bool
  {
    (r: Record) => HasId(r, id)
  }

  /** Deleting by id removes exactly the records with that id and keeps the
      others in order. */
  lemma DeleteByIdSpec(appointments: seq<Record>, id: int)
    ensures forall r :: r in Filter(appointments, OtherId(id)) <==> r in appointments && !HasId(r, id)
    ensures forall a, b :: Filter(a + b, OtherId(id)) == Filter(a, OtherId(id)) + Filter(b, OtherId(id))
    ensures (forall i :: 0 <= i < |appointments| ==> !HasId(appointments[i], id)) ==>
      Filter(appointments, OtherId(id)) == appointments
  {
    forall a, b ensures Filter(a + b, OtherId(id)) == Filter(a, OtherId(id)) + Filter(b, OtherId(id)) {
      FilterAppend(a, b, OtherId(id));
    }
    FilterKeepsAll(appointments, OtherId(id));
  }

  /** The presence check shared by saveAppointment and updateAppointment:
      date, time and the trimmed client fields must be non-empty. */
  predicate AppointmentInputOk(date: Option<int>, time: string, clientName: string, clientPhone: string, clientEmail: string)
  {
    date.Some? && time != [] && Trim(clientName) != [] && Trim(clientPhone) != [] && Trim(clientEmail) != []
  }

  /** The service an appointment created at `time` is attributed to: that of
      the first slot with this time (possibly null), otherwise the first
      service's id; None stands for `undefined`. */
  function ServiceIdFor(slots: seq<TimeSlot>, services: seq<Service>, time: string): (r: Option<Value>)
    ensures (exists i :: 0 <= i < |slots| && slots[i].time == time) ==>
              r.Some? &&
              exists i :: 0 <= i < |slots| && slots[i].time == time &&
                          (forall j :: 0 <= j < i ==> slots[j].time != time) &&
                          r.value == (if slots[i].serviceId.Some? then Num(slots[i].serviceId.value) else Null)
    ensures (forall i :: 0 <= i < |slots| ==> slots[i].time != time) ==>
      r == (if services != [] then Some(Num(services[0].id)) else None)
  {
    match FirstIndex(slots, (s: TimeSlot) => s.time == time)
    case Some(i) =>
      Some(if slots[i].serviceId.Some? then Num(slots[i].serviceId.value) else Null)
    case None =>
      if services != [] then Some(Num(services[0].id)) else None
  }

  /** The record pushed by saveAppointment. */
  function NewAppointment(id: int, date: int, time: string, clientName: string, clientPhone: string,
                          clientEmail: string, serviceId: Option<Value>, notes: string, createdAt: string): Record
  {
    map["id" := Num(id), "date" := Day(date), "time" := Str(time), "clientName" := Str(clientName),
        "clientPhone" := Str(clientPhone), "clientEmail" := Str(clientEmail), "notes" := Str(notes),
        "status" := Str("confirmed"), "createdAt" := Str(createdAt)]
    + (if serviceId.Some? then map["serviceId" := serviceId.value] else map[])
  }

  const EditedKeys: set<string> := {"date", "time", "clientName", "clientPhone", "clientEmail", "notes"}

  /** `{ ...appointment, date, time, clientName, clientPhone, clientEmail, notes }` */
  function PatchAppointment(r: Record, date: int, time: string, clientName: string, clientPhone: string,
                            clientEmail: string, notes: string): Record
  {
    r + map["date" := Day(date), "time" := Str(time), "clientName" := Str(clientName),
            "clientPhone" := Str(clientPhone), "clientEmail" := Str(clientEmail), "notes" := Str(notes)]
  }

  /** An edit sets the six edited fields and keeps every other field. */
  lemma PatchAppointmentSpec(r: Record, date: int, time: string, clientName: string, clientPhone: string,
                             clientEmail: string, notes: string)
    ensures var p := PatchAppointment(r, date, time, clientName, clientPhone, clientEmail, notes);
      p.Keys == r.Keys + EditedKeys &&
      (forall k :: k in r && k !in EditedKeys ==> p[k] == r[k]) &&
      p["date"] == Day(date) && p["time"] == Str(time) && p["notes"] == Str(notes) &&
      p["clientName"] == Str(clientName) && p["clientPhone"] == Str(clientPhone) && p["clientEmail"] == Str(clientEmail)
  {
  }

  /** An edit never touches the id, the service, the status or the creation
      time of an appointment. */
  lemma PatchKeepsIdentity(r: Record, date: int, time: string, clientName: string, clientPhone: string,
                           clientEmail: string, notes: string)
    ensures var p := PatchAppointment(r, date, time, clientName, clientPhone, clientEmail, notes);
      forall k :: k in {"id", "serviceId", "status", "createdAt"} ==> (k in p <==> k in r) && (k in r ==> p[k] == r[k])
  {
    PatchAppointmentSpec(r, date, time, clientName, clientPhone, clientEmail, notes);
  }

  /** The list after editing the appointment with this id, or None when no
      record has it. */
  function EditAppointment(appointments: seq<Record>, id: int, date: int, time: string, clientName: string,
                           clientPhone: string, clientEmail: string, notes: string): Option<seq<Record>>
  {
    match FirstIndex(appointments, RecordHasId(id))
    case None => None
    case Some(i) =>
      Some(appointments[i := PatchAppointment(appointments[i], date, time, clientName, clientPhone, clientEmail, notes)])
  }

  /** An edit fails exactly when no record has the id. Otherwise the list keeps
      its length, the first record with the id is patched, and every other
      record is unchanged. */
  lemma EditAppointmentSpec(appointments: seq<Record>, id: int, date: int, time: string, clientName: string,
                            clientPhone: string, clientEmail: string, notes: string)
    ensures var r := EditAppointment(appointments, id, date, time, clientName, clientPhone, clientEmail, notes);
      (r.None? <==> forall i :: 0 <= i < |appointments| ==> !HasId(appointments[i], id)) &&
      (r.Some? ==>
        |r.value| == |appointments| &&
        exists i :: 0 <= i < |appointments| && HasId(appointments[i], id) &&
          (forall j :: 0 <= j < i ==> !HasId(appointments[j], id)) &&
          r.value[i] == PatchAppointment(appointments[i], date, time, clientName, clientPhone, clientEmail, notes) &&
          forall j :: 0 <= j < |appointments| && j != i ==> r.value[j] == appointments[j])
  {
    var found := FirstIndex(appointments, RecordHasId(id));
    assert forall i :: 0 <= i < |appointments| ==> (RecordHasId(id)(appointments[i]) <==> HasId(appointments[i], id));
    if found.Some? {
      var i := found.value;
      assert HasId(appointments[i], id);
    }
  }

  /** The appointments after updateAppointment with the raw form inputs, or
      None when the inputs are incomplete or no record has the id. */
  function UpdatedAppointments(appointments: seq<Record>, id: int, date: Option<int>, time: string, nameInput: string,
                               phoneInput: string, emailInput: string, notesInput: string): Option<seq<Record>>
  {
    if AppointmentInputOk(date, time, nameInput, phoneInput, emailInput) then
      EditAppointment(appointments, id, date.value, time, Trim(nameInput), Trim(phoneInput), Trim(emailInput), Trim(notesInput))
    else None
  }

  // ---------------------------------------------------------------------
  // Statistics (updateStats)

  function OnDay(day: int): Record -> bool
  {
    (r: Record) => "date" in r && r["date"] == Day(day)
  }

  /** The record's `time` field holds the text `t`. */
  predicate HasTime(r: Record, t: string)
  {
    "time" in r && r["time"] == Str(t)
  }

  /** `appointments.map(a => a.time)`, keeping the text times only (a record
      without one cannot equal a slot's or compare above the clock). */
  function Times(appointments: seq<Record>): (r: seq<string>)
    ensures forall t :: t in r <==> exists i :: 0 <= i < |appointments| && HasTime(appointments[i], t)
  {
    if appointments == [] then []
    else
      var a := appointments[0];
      var rest := Times(appointments[1..]);
      assert forall i :: 1 <= i < |appointments| ==> appointments[i] == appointments[1..][i - 1];
      if "time" in a && a["time"].Str? then [a["time"].text] + rest else rest
  }

  function After(now: string): string -> bool
  {
    t => LexLess(now, t)
  }

  /** The smallest string of `ts` (what `sort(…)[0]` yields), or None. */
  function Earliest(ts: seq<string>): Option<string>
  {
    if ts == [] then None
    else match Earliest(ts[1..])
      case None => Some(ts[0])
      case Some(m) => Some(if LexLess(ts[0], m) then ts[0] else m)
  }

  lemma {:induction false} EarliestIsLeast(ts: seq<string>)
    ensures Earliest(ts).None? <==> ts == []
    ensures Earliest(ts).Some? ==>
              Earliest(ts).value in ts && forall t :: t in ts ==> !LexLess(t, Earliest(ts).value)
  {
    if ts != [] {
      EarliestIsLeast(ts[1..]);
      match Earliest(ts[1..])
      case None =>
        LexLessIrreflexive(ts[0]);
      case Some(m) =>
        var e := Earliest(ts).value;
        forall t | t in ts ensures !LexLess(t, e) {
          if t == ts[0] {
            if !LexLess(ts[0], m) {
              LexLessTotal(ts[0], m);
            }
            LexLessIrreflexive(e);
          } else {
            assert t in ts[1..];
            if LexLess(ts[0], m) && LexLess(t, e) {
              LexLessTransitive(t, ts[0], m);
            }
          }
        }
    }
  }

  /** The next appointment shown on the dashboard: the earliest of today's
      times strictly after `now`, or None ("No hay más turnos"). */
  function NextAppointment(appointments: seq<Record>, today: int, now: string): Option<string>
  {
    Earliest(Filter(Times(Filter(appointments, OnDay(today))), After(now)))
  }

  /** A record of `today` whose time comes after `now`. */
  predicate LaterToday(r: Record, today: int, now: string)
  {
    OnDay(today)(r) && "time" in r && r["time"].Str? && LexLess(now, r["time"].text)
  }

  /** The next appointment is None exactly when no appointment of today lies
      ahead; otherwise it is the time of one that does, and none of those
      comes before it. */
  lemma NextAppointmentSpec(appointments: seq<Record>, today: int, now: string)
    ensures NextAppointment(appointments, today, now).None? <==>
              forall r: Record :: r in appointments ==> !LaterToday(r, today, now)
    ensures NextAppointment(appointments, today, now).Some? ==>
              var t := NextAppointment(appointments, today, now).value;
              (exists r: Record :: r in appointments && LaterToday(r, today, now) && r["time"] == Str(t)) &&
              forall r: Record :: r in appointments && LaterToday(r, today, now) ==> !LexLess(r["time"].text, t)
  {
    var todays := Filter(appointments, OnDay(today));
    var ts := Filter(Times(todays), After(now));
    EarliestIsLeast(ts);
    forall r: Record | r in appointments && LaterToday(r, today, now)
      ensures r["time"].text in ts
    {
      assert r in todays;
      var i :| 0 <= i < |todays| && todays[i] == r;
      assert HasTime(todays[i], r["time"].text);
    }
    if ts != [] {
      var t := ts[0];
      assert t in ts && After(now)(t);
      var i :| 0 <= i < |todays| && HasTime(todays[i], t);
      assert todays[i] in appointments && LaterToday(todays[i], today, now);
      var e := NextAppointment(appointments, today, now).value;
      assert e in ts && After(now)(e);
      var j :| 0 <= j < |todays| && HasTime(todays[j], e);
      assert todays[j] in appointments && LaterToday(todays[j], today, now);
    }
  }

  /** First day (a Sunday) of the week holding `day`. */
  function WeekStart(day: int): int
  {
    day - Weekday(day)
  }

  /** The weekly window of updateStats, on whole days. */
  function InWeekOf(today: int): Record -> bool
  {
    (r: Record) => "date" in r && r["date"].Day? && WeekStart(today) <= r["date"].day <= WeekStart(today) + 6
  }

  /** A day lies in the window of `today` exactly when both share a week. */
  lemma WeekWindowIsCalendarWeek(today: int, day: int)
    ensures WeekStart(today) <= day <= WeekStart(today) + 6 <==> WeekStart(day) == WeekStart(today)
  {
    var ws := WeekStart(today);
    assert (ws + 4) % 7 == 0;
    if ws <= day <= ws + 6 {
      assert (day + 4) % 7 == day - ws;
    }
    if WeekStart(day) == ws {
      assert 0 <= Weekday(day) < 7;
    }
  }

  /** Math.round(occupied / total * 100), or 0 when there are no slots:
      the whole percentage nearest to occupied/total, halves rounding up. */
  function OccupancyRate(occupied: nat, total: nat): (r: int)
    ensures total == 0 ==> r == 0
    ensures total > 0 ==> 2 * total * r <= 200 * occupied + total < 2 * total * r + 2 * total
    ensures occupied <= total ==> 0 <= r <= 100
  {
    if total == 0 then 0
    else
      RoundedQuotient(200 * occupied + total, 2 * total, 101);
      (200 * occupied + total) / (2 * total)
  }

  /** The quotient of n by d brackets n, and stays below m when n < d * m. */
  lemma RoundedQuotient(n: nat, d: nat, m: nat)
    requires d > 0
    ensures d * (n / d) <= n < d * (n / d) + d
    ensures n < d * m ==> n / d < m
  {
    var q := n / d;
    assert n == d * q + n % d;
    if n < d * m && q >= m {
      MulMonotone(d, m, q);
    }
  }

  lemma MulMonotone(d: nat, a: nat, b: nat)
    requires a <= b
    ensures d * a <= d * b
  {
  }

  datatype Stats = Stats(todayCount: nat, next: Option<string>, weekCount: nat, occupancy: int)

  /** The four figures of the dashboard for `today`, at wall-clock time `now`. */
  function ComputeStats(appointments: seq<Record>, slotCount: nat, today: int, now: string): (s: Stats)
    ensures s.todayCount <= s.weekCount <= |appointments|
    ensures s.todayCount <= slotCount ==> 0 <= s.occupancy <= 100
    ensures slotCount == 0 ==> s.occupancy == 0
  {
    var todays := |Filter(appointments, OnDay(today))|;
    assert 0 <= Weekday(today) < 7;
    FilterMonotone(appointments, OnDay(today), InWeekOf(today));
    Stats(todays, NextAppointment(appointments, today, now),
          |Filter(appointments, InWeekOf(today))|, OccupancyRate(todays, slotCount))
  }

  // ---------------------------------------------------------------------
  // The store

  class Store {
    var services: seq<Service>
    var timeSlots: seq<TimeSlot>
    var appointments: seq<Record>
    /** What local storage holds under odysseyServices, odysseyTimeSlots and
        odysseyAppointments (None: nothing saved). */
    var savedServices: Option<seq<Service>>
    var savedTimeSlots: Option<seq<TimeSlot>>
    var savedAppointments: Option<seq<Record>>

    ghost predicate AppointmentsPersisted()
      reads this
    {
      savedAppointments == Some(appointments) || (savedAppointments.None? && appointments == [])
    }

    /** Every collection on screen is the one in storage. */
    ghost predicate Valid()
      reads this
    {
      savedServices == Some(services) && savedTimeSlots == Some(timeSlots) && AppointmentsPersisted()
    }

    /** Page load: the collections start empty and loadData reads storage. */
    constructor (storedServices: Option<seq<Service>>, storedTimeSlots: Option<seq<TimeSlot>>,
                 storedAppointments: Option<seq<Record>>)
      ensures Valid()
      ensures services == if storedServices.Some? then storedServices.value else DefaultServices()
      ensures timeSlots == if storedTimeSlots.Some? then storedTimeSlots.value else HourSlots(9, 18)
      ensures appointments == if storedAppointments.Some? then storedAppointments.value else []
    {
      services, timeSlots, appointments := [], [], [];
      savedServices, savedTimeSlots, savedAppointments := storedServices, storedTimeSlots, storedAppointments;
      new;
      LoadData();
    }

    /** loadData: saved collections replace the in-memory ones; missing
        services and slots are replaced by the defaults, which are saved;
        missing appointments leave the in-memory list as it is. */
    method LoadData()
      requires savedAppointments.None? ==> appointments == []
      modifies this
      ensures Valid()
      ensures old(Valid()) ==> services == old(services) && timeSlots == old(timeSlots) && appointments == old(appointments)
      ensures services == if old(savedServices).Some? then old(savedServices).value else DefaultServices()
      ensures timeSlots == if old(savedTimeSlots).Some? then old(savedTimeSlots).value else HourSlots(9, 18)
      ensures appointments == if old(savedAppointments).Some? then old(savedAppointments).value else old(appointments)
      ensures savedAppointments == old(savedAppointments)
    {
      if savedServices.Some? {
        services := savedServices.value;
      } else {
        services := DefaultServices();
        savedServices := Some(services);
      }
      if savedTimeSlots.Some? {
        timeSlots := savedTimeSlots.value;
      } else {
        timeSlots := SlotsForHours(9, 18);
        savedTimeSlots := Some(timeSlots);
      }
      if savedAppointments.Some? {
        appointments := savedAppointments.value;
      }
    }

    /** saveService, with the intended guard (a NaN duration is refused). */
    method SaveService(nameInput: string, duration: ParsedInt, color: string, newId: int) returns (created: bool)
      requires Valid()
      modifies this
      ensures Valid()
      ensures created <==> ServiceInputOk(Trim(nameInput), duration)
      ensures created ==> services == old(services) + [Service(newId, Trim(nameInput), duration.n, color, true)]
      ensures created ==> services[|services| - 1].duration > 0
      ensures !created ==> services == old(services)
      ensures timeSlots == old(timeSlots) && appointments == old(appointments)
      ensures savedAppointments == old(savedAppointments)
    {
      var name := Trim(nameInput);
      if !ServiceInputOk(name, duration) {
        return false;
      }
      services := services + [Service(newId, name, duration.n, color, true)];
      savedServices := Some(services);
      created := true;
    }

    /** updateService: replaces name, duration and colour of the first service
        with this id; an unknown id changes nothing. */
    method UpdateService(serviceId: int, nameInput: string, duration: ParsedInt, color: string)
      returns (updated: bool)
      requires Valid()
      modifies this
      ensures Valid()
      ensures var i := FirstIndex(old(services), ServiceHasId(serviceId));
        updated <==> ServiceInputOk(Trim(nameInput), duration) && i.Some?
      ensures |services| == |old(services)|
      ensures updated ==> var i := FirstIndex(old(services), ServiceHasId(serviceId)).value;
        services == old(services)[i := old(services)[i].(name := Trim(nameInput), duration := duration.n, color := color)]
      ensures !updated ==> services == old(services)
      ensures timeSlots == old(timeSlots) && appointments == old(appointments)
      ensures savedAppointments == old(savedAppointments)
    {
      var name := Trim(nameInput);
      if !ServiceInputOk(name, duration) {
        return false;
      }
      var index := FirstIndex(services, ServiceHasId(serviceId));
      if index.None? {
        return false;
      }
      var i := index.value;
      services := services[i := services[i].(name := name, duration := duration.n, color := color)];
      savedServices := Some(services);
      updated := true;
    }

    /** deleteService, after the operator confirmed. */
    method DeleteService(serviceId: int, confirmed: bool)
      requires Valid()
      modifies this
      ensures Valid()
      ensures services == if confirmed then Filter(old(services), OtherService(serviceId)) else old(services)
      ensures timeSlots == old(timeSlots) && appointments == old(appointments)
      ensures savedAppointments == old(savedAppointments)
    {
      if confirmed {
        services := Filter(services, OtherService(serviceId));
        savedServices := Some(services);
      }
    }

    /** generateTimeSlots, with the intended guard (unreadable hours are refused). */
    method GenerateTimeSlots(startHour: ParsedInt, endHour: ParsedInt) returns (generated: bool)
      requires Valid()
      modifies this
      ensures Valid()
      ensures generated == SlotRangeOk(startHour, endHour)
      ensures timeSlots == SlotsAfterGenerate(old(timeSlots), startHour, endHour)
      ensures services == old(services) && appointments == old(appointments)
      ensures savedAppointments == old(savedAppointments)
    {
      if !SlotRangeOk(startHour, endHour) {
        return false;
      }
      timeSlots := SlotsForHours(startHour.n, endHour.n);
      savedTimeSlots := Some(timeSlots);
      generated := true;
    }

    /** editTimeSlot: `choice` is the service id typed at the prompt (None when
        cancelled, empty or unreadable); the first slot with `slotId` is
        linked to it only when a service has that id. */
    method EditTimeSlot(slotId: int, choice: Option<int>) returns (linked: bool)
      requires Valid()
      modifies this
      ensures Valid()
      ensures var i := FirstIndex(old(timeSlots), SlotHasId(slotId));
        linked <==> i.Some? && choice.Some? && exists k :: 0 <= k < |services| && services[k].id == choice.value
      ensures linked ==> var i := FirstIndex(old(timeSlots), SlotHasId(slotId)).value;
        timeSlots == old(timeSlots)[i := old(timeSlots)[i].(serviceId := Some(choice.value))]
      ensures !linked ==> timeSlots == old(timeSlots)
      ensures services == old(services) && appointments == old(appointments)
      ensures savedAppointments == old(savedAppointments)
    {
      var index := FirstIndex(timeSlots, SlotHasId(slotId));
      if index.None? || choice.None? {
        return false;
      }
      var found := FirstIndex(services, ServiceHasId(choice.value));
      if found.None? {
        return false;
      }
      var i := index.value;
      timeSlots := timeSlots[i := timeSlots[i].(serviceId := Some(choice.value))];
      savedTimeSlots := Some(timeSlots);
      linked := true;
    }

    /** deleteTimeSlot, after the operator confirmed. */
    method DeleteTimeSlot(slotId: int, confirmed: bool)
      requires Valid()
      modifies this
      ensures Valid()
      ensures timeSlots == if confirmed then Filter(old(timeSlots), OtherSlot(slotId)) else old(timeSlots)
      ensures services == old(services) && appointments == old(appointments)
      ensures savedAppointments == old(savedAppointments)
    {
      if confirmed {
        timeSlots := Filter(timeSlots, OtherSlot(slotId));
        savedTimeSlots := Some(timeSlots);
      }
    }

    /** saveAppointment: after the presence check, exactly one confirmed
        record is appended; no check against existing bookings is made. */
    method SaveAppointment(date: Option<int>, time: string, nameInput: string, phoneInput: string,
                           emailInput: string, notesInput: string, newId: int, createdAt: string)
      returns (created: bool)
      requires Valid()
      modifies this
      ensures Valid()
      ensures created <==> AppointmentInputOk(date, time, nameInput, phoneInput, emailInput)
      ensures created ==>
                appointments == old(appointments) + [NewAppointment(newId, date.value, time, Trim(nameInput), Trim(phoneInput), Trim(emailInput),
                  ServiceIdFor(timeSlots, services, time), Trim(notesInput), createdAt)]
      ensures !created ==> appointments == old(appointments) && savedAppointments == old(savedAppointments)
      ensures services == old(services) && timeSlots == old(timeSlots)
    {
      if !AppointmentInputOk(date, time, nameInput, phoneInput, emailInput) {
        return false;
      }
      var serviceId := ServiceIdFor(timeSlots, services, time);
      var record := NewAppointment(newId, date.value, time, Trim(nameInput), Trim(phoneInput), Trim(emailInput),
                                   serviceId, Trim(notesInput), createdAt);
      appointments := appointments + [record];
      savedAppointments := Some(appointments);
      created := true;
    }

    /** updateAppointment: the presence check, then the first record with
        this id gets the six edited fields; an unknown id changes nothing. */
    method UpdateAppointment(id: int, date: Option<int>, time: string, nameInput: string, phoneInput: string,
                             emailInput: string, notesInput: string)
      returns (updated: bool)
      requires Valid()
      modifies this
      ensures Valid()
      ensures var r := UpdatedAppointments(old(appointments), id, date, time, nameInput, phoneInput, emailInput, notesInput);
        updated == r.Some? && appointments == if updated then r.value else old(appointments)
      ensures !updated ==> savedAppointments == old(savedAppointments)
      ensures services == old(services) && timeSlots == old(timeSlots)
    {
      var edited := UpdatedAppointments(appointments, id, date, time, nameInput, phoneInput, emailInput, notesInput);
      updated := edited.Some?;
      if updated {
        appointments := edited.value;
        savedAppointments := Some(appointments);
      }
    }

    /** deleteAppointment, after the operator confirmed. */
    method DeleteAppointment(id: int, confirmed: bool)
      requires Valid()
      modifies this
      ensures Valid()
      ensures appointments == if confirmed then Filter(old(appointments), OtherId(id)) else old(appointments)
      ensures !confirmed ==> savedAppointments == old(savedAppointments)
      ensures services == old(services) && timeSlots == old(timeSlots)
    {
      if confirmed {
        appointments := Filter(appointments, OtherId(id));
        savedAppointments := Some(appointments);
      }
    }

    /** odysseyTurnero.addAppointment: appends the stamped record and returns it. */
    method AddAppointment(data: Record, newId: int, createdAt: string) returns (added: Record)
      requires Valid()
      modifies this
      ensures Valid()
      ensures added == StampAppointment(data, newId, createdAt)
      ensures appointments == old(appointments) + [added]
      ensures services == old(services) && timeSlots == old(timeSlots)
    {
      added := StampAppointment(data, newId, createdAt);
      appointments := appointments + [added];
      savedAppointments := Some(appointments);
    }

    /** updateStats, for the day `today` at wall-clock time `now` ("HH:MM"). */
    function Stats(today: int, now: string): (s: Stats)
      reads this
      ensures s.todayCount == |Filter(appointments, OnDay(today))|
      ensures s.weekCount == |Filter(appointments, InWeekOf(today))|
      ensures s.next == NextAppointment(appointments, today, now)
      ensures s.occupancy == OccupancyRate(s.todayCount, |timeSlots|)
      ensures s.todayCount <= s.weekCount <= |appointments|
    {
      ComputeStats(appointments, |timeSlots|, today, now)
    }
  }
}
