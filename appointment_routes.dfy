/** The appointment routes: booking, the three lifecycle transitions, the access rule for
    reading one appointment, and the available-slots query. The appointment collection is a
    store object whose `records` sequence the handlers extend and update in place; the doctor
    collection is passed in as it stands when the request is handled. */
module AppointmentRoutes {
  import opened Wrappers
  import opened Calendar
  import opened Auth
  import opened DoctorModel
  import opened AppointmentModel
  import opened Seqs

  /** The error responses of the appointment routes. */
  datatype Error =
    | Forbidden                    // 403: role refused by `authorize`, or not party to the appointment
    | MissingFields                // 400 'Please provide all required fields'
    | DoctorUnavailable            // 400 'Doctor not available' (missing or unapproved doctor)
    | SlotTaken                    // 400 'This time slot is already booked'
    | NotFound                     // 404 appointment (or, for the slot query, doctor) not found
    | CannotCancel(status: Status) // 400 'Cannot cancel an appointment that is already ...'
    | CannotConfirm(status: Status)// 400 'Cannot confirm an appointment that is ...'
    | NotConfirmed                 // 400 'Only confirmed appointments can be marked as completed'

  /** The HTTP status code each error is answered with. */
  function HttpStatus(e: Error): int {
    match e
    case Forbidden => 403
    case NotFound => 404
    case _ => 400
  }

  /** The body of `POST /book`. An absent or empty `doctorId` or `date` is `None`; an absent
      `timeSlot` or `reason` is the empty string. */
  datatype BookRequest = BookRequest(
    doctorId: Option<DoctorId>,
    date: Option<Day>,
    timeSlot: string,
    reason: string,
    notes: Option<string>)

  /** `!doctorId || !date || !timeSlot || !reason` is false. `notes` is optional. */
  predicate HasRequiredFields(req: BookRequest) {
    req.doctorId.Some? && req.date.Some? && req.timeSlot != "" && req.reason != ""
  }

  /** The doctor exists and is approved. */
  predicate Bookable(doctors: seq<Doctor>, d: DoctorId) {
    d < |doctors| && doctors[d].approved
  }

  /** The cancel rule: the booking patient, or an admin. */
  predicate MayCancel(a: Appointment, caller: Actor) {
    a.patientId == caller.id || caller.role == AdminRole
  }

  /** The confirm and complete rule, for a caller `authorize` let through: an admin, or a doctor
      whose own profile is the appointment's doctor. */
  predicate ActsFor(doctors: seq<Doctor>, a: Appointment, caller: Actor) {
    caller.role == AdminRole || (caller.role == DoctorRole && ProfileOf(doctors, caller.id) == Some(a.doctorId))
  }

  /** The read rule of `GET /:id`: the appointment's patient, its doctor's user, or an admin. */
  predicate MayView(doctors: seq<Doctor>, a: Appointment, caller: Actor) {
    a.patientId == caller.id ||
    (a.doctorId < |doctors| && doctors[a.doctorId].userId == caller.id) ||
    caller.role == AdminRole
  }

  /** Whoever may cancel an appointment may also read it. */
  lemma CancellerMayView(doctors: seq<Doctor>, a: Appointment, caller: Actor)
    requires MayCancel(a, caller)
    ensures MayView(doctors, a, caller)
  {
  }

  /** `records` with the status of record `i` replaced by `s`, all else kept. */
  function WithStatus(records: seq<Appointment>, i: nat, s: Status): (r: seq<Appointment>)
    requires i < |records|
    ensures |r| == |records| && r[i].status == s
    ensures forall j :: 0 <= j < |r| && j != i ==> r[j] == records[j]
    ensures r[i] == records[i].(status := s)
  {
    records[i := records[i].(status := s)]
  }

  /** Appending an active appointment for a free slot keeps at most one active appointment per
      doctor, day and slot. */
  lemma AppendKeepsUnique(records: seq<Appointment>, a: Appointment)
    requires AtMostOneActive(records)
    requires !SlotHeld(records, a.doctorId, a.date, a.timeSlot)
    ensures AtMostOneActive(records + [a])
  {
    var r := records + [a];
    forall i, j | 0 <= i < j < |r| && r[i].status.IsActive() && r[j].status.IsActive()
      ensures (r[i].doctorId, r[i].date, r[i].timeSlot) != (r[j].doctorId, r[j].date, r[j].timeSlot)
    {
      if j == |records| {
        assert !Holds(records[i], a.doctorId, a.date, a.timeSlot);
      }
    }
  }

  /** A status change that does not turn an inactive appointment active keeps the uniqueness
      rule. */
  lemma StatusChangeKeepsUnique(records: seq<Appointment>, i: nat, s: Status)
    requires AtMostOneActive(records)
    requires i < |records|
    requires s.IsActive() ==> records[i].status.IsActive()
    ensures AtMostOneActive(WithStatus(records, i, s))
  {
    var r := WithStatus(records, i, s);
    forall j, k | 0 <= j < k < |r| && r[j].status.IsActive() && r[k].status.IsActive()
      ensures (r[j].doctorId, r[j].date, r[j].timeSlot) != (r[k].doctorId, r[k].date, r[k].timeSlot)
    {
      assert records[j].status.IsActive() && records[k].status.IsActive();
    }
  }

  /** Cancelling the appointment that occupies a slot frees that slot: under the uniqueness rule
      no other appointment holds it. */
  lemma CancelFreesSlot(records: seq<Appointment>, i: nat, d: DoctorId, day: Day, timeSlot: string)
    requires AtMostOneActive(records)
    requires i < |records| && Holds(records[i], d, day, timeSlot)
    ensures !SlotHeld(WithStatus(records, i, Cancelled), d, day, timeSlot)
  {
    var r := WithStatus(records, i, Cancelled);
    forall j | 0 <= j < |r|
      ensures !Holds(r[j], d, day, timeSlot)
    {
    }
  }

  /** The store of appointment records. An appointment's id is its position in `records`;
      records are never removed. */
  class AppointmentStore {
    var records: seq<Appointment>

    /** Every record satisfies the schema, and at most one active appointment holds any doctor,
        day and slot. */
    ghost predicate Valid()
      reads this
    {
      AtMostOneActive(records) && forall i :: 0 <= i < |records| ==> records[i].SchemaValid()
    }

    constructor ()
      ensures Valid() && records == []
    {
      records := [];
    }

    /** `POST /book` by `caller`, at time `now`, against the doctor collection `doctors`. */
    method Book(caller: Actor, req: BookRequest, doctors: seq<Doctor>, now: int) returns (r: Result<nat, Error>)
      requires Valid()
      modifies this
      ensures Valid()
      ensures Evolves(old(records), records)
      ensures r == Failure(Forbidden) <==> !Authorized(caller, {PatientRole})
      ensures r == Failure(MissingFields) <==> Authorized(caller, {PatientRole}) && !HasRequiredFields(req)
      ensures r == Failure(DoctorUnavailable) <==>
        Authorized(caller, {PatientRole}) && HasRequiredFields(req) && !Bookable(doctors, req.doctorId.value)
      ensures r == Failure(SlotTaken) <==>
        Authorized(caller, {PatientRole}) && HasRequiredFields(req) && Bookable(doctors, req.doctorId.value) &&
        SlotHeld(old(records), req.doctorId.value, req.date.value, req.timeSlot)
      ensures r.Success? <==>
        Authorized(caller, {PatientRole}) && HasRequiredFields(req) && Bookable(doctors, req.doctorId.value) &&
        !SlotHeld(old(records), req.doctorId.value, req.date.value, req.timeSlot)
      ensures r.Failure? ==> records == old(records)
      ensures r.Success? ==> r.value == |old(records)|
      ensures r.Success? ==>
        records == old(records) + [Appointment(caller.id, req.doctorId.value, req.date.value, req.timeSlot,
                                               req.reason, Some(req.notes.GetOr("")), DefaultStatus, now)]
    {
      if !Authorized(caller, {PatientRole}) {
        return Failure(Forbidden);
      }
      if !HasRequiredFields(req) {
        return Failure(MissingFields);
      }
      var d, day := req.doctorId.value, req.date.value;
      if !Bookable(doctors, d) {
        return Failure(DoctorUnavailable);
      }
      if SlotHeld(records, d, day, req.timeSlot) {
        return Failure(SlotTaken);
      }
      var a := Appointment(caller.id, d, day, req.timeSlot, req.reason, Some(req.notes.GetOr("")), Pending, now);
      AppendKeepsUnique(records, a);
      r := Success(|records|);
      records := records + [a];
    }

    /** `PUT /cancel/:id` by `caller`. */
    method Cancel(caller: Actor, id: nat) returns (r: Result<(), Error>)
      requires Valid()
      modifies this
      ensures Valid()
      ensures Evolves(old(records), records)
      ensures r == Failure(NotFound) <==> id >= |old(records)|
      ensures r == Failure(Forbidden) <==> id < |old(records)| && !MayCancel(old(records)[id], caller)
      ensures (r.Failure? && r.error.CannotCancel?) <==>
        id < |old(records)| && MayCancel(old(records)[id], caller) && old(records)[id].status.IsTerminal()
      ensures r.Failure? && r.error.CannotCancel? ==> r.error.status == old(records)[id].status
      ensures r.Success? <==>
        id < |old(records)| && MayCancel(old(records)[id], caller) && old(records)[id].status.IsActive()
      ensures r.Failure? ==> records == old(records)
      ensures r.Success? ==> records == WithStatus(old(records), id, Cancelled)
    {
      if id >= |records| {
        return Failure(NotFound);
      }
      var a := records[id];
      if !MayCancel(a, caller) {
        return Failure(Forbidden);
      }
      if a.status == Completed || a.status == Cancelled {
        return Failure(CannotCancel(a.status));
      }
      StatusChangeKeepsUnique(records, id, Cancelled);
      records := WithStatus(records, id, Cancelled);
      r := Success(());
    }

    /** `PUT /confirm/:id` by `caller`, against the doctor collection `doctors`. */
    method Confirm(caller: Actor, id: nat, doctors: seq<Doctor>) returns (r: Result<(), Error>)
      requires Valid()
      modifies this
      ensures Valid()
      ensures Evolves(old(records), records)
      ensures r == Failure(NotFound) <==> Authorized(caller, {DoctorRole, AdminRole}) && id >= |old(records)|
      ensures r == Failure(Forbidden) <==>
        !Authorized(caller, {DoctorRole, AdminRole}) ||
        (id < |old(records)| && !ActsFor(doctors, old(records)[id], caller))
      ensures (r.Failure? && r.error.CannotConfirm?) <==>
        Authorized(caller, {DoctorRole, AdminRole}) && id < |old(records)| &&
        ActsFor(doctors, old(records)[id], caller) && old(records)[id].status != Pending
      ensures r.Failure? && r.error.CannotConfirm? ==> r.error.status == old(records)[id].status
      ensures r.Success? <==>
        Authorized(caller, {DoctorRole, AdminRole}) && id < |old(records)| &&
        ActsFor(doctors, old(records)[id], caller) && old(records)[id].status == Pending
      ensures r.Failure? ==> records == old(records)
      ensures r.Success? ==> records == WithStatus(old(records), id, Confirmed)
    {
      if !Authorized(caller, {DoctorRole, AdminRole}) {
        return Failure(Forbidden);
      }
      if id >= |records| {
        return Failure(NotFound);
      }
      var a := records[id];
      if caller.role == DoctorRole {
        var profile := ProfileOf(doctors, caller.id);
        if profile.None? || a.doctorId != profile.value {
          return Failure(Forbidden);
        }
      }
      if a.status != Pending {
        return Failure(CannotConfirm(a.status));
      }
      StatusChangeKeepsUnique(records, id, Confirmed);
      records := WithStatus(records, id, Confirmed);
      r := Success(());
    }

    /** `PUT /complete/:id` by `caller`, against the doctor collection `doctors`. */
    method Complete(caller: Actor, id: nat, doctors: seq<Doctor>) returns (r: Result<(), Error>)
      requires Valid()
      modifies this
      ensures Valid()
      ensures Evolves(old(records), records)
      ensures r == Failure(NotFound) <==> Authorized(caller, {DoctorRole, AdminRole}) && id >= |old(records)|
      ensures r == Failure(Forbidden) <==>
        !Authorized(caller, {DoctorRole, AdminRole}) ||
        (id < |old(records)| && !ActsFor(doctors, old(records)[id], caller))
      ensures r == Failure(NotConfirmed) <==>
        Authorized(caller, {DoctorRole, AdminRole}) && id < |old(records)| &&
        ActsFor(doctors, old(records)[id], caller) && old(records)[id].status != Confirmed
      ensures r.Success? <==>
        Authorized(caller, {DoctorRole, AdminRole}) && id < |old(records)| &&
        ActsFor(doctors, old(records)[id], caller) && old(records)[id].status == Confirmed
      ensures r.Failure? ==> records == old(records)
      ensures r.Success? ==> records == WithStatus(old(records), id, Completed)
    {
      if !Authorized(caller, {DoctorRole, AdminRole}) {
        return Failure(Forbidden);
      }
      if id >= |records| {
        return Failure(NotFound);
      }
      var a := records[id];
      if caller.role == DoctorRole {
        var profile := ProfileOf(doctors, caller.id);
        if profile.None? || a.doctorId != profile.value {
          return Failure(Forbidden);
        }
      }
      if a.status != Confirmed {
        return Failure(NotConfirmed);
      }
      StatusChangeKeepsUnique(records, id, Completed);
      records := WithStatus(records, id, Completed);
      r := Success(());
    }
  }

  /** The answer of `GET /slots/:doctorId/:date`. */
  datatype SlotAnswer = SlotAnswer(available: bool, message: Option<string>, availableSlots: seq<string>)

  /** The time slots booked by active appointments of doctor `d` on `day`
      (`Appointment.find(...)` then `map(appointment => appointment.timeSlot)`). */
  function BookedSlots(records: seq<Appointment>, d: DoctorId, day: Day): (r: seq<string>)
    ensures forall s :: s in r <==> SlotHeld(records, d, day, s)
  {
    var booked := Filter(records, (a: Appointment) => a.status.IsActive() && a.doctorId == d && a.date == day);
    var r := MapSeq(booked, (a: Appointment) => a.timeSlot);
    assert forall s :: s in r ==> SlotHeld(records, d, day, s) by {
      forall s | s in r ensures SlotHeld(records, d, day, s) {
        var k :| 0 <= k < |r| && r[k] == s;
        assert booked[k] in records;
        var i :| 0 <= i < |records| && records[i] == booked[k];
        assert Holds(records[i], d, day, s);
      }
    }
    assert forall s :: SlotHeld(records, d, day, s) ==> s in r by {
      forall s | SlotHeld(records, d, day, s) ensures s in r {
        var i :| 0 <= i < |records| && Holds(records[i], d, day, s);
        assert records[i] in booked;
        var k :| 0 <= k < |booked| && booked[k] == records[i];
        assert r[k] == s;
      }
    }
    r
  }

  /** `GET /slots/:doctorId/:date`. An unknown doctor is 404. On a weekday outside the doctor's
      `availableDays` the answer is unavailable with no slots. Otherwise the slots are the
      doctor's catalog in its own order, less every slot an active appointment holds that day. */
  function AvailableSlots(doctors: seq<Doctor>, records: seq<Appointment>, d: DoctorId, day: Day): (r: Result<SlotAnswer, Error>)
    ensures r.Failure? <==> d >= |doctors|
    ensures r.Failure? ==> r.error == NotFound
    ensures r.Success? ==> (r.value.available <==> WeekdayOf(day) in doctors[d].availableDays)
    ensures r.Success? && !r.value.available ==> r.value.availableSlots == []
    ensures r.Success? && r.value.available ==>
      IsSubsequence(r.value.availableSlots, doctors[d].availableTimeSlots) &&
      forall s :: s in r.value.availableSlots <==>
        s in doctors[d].availableTimeSlots && !SlotHeld(records, d, day, s)
    ensures r.Success? && r.value.available ==>
      forall s :: multiset(r.value.availableSlots)[s] ==
        if SlotHeld(records, d, day, s) then 0 else multiset(doctors[d].availableTimeSlots)[s]
  {
    if d >= |doctors| then Failure(NotFound)
    else
      var doctor := doctors[d];
      var dayOfWeek := WeekdayOf(day);
      if dayOfWeek !in doctor.availableDays then
        Success(SlotAnswer(false, Some("Doctor is not available on " + WeekdayName(dayOfWeek)), []))
      else
        var booked := BookedSlots(records, d, day);
        var p := (s: string) => s !in booked;
        FilterIsSubsequence(doctor.availableTimeSlots, p);
        FilterMultiplicity(doctor.availableTimeSlots, p);
        Success(SlotAnswer(true, None, Filter(doctor.availableTimeSlots, p)))
  }

  /** A successful booking removes its slot from that day's available slots. */
  lemma BookedSlotLeavesQuery(doctors: seq<Doctor>, records: seq<Appointment>, a: Appointment)
    requires a.doctorId < |doctors| && a.status.IsActive()
    ensures var r := AvailableSlots(doctors, records + [a], a.doctorId, a.date);
      r.Success? && a.timeSlot !in r.value.availableSlots
  {
    var all := records + [a];
    assert Holds(all[|records|], a.doctorId, a.date, a.timeSlot);
  }

  /** Cancelling the appointment that holds a catalog slot on an available day puts the slot
      back into that day's available slots. */
  lemma CancelReopensQuery(doctors: seq<Doctor>, records: seq<Appointment>, i: nat)
    requires AtMostOneActive(records)
    requires i < |records| && records[i].status.IsActive()
    requires records[i].doctorId < |doctors|
    requires WeekdayOf(records[i].date) in doctors[records[i].doctorId].availableDays
    requires records[i].timeSlot in doctors[records[i].doctorId].availableTimeSlots
    ensures var a := records[i];
      var r := AvailableSlots(doctors, WithStatus(records, i, Cancelled), a.doctorId, a.date);
      r.Success? && r.value.available && a.timeSlot in r.value.availableSlots
  {
    var a := records[i];
    CancelFreesSlot(records, i, a.doctorId, a.date, a.timeSlot);
  }
}
