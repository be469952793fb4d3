/** The appointment record of the Mongoose appointment schema, its status values and the
    lifecycle those values follow. */
module AppointmentModel {
  import opened Wrappers
  import opened Calendar
  import opened Auth
  import opened DoctorModel

  /** The four values the schema's `status` enum admits. */
  datatype Status = Pending | Confirmed | Completed | Cancelled {
    /** An active appointment occupies its slot. */
    predicate IsActive() {
      this == Pending || this == Confirmed
    }
    /** Completed and cancelled appointments are history. */
    predicate IsTerminal() {
      this == Completed || this == Cancelled
    }
  }

  /** The schema's default status. */
  const DefaultStatus: Status := Pending

  datatype Appointment = Appointment(
    patientId: UserId,
    doctorId: DoctorId,
    date: Day,
    timeSlot: string,
    reason: string,
    notes: Option<string>,
    status: Status,
    createdAt: int)
  {
    /** What the schema's `required` string fields accept: present and non-empty. */
    predicate SchemaValid() {
      timeSlot != "" && reason != ""
    }
  }

  /** The appointment occupies slot `timeSlot` of doctor `d` on day `day`. */
  predicate Holds(a: Appointment, d: DoctorId, day: Day, timeSlot: string) {
    a.status.IsActive() && a.doctorId == d && a.date == day && a.timeSlot == timeSlot
  }

  /** Some appointment in `records` occupies the slot. */
  predicate SlotHeld(records: seq<Appointment>, d: DoctorId, day: Day, timeSlot: string) {
    exists i | 0 <= i < |records| :: Holds(records[i], d, day, timeSlot)
  }

  /** The store's uniqueness rule: no two active appointments share a doctor, day and slot. */
  ghost predicate AtMostOneActive(records: seq<Appointment>) {
    forall i, j :: 0 <= i < j < |records| && records[i].status.IsActive() && records[j].status.IsActive() ==>
      (records[i].doctorId, records[i].date, records[i].timeSlot) != (records[j].doctorId, records[j].date, records[j].timeSlot)
  }

  /** The lifecycle's edges: confirm, cancel (from pending or confirmed) and complete. */
  predicate Step(from: Status, to: Status) {
    || (from == Pending && to == Confirmed)
    || (from == Pending && to == Cancelled)
    || (from == Confirmed && to == Cancelled)
    || (from == Confirmed && to == Completed)
  }

  /** A status can move from `from` to `to` by zero or more lifecycle edges. */
  predicate Reaches(from: Status, to: Status) {
    from == to || Step(from, to) || (from == Pending && to == Completed)
  }

  /** Only active statuses have outgoing edges, and no edge is a self-loop. */
  lemma StepLeavesActive(from: Status, to: Status)
    requires Step(from, to)
    ensures from.IsActive() && from != to
  {
  }

  /** `Reaches` is the reflexive-transitive closure of `Step`. */
  lemma ReachesIsClosure(a: Status, b: Status, c: Status)
    ensures Step(a, b) ==> Reaches(a, b)
    ensures Reaches(a, b) && Reaches(b, c) ==> Reaches(a, c)
    ensures Reaches(a, b) && a != b ==> Step(a, b) || exists m :: Step(a, m) && Step(m, b)
  {
    if a == Pending && b == Completed {
      assert Step(a, Confirmed) && Step(Confirmed, b);
    }
  }

  /** How the store may evolve: records are only ever added, and an existing record changes at
      most its status, along the lifecycle. */
  ghost predicate Evolves(before: seq<Appointment>, after: seq<Appointment>) {
    |before| <= |after| &&
    forall i :: 0 <= i < |before| ==>
      after[i] == before[i].(status := after[i].status) && Reaches(before[i].status, after[i].status)
  }

  /** A completed or cancelled appointment never changes again. */
  lemma TerminalFrozen(before: seq<Appointment>, after: seq<Appointment>, i: nat)
    requires Evolves(before, after)
    requires i < |before| && before[i].status.IsTerminal()
    ensures after[i] == before[i]
  {
  }

  /** Evolution composes. */
  lemma EvolvesTransitive(s0: seq<Appointment>, s1: seq<Appointment>, s2: seq<Appointment>)
    requires Evolves(s0, s1) && Evolves(s1, s2)
    ensures Evolves(s0, s2)
  {
    forall i | 0 <= i < |s0|
      ensures s2[i] == s0[i].(status := s2[i].status) && Reaches(s0[i].status, s2[i].status)
    {
      ReachesIsClosure(s0[i].status, s1[i].status, s2[i].status);
    }
  }
}
