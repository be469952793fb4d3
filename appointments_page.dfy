/** The patient's appointments page: the tab filter, the local cancel, the cancel action's
    visibility and the status badge. */
module AppointmentsPage {
  import opened AppointmentModel
  import opened Seqs

  /** An appointment as the page lists it; `date` is on the same time line as `now`. */
  datatype Entry = Entry(id: string, date: int, time: string, status: Status, reason: string, notes: string)

  /** The tab predicate of `filteredAppointments` for the tab `tab` at time `now`. */
  predicate InTab(e: Entry, tab: string, now: int) {
    if tab == "upcoming" then e.date >= now && e.status == Confirmed
    else if tab == "past" then e.date < now || e.status == Completed
    else if tab == "cancelled" then e.status == Cancelled
    else true
  }

  /** `filteredAppointments`: the entries of `appointments` on tab `tab`, in their order. */
  function FilteredAppointments(appointments: seq<Entry>, tab: string, now: int): (r: seq<Entry>)
    ensures IsSubsequence(r, appointments)
    ensures forall e :: e in r <==> e in appointments && InTab(e, tab, now)
    ensures forall e :: multiset(r)[e] == if InTab(e, tab, now) then multiset(appointments)[e] else 0
  {
    FilterIsSubsequence(appointments, (e: Entry) => InTab(e, tab, now));
    FilterMultiplicity(appointments, (e: Entry) => InTab(e, tab, now));
    Filter(appointments, (e: Entry) => InTab(e, tab, now))
  }

  /** What each tab shows: upcoming, the confirmed entries not yet past; past, the entries before
      `now` or completed; cancelled, the cancelled entries; any other tab, everything. */
  lemma TabContents(appointments: seq<Entry>, tab: string, now: int, e: Entry)
    ensures tab == "upcoming" ==>
      (e in FilteredAppointments(appointments, tab, now) <==> e in appointments && e.date >= now && e.status == Confirmed)
    ensures tab == "past" ==>
      (e in FilteredAppointments(appointments, tab, now) <==> e in appointments && (e.date < now || e.status == Completed))
    ensures tab == "cancelled" ==>
      (e in FilteredAppointments(appointments, tab, now) <==> e in appointments && e.status == Cancelled)
    ensures tab != "upcoming" && tab != "past" && tab != "cancelled" ==>
      FilteredAppointments(appointments, tab, now) == appointments
  {
    if tab != "upcoming" && tab != "past" && tab != "cancelled" {
      FilterAll(appointments, (e: Entry) => InTab(e, tab, now));
    }
  }

  /** No entry is on both the upcoming and the cancelled tab. */
  lemma UpcomingCancelledDisjoint(appointments: seq<Entry>, now: int, e: Entry)
    ensures !(e in FilteredAppointments(appointments, "upcoming", now) &&
              e in FilteredAppointments(appointments, "cancelled", now))
  {
  }

  /** The Cancel button is shown only on confirmed appointments. */
  predicate OffersCancel(e: Entry)
    ensures OffersCancel(e) ==> e.status.IsActive()
  {
    e.status == Confirmed
  }

  /** `confirmCancelAppointment`'s local update: every entry with the id becomes cancelled; all
      other entries, the order and the length stay as they were. */
  function CancelLocally(appointments: seq<Entry>, id: string): (r: seq<Entry>)
    ensures |r| == |appointments|
    ensures forall i :: 0 <= i < |r| && appointments[i].id != id ==> r[i] == appointments[i]
    ensures forall i :: 0 <= i < |r| && appointments[i].id == id ==> r[i] == appointments[i].(status := Cancelled)
  {
    MapSeq(appointments, (e: Entry) => if e.id == id then e.(status := Cancelled) else e)
  }

  /** After the local cancel, an entry with that id offers no Cancel button, is off the upcoming
      tab and on the cancelled tab; cancelling again changes nothing. */
  lemma CancelLocallyMovesTabs(appointments: seq<Entry>, id: string, now: int)
    ensures var r := CancelLocally(appointments, id);
      forall e :: e in r && e.id == id ==>
        && !OffersCancel(e)
        && e !in FilteredAppointments(r, "upcoming", now)
        && e in FilteredAppointments(r, "cancelled", now)
    ensures CancelLocally(CancelLocally(appointments, id), id) == CancelLocally(appointments, id)
  {
    var r := CancelLocally(appointments, id);
    forall e | e in r && e.id == id
      ensures e.status == Cancelled
    {
      var i :| 0 <= i < |r| && r[i] == e;
      assert appointments[i].id == id;
    }
  }

  /** The status badge as the page writes it: every status other than confirmed and completed is
      labelled "Cancelled", a pending one included. */
  function StatusLabelAsWritten(s: Status): (r: string)
    ensures r in {"Confirmed", "Completed", "Cancelled"}
    ensures r == "Cancelled" <==> s == Pending || s == Cancelled
  {
    assert "Confirmed"[1] != "Cancelled"[1] && "Completed"[1] != "Cancelled"[1];
    assert s.Pending? || s.Confirmed? || s.Completed? || s.Cancelled?;
    if s == Confirmed then "Confirmed" else if s == Completed then "Completed" else "Cancelled"
  }

  /** A pending appointment gets the same badge as a cancelled one. */
  lemma PendingShownAsCancelled()
    ensures StatusLabelAsWritten(Pending) == StatusLabelAsWritten(Cancelled) == "Cancelled"
  {
  }

  /** The badge with a label of its own for each of the four statuses. */
  function StatusLabel(s: Status): (r: string)
    ensures s == Completed || s == Confirmed ==> r == StatusLabelAsWritten(s)
    ensures s == Cancelled ==> r == StatusLabelAsWritten(s)
  {
    match s
    case Pending => "Pending"
    case Confirmed => "Confirmed"
    case Completed => "Completed"
    case Cancelled => "Cancelled"
  }

  /** Different statuses get different badges. */
  lemma StatusLabelInjective(a: Status, b: Status)
    requires StatusLabel(a) == StatusLabel(b)
    ensures a == b
  {
  }
}
