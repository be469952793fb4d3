/** The dashboard's pick of the next appointment: the confirmed appointments, sorted by date on a
    copy, and the first of them. */
module DashboardPage {
  import opened Wrappers
  import opened AppointmentModel
  import opened Seqs

  /** An appointment as the dashboard holds it; `date` is a point on a time line. */
  datatype Entry = Entry(id: int, doctorName: string, date: int, time: string, status: Status)

  predicate SortedByDate(s: seq<Entry>) {
    forall i, j :: 0 <= i < j < |s| ==> s[i].date <= s[j].date
  }

  /** Puts `x` in front of the first element of `s` that is not earlier than it. */
  function Insert(x: Entry, s: seq<Entry>): (r: seq<Entry>)
    ensures |r| == |s| + 1
    ensures multiset(r) == multiset(s) + multiset{x}
    ensures forall e :: e in r <==> e == x || e in s
  {
    if s == [] || x.date <= s[0].date then [x] + s
    else
      assert s == [s[0]] + s[1..];
      [s[0]] + Insert(x, s[1..])
  }

  /** The head after inserting `x` is `x` exactly when `x` is not later than the old head. */
  lemma InsertHead(x: Entry, s: seq<Entry>)
    ensures Insert(x, s)[0] == if s == [] || x.date <= s[0].date then x else s[0]
  {
  }

  /** Inserting into a sorted sequence keeps it sorted. */
  lemma {:induction false} InsertSorted(x: Entry, s: seq<Entry>)
    requires SortedByDate(s)
    ensures SortedByDate(Insert(x, s))
  {
    if s != [] && x.date > s[0].date {
      var t := Insert(x, s[1..]);
      InsertSorted(x, s[1..]);
      assert forall k :: 0 <= k < |t| ==> t[k] in t;
      var r := Insert(x, s);
      assert r == [s[0]] + t;
    }
  }

  /** `[...confirmed].sort((a, b) => a.date - b.date)`: a stable sort by date. */
  function SortByDate(xs: seq<Entry>): (r: seq<Entry>)
    ensures |r| == |xs|
    ensures SortedByDate(r)
    ensures multiset(r) == multiset(xs)
  {
    if xs == [] then []
    else
      assert xs == [xs[0]] + xs[1..];
      InsertSorted(xs[0], SortByDate(xs[1..]));
      Insert(xs[0], SortByDate(xs[1..]))
  }

  /** `xs[i]` is earliest in `xs`, and no element of the same date comes before it. */
  predicate EarliestAt(xs: seq<Entry>, i: int)
    requires 0 <= i < |xs|
  {
    && (forall j :: 0 <= j < |xs| ==> xs[i].date <= xs[j].date)
    && (forall j :: 0 <= j < i ==> xs[j].date > xs[i].date)
  }

  /** The index of the first of the earliest elements, found by a scan. */
  function FirstEarliest(xs: seq<Entry>): (i: nat)
    requires xs != []
    ensures i < |xs| && EarliestAt(xs, i)
  {
    if |xs| == 1 then 0
    else
      var k := FirstEarliest(xs[1..]);
      if xs[0].date <= xs[1..][k].date then
        assert forall j :: 1 <= j < |xs| ==> xs[j] == xs[1..][j - 1];
        0
      else
        assert forall j :: 1 <= j < |xs| ==> xs[j] == xs[1..][j - 1];
        k + 1
  }

  /** The head of the stable sort is the first of the earliest elements. */
  lemma {:induction false} SortHeadIsFirstEarliest(xs: seq<Entry>)
    requires xs != []
    ensures SortByDate(xs)[0] == xs[FirstEarliest(xs)]
  {
    var t := xs[1..];
    InsertHead(xs[0], SortByDate(t));
    if t != [] {
      SortHeadIsFirstEarliest(t);
    }
  }

  /** `xs[n]` passes `p`, no element passing `p` is earlier, and none of the same date that passes
      `p` comes before it. */
  predicate EarliestWhereAt(xs: seq<Entry>, p: Entry -> bool, n: int)
    requires 0 <= n < |xs|
  {
    && p(xs[n])
    && (forall j :: 0 <= j < |xs| && p(xs[j]) ==> xs[n].date <= xs[j].date)
    && (forall j :: 0 <= j < n && p(xs[j]) ==> xs[j].date > xs[n].date)
  }

  /** Dropping the head of a sequence whose first-earliest element is not the head keeps that
      element first-earliest. */
  lemma EarliestAtTail(f: seq<Entry>, i: int)
    requires 0 < i < |f| && EarliestAt(f, i)
    ensures EarliestAt(f[1..], i - 1)
  {
    assert forall j :: 0 <= j < |f| - 1 ==> f[1..][j] == f[j + 1];
  }

  /** A first-earliest element of the tail among those passing `p` stays so in the whole sequence
      when the head either fails `p` or is strictly later. */
  lemma EarliestWhereAtCons(xs: seq<Entry>, p: Entry -> bool, n: int)
    requires 0 <= n < |xs| - 1 && EarliestWhereAt(xs[1..], p, n)
    requires p(xs[0]) ==> xs[0].date > xs[n + 1].date
    ensures EarliestWhereAt(xs, p, n + 1)
  {
    assert forall j :: 1 <= j < |xs| ==> xs[j] == xs[1..][j - 1];
  }

  /** The first-earliest element of `Filter(xs, p)` is the first-earliest element of `xs` among
      those passing `p`. */
  lemma {:induction false} FilterEarliest(xs: seq<Entry>, p: Entry -> bool, i: int)
    requires 0 <= i < |Filter(xs, p)| && EarliestAt(Filter(xs, p), i)
    ensures exists n :: 0 <= n < |xs| && xs[n] == Filter(xs, p)[i] && EarliestWhereAt(xs, p, n)
  {
    var f := Filter(xs, p);
    var t := xs[1..];
    var rest := Filter(t, p);
    if p(xs[0]) {
      assert f == [xs[0]] + rest;
      if i == 0 {
        forall j | 0 <= j < |xs| && p(xs[j]) ensures f[0].date <= xs[j].date {
          assert xs[j] in f;
        }
        assert EarliestWhereAt(xs, p, 0);
      } else {
        EarliestAtTail(f, i);
        assert f[1..] == rest;
        FilterEarliest(t, p, i - 1);
        var n :| 0 <= n < |t| && t[n] == rest[i - 1] && EarliestWhereAt(t, p, n);
        EarliestWhereAtCons(xs, p, n);
        assert xs[n + 1] == f[i];
      }
    } else {
      assert f == rest;
      FilterEarliest(t, p, i);
      var n :| 0 <= n < |t| && t[n] == rest[i] && EarliestWhereAt(t, p, n);
      EarliestWhereAtCons(xs, p, n);
      assert xs[n + 1] == f[i];
    }
  }

  predicate IsConfirmed(e: Entry) {
    e.status == Confirmed
  }

  /** The effect that picks the upcoming appointment. With no confirmed appointment (or no
      appointments at all) the current pick stays; otherwise the pick is the confirmed appointment
      with the earliest date, the first in list order among equally early ones. */
  function NextUpcoming(appointments: seq<Entry>, current: Option<Entry>): (r: Option<Entry>)
    ensures (forall k :: 0 <= k < |appointments| ==> !IsConfirmed(appointments[k])) ==> r == current
    ensures (exists k :: 0 <= k < |appointments| && IsConfirmed(appointments[k])) ==>
      && r.Some?
      && exists n :: 0 <= n < |appointments| && appointments[n] == r.value && EarliestWhereAt(appointments, IsConfirmed, n)
  {
    if |appointments| > 0 then
      var confirmed := Filter(appointments, IsConfirmed);
      if |confirmed| > 0 then
        var sorted := SortByDate(confirmed);
        SortHeadIsFirstEarliest(confirmed);
        FilterEarliest(appointments, IsConfirmed, FirstEarliest(confirmed));
        Some(sorted[0])
      else
        assert forall k :: 0 <= k < |appointments| ==> !IsConfirmed(appointments[k]) by {
          forall k | 0 <= k < |appointments| ensures !IsConfirmed(appointments[k]) {
            assert appointments[k] in appointments;
          }
        }
        current
    else current
  }

  /** The pick is determined: whenever `appointments[n]` is the first of the earliest confirmed
      appointments, it is the pick. */
  lemma {:induction false} NextUpcomingDetermined(appointments: seq<Entry>, current: Option<Entry>, n: int)
    requires 0 <= n < |appointments| && EarliestWhereAt(appointments, IsConfirmed, n)
    ensures NextUpcoming(appointments, current) == Some(appointments[n])
  {
    assert IsConfirmed(appointments[n]);
    var r := NextUpcoming(appointments, current);
    var m :| 0 <= m < |appointments| && appointments[m] == r.value && EarliestWhereAt(appointments, IsConfirmed, m);
    assert m == n;
  }
}
