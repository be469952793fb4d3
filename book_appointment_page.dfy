/** The booking page: the form check, the two-step wizard, the guard in front of submitting, and
    the list of dates the date picker offers. */
module BookAppointmentPage {
  import opened Wrappers
  import opened Calendar
  import opened Seqs
  import opened Text

  /** The form fields `validateForm` reports on. */
  datatype FormField = DateField | TimeField | ReasonField

  const DateMessage: string := "Please select a date"
  const TimeMessage: string := "Please select a time"
  const ReasonMessage: string := "Please select a reason for your visit"

  /** The page's state: the form values, the wizard step, the form errors shown, and the
      submission flags. An unselected field is the empty string. */
  class BookingPage {
    var date: string
    var time: string
    var reason: string
    var notes: string
    var bookingStep: int
    var formErrors: map<FormField, string>
    var submitting: bool
    var bookingSuccess: bool

    /** The form is complete: a date, a time and a reason are selected. */
    predicate FormComplete()
      reads this
    {
      date != "" && time != "" && reason != ""
    }

    /** The errors shown are exactly those of the current form: one per empty field among date,
        time and reason, with that field's message. */
    predicate ErrorsMatchForm()
      reads this
    {
      && (DateField in formErrors <==> date == "")
      && (TimeField in formErrors <==> time == "")
      && (ReasonField in formErrors <==> reason == "")
      && (DateField in formErrors ==> formErrors[DateField] == DateMessage)
      && (TimeField in formErrors ==> formErrors[TimeField] == TimeMessage)
      && (ReasonField in formErrors ==> formErrors[ReasonField] == ReasonMessage)
    }

    /** With the errors matching the form, there are none exactly when the form is complete. */
    lemma NoErrorsIffComplete()
      requires ErrorsMatchForm()
      ensures formErrors == map[] <==> FormComplete()
    {
      if !FormComplete() {
        assert DateField in formErrors || TimeField in formErrors || ReasonField in formErrors;
      } else {
        forall k: FormField ensures k !in formErrors {
          match k
          case DateField =>
          case TimeField =>
          case ReasonField =>
        }
        assert formErrors.Keys == {};
      }
    }

    /** The page as first rendered. */
    constructor ()
      ensures date == "" && time == "" && reason == "" && notes == ""
      ensures bookingStep == 1 && formErrors == map[] && !submitting && !bookingSuccess
    {
      date, time, reason, notes := "", "", "", "";
      bookingStep := 1;
      formErrors := map[];
      submitting, bookingSuccess := false, false;
    }

    /** `validateForm`: records an error for exactly the empty fields among date, time and
        reason, and reports whether there were none. */
    method ValidateForm() returns (ok: bool)
      modifies this`formErrors
      ensures ErrorsMatchForm()
      ensures ok <==> formErrors == map[]
      ensures ok <==> FormComplete()
    {
      var errors: map<FormField, string> := map[];
      if date == "" {
        errors := errors[DateField := DateMessage];
      }
      if time == "" {
        errors := errors[TimeField := TimeMessage];
      }
      if reason == "" {
        errors := errors[ReasonField := ReasonMessage];
      }
      formErrors := errors;
      ok := |errors| == 0;
      assert DateField in errors || TimeField in errors || ReasonField in errors ==> |errors| != 0;
    }

    /** `handleNextStep`: on to step 2 only when the form is complete. */
    method HandleNextStep()
      modifies this`formErrors, this`bookingStep
      ensures bookingStep == if FormComplete() then 2 else old(bookingStep)
      ensures ErrorsMatchForm()
      ensures formErrors == map[] <==> FormComplete()
    {
      var ok := ValidateForm();
      if ok {
        bookingStep := 2;
      }
    }

    /** `handlePreviousStep`: always back to step 1. */
    method HandlePreviousStep()
      modifies this`bookingStep
      ensures bookingStep == 1
    {
      bookingStep := 1;
    }

    /** `handleBooking`: an incomplete form stops here with only the errors updated; a complete one
        goes through the (simulated) submission, which always succeeds. */
    method HandleBooking() returns (submitted: bool)
      modifies this`formErrors, this`submitting, this`bookingSuccess
      ensures submitted <==> FormComplete()
      ensures !submitted ==> submitting == old(submitting) && bookingSuccess == old(bookingSuccess)
      ensures submitted ==> bookingSuccess && !submitting
      ensures ErrorsMatchForm()
      ensures formErrors == map[] <==> FormComplete()
    {
      var ok := ValidateForm();
      if !ok {
        return false;
      }
      submitting := true;
      bookingSuccess := true;
      submitting := false;
      submitted := true;
    }
  }

  /** The lower-cased long weekday name. */
  function WeekdayKey(w: Weekday): string {
    match w
    case Monday => "monday"
    case Tuesday => "tuesday"
    case Wednesday => "wednesday"
    case Thursday => "thursday"
    case Friday => "friday"
    case Saturday => "saturday"
    case Sunday => "sunday"
  }

  lemma LowerIs(s: string, t: string)
    requires |s| == |t| && forall i :: 0 <= i < |s| ==> LowerChar(s[i]) == t[i]
    ensures Lower(s) == t
  {
  }

  /** `WeekdayKey` is what lower-casing the long weekday name gives. */
  lemma WeekdayKeyIsLower(w: Weekday)
    ensures Lower(WeekdayName(w)) == WeekdayKey(w)
  {
    LowerIs(WeekdayName(w), WeekdayKey(w));
  }

  /** The lower-cased weekday name of `day` is among `keys`. */
  function KeyedOn(keys: seq<string>): Day -> bool {
    (day: Day) => WeekdayKey(WeekdayOf(day)) in keys
  }

  /** The doctor takes appointments on `day`: its lower-cased weekday name is among the
      lower-cased names of `availability`. */
  predicate DayOffered(availability: seq<string>, day: Day) {
    KeyedOn(MapSeq(availability, Lower))(day)
  }

  /** The days among the `n` days starting `today`, in ascending order, that pass `p`. */
  function Window(p: Day -> bool, today: Day, n: nat): seq<Day> {
    if n == 0 then []
    else Window(p, today, n - 1) + (if p(today + n - 1) then [today + n - 1] else [])
  }

  /** What `Window` holds: at most `n` days, ascending, all within the window, and a day of the
      window is in it exactly when it passes `p`; when no day passes, it is empty. */
  lemma WindowSpec(p: Day -> bool, today: Day, n: nat)
    ensures var r := Window(p, today, n);
      && |r| <= n
      && (forall k :: 0 <= k < |r| ==> today <= r[k] < today + n)
      && (forall k, l :: 0 <= k < l < |r| ==> r[k] < r[l])
      && (forall d :: today <= d < today + n ==> (d in r <==> p(d)))
      && ((forall d :: !p(d)) ==> r == [])
  {
    if forall d :: !p(d) {
      WindowEmpty(p, today, n);
    }
    WindowInRange(p, today, n);
    WindowAscending(p, today, n);
    WindowMembers(p, today, n);
  }

  /** At most `n` days, all within the window. */
  lemma {:induction false} WindowInRange(p: Day -> bool, today: Day, n: nat)
    ensures |Window(p, today, n)| <= n
    ensures forall k :: 0 <= k < |Window(p, today, n)| ==> today <= Window(p, today, n)[k] < today + n
  {
    if n > 0 {
      WindowInRange(p, today, n - 1);
    }
  }

  /** The days come in strictly ascending order. */
  lemma {:induction false} WindowAscending(p: Day -> bool, today: Day, n: nat)
    ensures forall k, l :: 0 <= k < l < |Window(p, today, n)| ==> Window(p, today, n)[k] < Window(p, today, n)[l]
  {
    if n > 0 {
      WindowAscending(p, today, n - 1);
      WindowInRange(p, today, n - 1);
    }
  }

  /** A day of the window is among the days exactly when it passes `p`. */
  lemma {:induction false} WindowMembers(p: Day -> bool, today: Day, n: nat)
    ensures forall d :: today <= d < today + n ==> (d in Window(p, today, n) <==> p(d))
    ensures forall d :: d in Window(p, today, n) ==> today <= d < today + n
  {
    if n > 0 {
      WindowMembers(p, today, n - 1);
    }
  }

  /** When no day passes, there are no days. */
  lemma {:induction false} WindowEmpty(p: Day -> bool, today: Day, n: nat)
    requires forall d :: !p(d)
    ensures Window(p, today, n) == []
  {
    if n > 0 {
      WindowEmpty(p, today, n - 1);
    }
  }

  /** Within the fourteen-day window, a day is offered exactly when the same weekday a week
      later is. */
  lemma DatesRepeatWeekly(keys: seq<string>, today: Day, d: Day)
    requires today <= d < today + 7
    ensures d in Window(KeyedOn(keys), today, 14) <==> d + 7 in Window(KeyedOn(keys), today, 14)
  {
    WindowSpec(KeyedOn(keys), today, 14);
    WeekdayPeriodic(d);
  }

  /** A weekday among `keys` is offered on exactly two days of the fourteen-day window, one week
      apart: the first day on or after `today` that falls on it, and the day a week later. */
  lemma OfferedWeekdayTwice(keys: seq<string>, today: Day, w: Weekday)
    requires WeekdayKey(w) in keys
    ensures forall d :: today <= d < today + 14 ==>
      (d in Window(KeyedOn(keys), today, 14) && WeekdayOf(d) == w <==> d == NextOn(today, w) || d == NextOn(today, w) + 7)
  {
    WindowSpec(KeyedOn(keys), today, 14);
    forall d | today <= d < today + 14
      ensures d in Window(KeyedOn(keys), today, 14) && WeekdayOf(d) == w <==> d == NextOn(today, w) || d == NextOn(today, w) + 7
    {
      FortnightOn(today, w, d);
    }
  }

  /** `toLocaleDateString('en-US', { weekday: 'long' }).toLowerCase()` for `day`. */
  method DayName(day: Day) returns (name: string)
    ensures name == WeekdayKey(WeekdayOf(day))
  {
    name := Lower(WeekdayName(WeekdayOf(day)));
    WeekdayKeyIsLower(WeekdayOf(day));
  }

  /** The loop of `getAvailableDates`: each of the fourteen days starting `today`, in order, is
      kept when its lower-cased weekday name is among `keys`. */
  method DatesAmong(keys: seq<string>, today: Day) returns (dates: seq<Day>)
    ensures dates == Window(KeyedOn(keys), today, 14)
  {
    dates := [];
    for i := 0 to 14
      invariant dates == Window(KeyedOn(keys), today, i)
    {
      var day := today + i;
      var dayName := DayName(day);
      if dayName in keys {
        dates := dates + [day];
      }
    }
  }

  /** `getAvailableDates`: of the fourteen days starting `today`, in ascending order, those on
      which the doctor takes appointments. No doctor (`None`) means no availability. */
  method GetAvailableDates(availability: Option<seq<string>>, today: Day) returns (dates: seq<Day>)
    ensures dates == Window(KeyedOn(MapSeq(availability.GetOr([]), Lower)), today, 14)
    ensures |dates| <= 14
    ensures forall k :: 0 <= k < |dates| ==> today <= dates[k] < today + 14
    ensures forall k, l :: 0 <= k < l < |dates| ==> dates[k] < dates[l]
    ensures forall d :: today <= d < today + 14 ==> (d in dates <==> DayOffered(availability.GetOr([]), d))
    ensures availability.None? || availability.value == [] ==> dates == []
  {
    var availableDays := MapSeq(availability.GetOr([]), Lower);
    dates := DatesAmong(availableDays, today);
    WindowSpec(KeyedOn(availableDays), today, 14);
    if availableDays == [] {
      assert forall d :: !KeyedOn(availableDays)(d);
    }
  }
}
