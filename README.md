# Healthcare booking system: appointment and doctor core

This project models the core of a small doctor-appointment booking system and proves
properties of that model.

The backend keeps two collections.
- **Appointments.** A patient books an appointment with an approved doctor for a day and a
  time slot. The appointment then moves through a four-state lifecycle: pending, confirmed,
  completed, and cancelled from pending or confirmed. The lifecycle is driven by the patient,
  the appointment's doctor, or an admin, each allowed only certain moves.
- **Doctors.** Each doctor profile has a weekly availability, a catalog of time slots,
  patient reviews and a rating derived from them. An admin approves doctors before they
  can be booked.

A slot query lists the free slots of a doctor on a day. The frontend adds a few pure rules:
- the booking form check and the dates the date picker offers;
- the tab filters and local cancel on the patient's appointments page;
- the dashboard's pick of the next appointment;
- the search and specialty filter of the doctor list.

The modules follow the program's structure:
- `Calendar`, `Auth`, `Text`, `Seqs`, `Wrappers`: day numbers and weekdays, callers and
  roles, the JavaScript string and array operations used, and `Option`/`Result`.
- `AppointmentModel`, `DoctorModel`: the two schemas as datatypes, their defaults, the status
  lifecycle and the derived rating.
- `AppointmentRoutes`: a store class, `AppointmentStore`, whose `records` sequence the
  booking and lifecycle handlers extend and update in place, plus the slot query as a function.
- `DoctorRoutes`: a directory class, `DoctorDirectory`, whose `doctors` sequence the profile,
  review and approval handlers update in place, plus the listing and the profile merge as
  functions.
- `BookAppointmentPage`: a class for the booking page's state, with the form check, the wizard
  steps and the submit guard as methods. The fourteen-day date list is a loop method proved
  against a window function.
- `AppointmentsPage`, `DashboardPage`, `DoctorsPage`: the remaining page rules, as functions
  and lemmas.

Representation choices:
- An appointment's id is its position in the store. A doctor's id is its position in the
  directory. Nothing is ever deleted.
- A calendar date is a whole day number. The same key is used to store and to query a booking.
- An absent or empty request string is `""`. An absent id, date or number is `None`.
- Ratings are exact `real`s.
- The `authorize(roles)` middleware is a role-membership check answered with 403 before the
  handler runs.

Three behaviours of the code worth knowing, which the model keeps:
- `POST /book` checks neither that the date falls on one of the doctor's days nor that the
  slot is in the doctor's catalog. `AppointmentStore.Book` does not check them either.
- The slot query does not look at whether the doctor is approved.
- The booking route stores `new Date(date)` but looks bookings up by the date string. The
  two keys need not match. The model uses one day number for both.

## Model

| member | source | states |
|---|---|---|
| AppointmentModel.StepLeavesActive | backend/models/Appointment.js:29-33 | Every lifecycle move starts from pending or confirmed and changes the status. |
| AppointmentModel.ReachesIsClosure | backend/routes/appointmentRoutes.js:191-275 | Reachability is the reflexive-transitive closure of the moves. Pending reaches completed only through confirmed. |
| AppointmentModel.TerminalFrozen | backend/routes/appointmentRoutes.js:204-209 | Under any allowed evolution of the store, a completed or cancelled appointment never changes again. |
| AppointmentModel.EvolvesTransitive | backend/routes/appointmentRoutes.js:191-275 | Two allowed evolutions of the store compose into one: records are only added, and statuses move only along the lifecycle. |
| AppointmentRoutes.CancellerMayView | backend/routes/appointmentRoutes.js:153-159 | Whoever may cancel an appointment (its patient or an admin) may also read it under the `GET /:id` rule. |
| AppointmentRoutes.WithStatus | backend/routes/appointmentRoutes.js:208-209 | Saving a new status changes only that record's status; every other record and the length stay. |
| AppointmentRoutes.AppendKeepsUnique | backend/routes/appointmentRoutes.js:25-47 | Appending an active booking for a slot nobody holds keeps at most one active appointment per doctor, day and slot. |
| AppointmentRoutes.StatusChangeKeepsUnique | backend/routes/appointmentRoutes.js:208-275 | A status change that never turns an inactive appointment active keeps the uniqueness rule. |
| AppointmentRoutes.CancelFreesSlot | backend/routes/appointmentRoutes.js:208-209 | Cancelling the appointment that holds a slot leaves the slot held by nobody. |
| AppointmentRoutes.AppointmentStore.constructor | backend/models/Appointment.js:4-37 | An empty store satisfies the schema and the uniqueness rule. |
| AppointmentRoutes.AppointmentStore.Book | backend/routes/appointmentRoutes.js:9-57 | Checks in order: role 403, missing field 400, missing or unapproved doctor 400, active booking on the slot 400. Each holds exactly under its condition. A failure changes nothing. A success appends one pending record with the caller as patient, notes defaulting to "", and returns its id. The invariant holds and the store evolves only along the lifecycle. |
| AppointmentRoutes.AppointmentStore.Cancel | backend/routes/appointmentRoutes.js:187-216 | Checks in order: unknown id 404; neither the patient nor an admin 403; completed or cancelled 400, carrying that status. Each holds exactly under its condition. Otherwise only that record becomes cancelled. |
| AppointmentRoutes.AppointmentStore.Confirm | backend/routes/appointmentRoutes.js:219-249 | Checks in order: role 403, unknown id 404, a doctor who does not own the appointment 403 (an admin is let through), status other than pending 400. Otherwise only that record becomes confirmed. |
| AppointmentRoutes.AppointmentStore.Complete | backend/routes/appointmentRoutes.js:252-282 | The same checks as confirm, but only from confirmed. Otherwise only that record becomes completed. |
| AppointmentRoutes.BookedSlots | backend/routes/appointmentRoutes.js:308-316 | A slot is in the booked list exactly when an active appointment of that doctor on that day holds it. |
| AppointmentRoutes.AvailableSlots | backend/routes/appointmentRoutes.js:285-329 | Unknown doctor 404. On a weekday outside the doctor's days: unavailable, with no slots. Otherwise: available, a subsequence of the catalog in catalog order. It holds exactly the catalog slots no active booking holds that day, each as often as the catalog lists it. |
| AppointmentRoutes.BookedSlotLeavesQuery | backend/routes/appointmentRoutes.js:37-47 | After an active booking is added, its slot is no longer offered for that doctor and day. |
| AppointmentRoutes.CancelReopensQuery | backend/routes/appointmentRoutes.js:208-319 | Cancelling the booking of a catalog slot on an available day offers that slot again. |
| DoctorModel.NewDoctor | backend/models/Doctor.js:38-68 | A new doctor starts unapproved, rated 0 and without reviews, so its rating agrees with its reviews. |
| DoctorModel.SumRatings | backend/routes/doctorRoutes.js:126 | The `reduce` over the reviews: a left fold adding each rating to a running total that starts at 0. Defined without its own contract; its bounds are in `SumRatingsBounds`. |
| DoctorModel.SumRatingsBounds | backend/routes/doctorRoutes.js:126 | Ratings within [lo, hi] sum to between n·lo and n·hi. |
| DoctorModel.MeanRatingBounds | backend/routes/doctorRoutes.js:126-127 | The mean rating of reviews rated within [lo, hi] lies within [lo, hi]. |
| DoctorModel.MeanAfterAppend | backend/routes/doctorRoutes.js:119-127 | Recomputing the mean after one more review equals the incremental update (mean·n + rating)/(n + 1). |
| DoctorModel.HasReviewed | backend/routes/doctorRoutes.js:110-112 | The `find` of a review by the same patient: some review of the doctor carries that patient id. A definition, used in the contract of `AddReview`. |
| DoctorModel.ProfileOf | backend/routes/doctorRoutes.js:74 | `findOne({ userId })` finds the first profile belonging to the user, or says that none does. |
| DoctorRoutes.ApprovedIds | backend/routes/doctorRoutes.js:8-33 | The listing holds exactly the approved doctors, each once, in directory order. |
| DoctorRoutes.ParseQualifications | backend/routes/doctorRoutes.js:83 | `split(',')` then `trim` of each piece. A definition; what it yields is stated by `ParseQualificationsShape`. |
| DoctorRoutes.ParseQualificationsShape | backend/routes/doctorRoutes.js:83 | The parsed qualifications have one entry per comma-separated piece, one more than the commas. Each entry is its piece trimmed, with no comma and no white space at either end. |
| DoctorRoutes.MergeProfile | backend/routes/doctorRoutes.js:81-87 | The merge never touches the owner, approval, rating, reviews or portrait. |
| DoctorRoutes.MergeTakesSupplied | backend/routes/doctorRoutes.js:81-87 | A truthy supplied value replaces the stored field. Qualifications are parsed from the comma-separated string. |
| DoctorRoutes.MergeKeepsUnsupplied | backend/routes/doctorRoutes.js:81-87 | A falsy value ("", 0, absent) keeps the stored field, so an experience or fee of 0 cannot be set. |
| DoctorRoutes.EmptyUpdateKeepsProfile | backend/routes/doctorRoutes.js:81-87 | An update that supplies nothing leaves the profile unchanged. |
| DoctorRoutes.MergeIdempotent | backend/routes/doctorRoutes.js:81-87 | Applying the same update twice gives what applying it once gives. |
| DoctorRoutes.MergeKeepsInvariants | backend/routes/doctorRoutes.js:81-89 | The merge keeps the required strings non-empty and the rating derived from the reviews. |
| DoctorRoutes.ApplyUpdate | backend/routes/doctorRoutes.js:81-87 | The field-by-field assignments produce the merged profile. |
| DoctorRoutes.DoctorDirectory.constructor | backend/models/Doctor.js:3-68 | An empty directory satisfies the schema and rating invariant. |
| DoctorRoutes.DoctorDirectory.Register | backend/models/Doctor.js:3-68 | Saving a new doctor fails and changes nothing when specialization or bio is empty. Otherwise it appends the doctor with the schema's defaults. |
| DoctorRoutes.DoctorDirectory.UpdateProfile | backend/routes/doctorRoutes.js:69-96 | Role 403, then no profile of the caller 404. Otherwise the caller's first profile, and only it, becomes the merge of the stored profile and the update. |
| DoctorRoutes.DoctorDirectory.AddReview | backend/routes/doctorRoutes.js:99-136 | Checks in order: role 403, unknown doctor 404, a patient who already reviewed 400, a missing rating refused by the schema. Each holds exactly under its condition, and the review succeeds exactly when all checks pass. A failure changes nothing. A success appends exactly one review with the caller, rating and comment, and the rating becomes the sum over the count. Only that doctor changes. |
| DoctorRoutes.DoctorDirectory.Approve | backend/routes/doctorRoutes.js:152-168 | Role 403, unknown id 404. Otherwise the doctor is approved and nothing else changes. Approving an approved doctor changes nothing. |
| Calendar.WeekdayOf | backend/routes/appointmentRoutes.js:297 | The weekday of a date is determined by its day number modulo 7, with 1970-01-01 a Thursday. |
| Calendar.WeekdayPeriodic | frontend/doctor-appointment/src/pages/BookAppointment.jsx:132-142 | A date and the date seven days later fall on the same weekday. |
| Calendar.WeekdaysDistinct | frontend/doctor-appointment/src/pages/BookAppointment.jsx:132-142 | Seven consecutive dates fall on seven different weekdays. |
| Calendar.NextOn | frontend/doctor-appointment/src/pages/BookAppointment.jsx:132-142 | Among any seven consecutive days there is one falling on a given weekday. |
| Calendar.FortnightOn | frontend/doctor-appointment/src/pages/BookAppointment.jsx:132-142 | Among fourteen consecutive days, exactly two fall on a given weekday, one week apart. |
| Text.LowerChar | frontend/doctor-appointment/src/pages/Doctors.jsx:105-106 | Lower-casing maps A–Z to a–z and keeps every other character. |
| Text.Lower | frontend/doctor-appointment/src/pages/Doctors.jsx:105-106 | Lower-casing a string keeps its length and lower-cases each character in place. |
| Text.LowerIdempotent | frontend/doctor-appointment/src/pages/Doctors.jsx:105-106 | Lower-casing twice is lower-casing once. |
| Text.Contains | frontend/doctor-appointment/src/pages/Doctors.jsx:105-106 | `includes`: the term is found only in a string at least as long as it, and the empty term is found in every string. |
| Text.ContainsAt | frontend/doctor-appointment/src/pages/Doctors.jsx:105-106 | `includes` holds exactly when the term occurs at some position; the two directions are the next two lemmas. |
| Text.ContainsOccurs | frontend/doctor-appointment/src/pages/Doctors.jsx:105-106 | When `includes` holds, the term occurs at some position. |
| Text.OccursContains | frontend/doctor-appointment/src/pages/Doctors.jsx:105-106 | An occurrence of the term at any position makes `includes` hold. |
| Text.TrimStart | backend/routes/doctorRoutes.js:83 | Trimming the front drops exactly a white-space prefix and leaves no leading white space. |
| Text.TrimEnd | backend/routes/doctorRoutes.js:83 | Trimming the end drops exactly a white-space suffix and leaves no trailing white space. |
| Text.Trim | backend/routes/doctorRoutes.js:83 | `trim` yields at most the input, and the result neither starts nor ends with white space. |
| Text.TrimSlice | backend/routes/doctorRoutes.js:83 | The trimmed string is the block of the input that starts after its leading white space. Everything before and after that block is white space. |
| Text.Split | backend/routes/doctorRoutes.js:83 | `split` yields at least one piece, and no piece contains the separator. |
| Text.SplitJoin | backend/routes/doctorRoutes.js:83 | Joining the pieces with the separator gives back the input. |
| Text.SplitCount | backend/routes/doctorRoutes.js:83 | There is one more piece than separators in the input. |
| Seqs.Filter | frontend/doctor-appointment/src/pages/Appointments.jsx:110-122 | `filter` keeps exactly the elements that pass, and every kept element passes. |
| Seqs.FilterIsSubsequence | frontend/doctor-appointment/src/pages/Appointments.jsx:110-122 | `filter` yields an order-preserving subsequence of its input. |
| Seqs.FilterMultiplicity | frontend/doctor-appointment/src/pages/Appointments.jsx:110-122 | `filter` keeps every copy of an element that passes and none of one that fails. |
| Seqs.FilterAll | frontend/doctor-appointment/src/pages/Appointments.jsx:121 | When every element passes, `filter` returns the whole sequence. |
| Seqs.FilterCongruent | frontend/doctor-appointment/src/pages/Doctors.jsx:104-109 | Filters whose predicates agree on every element give the same result. |
| Seqs.MapSeq | backend/routes/appointmentRoutes.js:316 | `map` keeps the length and applies the function at each position. |
| Seqs.Dedup | frontend/doctor-appointment/src/pages/Doctors.jsx:84 | `[...new Set(xs)]` holds exactly the elements of `xs`, none twice. |
| Seqs.DedupFirstOccurrenceOrder | frontend/doctor-appointment/src/pages/Doctors.jsx:84 | The distinct elements come in the order of their first occurrences. |
| BookAppointmentPage.BookingPage.constructor | frontend/doctor-appointment/src/pages/BookAppointment.jsx:10-21 | The page starts at step 1 with an empty form and no errors, not submitting. |
| BookAppointmentPage.BookingPage.ValidateForm | frontend/doctor-appointment/src/pages/BookAppointment.jsx:57-66 | The errors then match the form: an error key for exactly the empty fields among date, time and reason, each with its message. The result is true exactly when there are no errors, i.e. when the form is complete. |
| BookAppointmentPage.BookingPage.NoErrorsIffComplete | frontend/doctor-appointment/src/pages/BookAppointment.jsx:64-65 | When the errors match the form, there are none exactly when date, time and reason are all filled in. |
| BookAppointmentPage.BookingPage.HandleNextStep | frontend/doctor-appointment/src/pages/BookAppointment.jsx:68-73 | Moves to step 2 exactly when the form is complete; otherwise the step stays. The errors shown afterwards match the form field by field, with their messages. |
| BookAppointmentPage.BookingPage.HandlePreviousStep | frontend/doctor-appointment/src/pages/BookAppointment.jsx:75-78 | Always goes back to step 1. |
| BookAppointmentPage.BookingPage.HandleBooking | frontend/doctor-appointment/src/pages/BookAppointment.jsx:80-119 | An incomplete form stops at the guard, with the flags unchanged and the errors matching the form field by field. A complete one is submitted and ends in success, no longer submitting, with no errors. |
| BookAppointmentPage.WeekdayKeyIsLower | frontend/doctor-appointment/src/pages/BookAppointment.jsx:136 | The lower-cased long weekday name is the lower-case key the page compares. |
| BookAppointmentPage.WindowSpec | frontend/doctor-appointment/src/pages/BookAppointment.jsx:132-142 | The window of n days from today holds at most n days, strictly ascending, all within the window. A day of the window is in it exactly when it passes the test. It is empty when no day passes. |
| BookAppointmentPage.WindowInRange | frontend/doctor-appointment/src/pages/BookAppointment.jsx:132-142 | The window of n days holds at most n days, all between today and n days later. |
| BookAppointmentPage.WindowAscending | frontend/doctor-appointment/src/pages/BookAppointment.jsx:132-142 | The days of the window come in strictly ascending order. |
| BookAppointmentPage.WindowMembers | frontend/doctor-appointment/src/pages/BookAppointment.jsx:132-142 | A day of the window is listed exactly when it passes the test, and no day outside the window is listed. |
| BookAppointmentPage.WindowEmpty | frontend/doctor-appointment/src/pages/BookAppointment.jsx:132-142 | When no day passes the test, nothing is listed. |
| BookAppointmentPage.DayName | frontend/doctor-appointment/src/pages/BookAppointment.jsx:136 | The day's name is the lower-cased weekday name of that date. |
| BookAppointmentPage.DatesAmong | frontend/doctor-appointment/src/pages/BookAppointment.jsx:132-142 | The loop keeps, in order, the days among today and the 13 following whose weekday name is among the keys. |
| BookAppointmentPage.DatesRepeatWeekly | frontend/doctor-appointment/src/pages/BookAppointment.jsx:132-142 | Within the fourteen-day list, a date of the first week is offered exactly when the same weekday of the second week is. |
| BookAppointmentPage.OfferedWeekdayTwice | frontend/doctor-appointment/src/pages/BookAppointment.jsx:132-142 | Each weekday the doctor offers appears on exactly two dates of the list, one week apart, and on no other. |
| BookAppointmentPage.GetAvailableDates | frontend/doctor-appointment/src/pages/BookAppointment.jsx:127-145 | At most 14 dates, strictly ascending, from offsets 0..13. A date of the window is returned exactly when its weekday is, ignoring case, in the doctor's availability. No doctor or an empty availability gives no dates. |
| AppointmentsPage.FilteredAppointments | frontend/doctor-appointment/src/pages/Appointments.jsx:110-122 | The tab's list is an order-preserving subsequence of the appointments, holding exactly those on the tab, each as often as it appears in the appointments. |
| AppointmentsPage.TabContents | frontend/doctor-appointment/src/pages/Appointments.jsx:113-121 | Upcoming: exactly the confirmed entries not before now, the instant the page filters at. Past: before now or completed. Cancelled: the cancelled ones. Any other tab: every entry, in order. |
| AppointmentsPage.UpcomingCancelledDisjoint | frontend/doctor-appointment/src/pages/Appointments.jsx:115-119 | No entry is on both the upcoming and the cancelled tab. |
| AppointmentsPage.CancelLocally | frontend/doctor-appointment/src/pages/Appointments.jsx:97-101 | The local cancel keeps the length, order and every other entry. The entry with the id becomes cancelled with all else kept. |
| AppointmentsPage.CancelLocallyMovesTabs | frontend/doctor-appointment/src/pages/Appointments.jsx:97-101 | After the local cancel, the cancelled entry no longer offers the Cancel action. It leaves the upcoming tab and is on the cancelled tab. Cancelling again changes nothing. |
| AppointmentsPage.OffersCancel | frontend/doctor-appointment/src/pages/Appointments.jsx:250 | The Cancel action shows only on confirmed appointments, so only on ones the backend's cancel accepts (active ones). |
| AppointmentsPage.StatusLabelAsWritten | frontend/doctor-appointment/src/pages/Appointments.jsx:245-246 | As written, the badge has only three labels for four statuses, and it reads "Cancelled" exactly for pending and cancelled appointments. |
| AppointmentsPage.PendingShownAsCancelled | frontend/doctor-appointment/src/pages/Appointments.jsx:245-246 | As written, a pending appointment gets the "Cancelled" badge, the same as a cancelled one. |
| AppointmentsPage.StatusLabel | frontend/doctor-appointment/src/pages/Appointments.jsx:245-246 | The corrected badge agrees with the page on confirmed, completed and cancelled. |
| AppointmentsPage.StatusLabelInjective | frontend/doctor-appointment/src/pages/Appointments.jsx:245-246 | The corrected badge tells all four statuses apart. |
| DashboardPage.Insert | frontend/doctor-appointment/src/pages/Dashboard.jsx:149 | One insertion step of the sort adds exactly the element, as a multiset, with the length one larger. |
| DashboardPage.InsertSorted | frontend/doctor-appointment/src/pages/Dashboard.jsx:149 | Inserting into a date-sorted sequence keeps it sorted. |
| DashboardPage.SortByDate | frontend/doctor-appointment/src/pages/Dashboard.jsx:149 | The sort by date returns a date-ordered permutation of its input. |
| DashboardPage.FirstEarliest | frontend/doctor-appointment/src/pages/Dashboard.jsx:149-150 | Finds the first of the earliest entries. |
| DashboardPage.SortHeadIsFirstEarliest | frontend/doctor-appointment/src/pages/Dashboard.jsx:149-150 | The head of the stable sort is the first of the earliest entries. |
| DashboardPage.FilterEarliest | frontend/doctor-appointment/src/pages/Dashboard.jsx:147-150 | The first earliest of the filtered entries is the first earliest among the passing entries of the whole list. |
| DashboardPage.NextUpcoming | frontend/doctor-appointment/src/pages/Dashboard.jsx:144-153 | With no confirmed appointment, or none at all, the pick stays as it was. Otherwise it is a confirmed appointment of the list that no confirmed one precedes in date, and the first in list order among equally early ones. |
| DashboardPage.NextUpcomingDetermined | frontend/doctor-appointment/src/pages/Dashboard.jsx:144-153 | The first of the earliest confirmed appointments is always the pick. |
| DoctorsPage.Specialties | frontend/doctor-appointment/src/pages/Doctors.jsx:84 | The specialty choices are exactly the specializations of the given doctor list, none twice. The page builds them from its mock doctor list, which is also the list it loads. |
| DoctorsPage.SpecialtiesInFirstAppearanceOrder | frontend/doctor-appointment/src/pages/Doctors.jsx:84 | The choices come in the order in which each specialization first appears. |
| DoctorsPage.FilteredDoctors | frontend/doctor-appointment/src/pages/Doctors.jsx:104-109 | The list is an order-preserving subsequence of the doctors, holding exactly those matching the search and the specialty, each as often as it appears in the doctors. |
| DoctorsPage.NoFilterListsAll | frontend/doctor-appointment/src/pages/Doctors.jsx:104-109 | An empty search with no specialty chosen lists every doctor, in order. |
| DoctorsPage.ShownDoctorsMatch | frontend/doctor-appointment/src/pages/Doctors.jsx:105-107 | A listed doctor has the lower-cased term somewhere in its lower-cased name or specialization. When a specialty is chosen, it has exactly that specialization. |
| DoctorsPage.SearchIgnoresCase | frontend/doctor-appointment/src/pages/Doctors.jsx:105-106 | Searching for the lower-cased term lists the same doctors as the term itself. |
| DoctorsPage.SpecialtyNarrows | frontend/doctor-appointment/src/pages/Doctors.jsx:107 | Choosing a specialty only removes doctors from a search's list. |

## Left out

- The check-then-insert race in booking: two concurrent bookings of a free slot can both pass the conflict check. Each handler is one sequential step in the model.
- Express, Mongoose and the database: request parsing, `populate` joins, `findById` and `save`, and the formatting and sorting of the list responses. This includes `GET /` of appointments, `GET /:id` beyond its access rule (`AppointmentRoutes.MayView`), `GET /:id` of a doctor and `GET /admin/all`, which only return stored documents.
- Server errors (500 and the catch blocks): an unparsable date, a malformed id, a database failure.
- Dates and time: the locale and time-zone handling of `toLocaleDateString` and `toISOString`. A date is a day number with a computed weekday. The clock is a `now` or `today` parameter.
- `Text.Lower`: lower-cases the ASCII letters only, not the rest of Unicode.
- Floating-point arithmetic: ratings, fees and the rating mean are exact `real`s.
- The authentication middleware and the user model are not part of this model. A caller is a user id and a role.
- `DoctorRoutes.DoctorDirectory.Register`: models only the schema's validation and defaults on saving a new doctor. The registration route that creates doctor documents is not part of this model.
- `backend/modules/Appointment.js`: an older duplicate schema that the routes do not use.
- The frontend's HTTP calls, timers, simulated delays, navigation, scrolling and rendering. `HandleBooking`'s submission always succeeds because the page simulates it, so its catch path is not modelled.
- `DashboardPage.SortByDate`: the source sorts a copy so that the list itself keeps its order. In a model on values that holds by construction and is not stated separately.
- `DashboardPage.NextUpcoming`: the sort is assumed stable, as `Array.prototype.sort` is required to be.

## Findings

| source | as written | input that shows it | evidently intended | confidence | as-written member | corrected member |
|---|---|---|---|---|---|---|
| frontend/doctor-appointment/src/pages/Appointments.jsx:245-246 | The badge shows "Confirmed" or "Completed" and otherwise "Cancelled". | A pending appointment whose date has passed is listed on the Past tab with the "Cancelled" badge. | Each of the four statuses has its own label; a pending appointment reads "Pending". | medium, not executed | AppointmentsPage.PendingShownAsCancelled | AppointmentsPage.StatusLabelInjective |
