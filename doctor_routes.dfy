/** The doctor routes: the public listing of approved doctors, a doctor's profile update, a
    patient's review, and an admin's approval. The doctor collection is a directory object whose
    `doctors` sequence the handlers update in place. */
module DoctorRoutes {
  import opened Wrappers
  import opened Calendar
  import opened Auth
  import opened DoctorModel
  import opened Seqs
  import opened Text

  /** The error responses of the doctor routes. */
  datatype Error =
    | Forbidden         // 403: role refused by `authorize`
    | NotFound          // 404 'Doctor not found'
    | ProfileNotFound   // 404 'Doctor profile not found'
    | AlreadyReviewed   // 400 'You have already reviewed this doctor'
    | ValidationFailed  // 500: the schema refuses the document on save, nothing is written

  /** `GET /`: the ids of the approved doctors, in directory order. */
  function ApprovedIds(doctors: seq<Doctor>): (r: seq<DoctorId>)
    ensures forall k :: 0 <= k < |r| ==> r[k] < |doctors| && doctors[r[k]].approved
    ensures forall i :: 0 <= i < |doctors| && doctors[i].approved ==> i in r
    ensures forall k, l :: 0 <= k < l < |r| ==> r[k] < r[l]
  {
    ApprovedFrom(doctors, 0)
  }

  function ApprovedFrom(doctors: seq<Doctor>, k: nat): (r: seq<DoctorId>)
    requires k <= |doctors|
    ensures forall m :: 0 <= m < |r| ==> k <= r[m] < |doctors| && doctors[r[m]].approved
    ensures forall i :: k <= i < |doctors| && doctors[i].approved ==> i in r
    ensures forall m, l :: 0 <= m < l < |r| ==> r[m] < r[l]
    decreases |doctors| - k
  {
    if k == |doctors| then []
    else
      var rest := ApprovedFrom(doctors, k + 1);
      if doctors[k].approved then [k] + rest else rest
  }

  /** The body of `PUT /profile`. An absent or empty string is `""`; an absent number or array is
      `None`. */
  datatype ProfileUpdate = ProfileUpdate(
    specialization: string,
    experience: Option<int>,
    qualifications: string,
    bio: string,
    consultationFee: Option<real>,
    availableDays: Option<seq<Weekday>>,
    availableTimeSlots: Option<seq<string>>)

  /** JavaScript truthiness of a number: present and not 0. */
  predicate Supplied<T(==)>(v: Option<T>, zero: T) {
    v.Some? && v.value != zero
  }

  /** `qualifications.split(',').map(qual => qual.trim())`. */
  function ParseQualifications(q: string): seq<string> {
    MapSeq(Split(q, ','), Trim)
  }

  /** The parsed qualifications: one entry per comma-separated piece, the piece trimmed, one more
      entry than the commas in the input, no comma in any entry and no white space at either end
      of one. */
  lemma ParseQualificationsShape(q: string)
    ensures var r := ParseQualifications(q);
      && |r| == |Split(q, ',')| == multiset(q)[','] + 1
      && (forall i :: 0 <= i < |r| ==> r[i] == Trim(Split(q, ',')[i]))
      && (forall i :: 0 <= i < |r| ==> ',' !in r[i])
      && (forall i :: 0 <= i < |r| && r[i] != [] ==> !IsSpace(r[i][0]) && !IsSpace(r[i][|r[i]| - 1]))
  {
    var pieces := Split(q, ',');
    SplitCount(q, ',');
    var r := ParseQualifications(q);
    forall i | 0 <= i < |r| ensures ',' !in r[i] {
      var p := pieces[i];
      TrimSlice(p);
      var a, b := Leading(p), Leading(p) + |Trim(p)|;
      assert r[i] == p[a..b];
      assert forall c :: c in p[a..b] ==> c in p;
    }
  }

  /** The field-by-field merge of `PUT /profile`: each field takes the supplied value when it is
      truthy and keeps the stored one otherwise. The two arrays count as supplied whenever
      present (an empty array is truthy); qualifications are parsed from the comma-separated
      string. Identity, approval, rating and reviews never change. */
  function MergeProfile(d: Doctor, u: ProfileUpdate): (r: Doctor)
    ensures r.userId == d.userId && r.approved == d.approved && r.rating == d.rating
    ensures r.reviews == d.reviews && r.profileImage == d.profileImage
  {
    d.(specialization := if u.specialization != "" then u.specialization else d.specialization,
       experience := if Supplied(u.experience, 0) then u.experience.value else d.experience,
       qualifications := if u.qualifications != "" then ParseQualifications(u.qualifications) else d.qualifications,
       bio := if u.bio != "" then u.bio else d.bio,
       consultationFee := if Supplied(u.consultationFee, 0.0) then u.consultationFee.value else d.consultationFee,
       availableDays := if u.availableDays.Some? then u.availableDays.value else d.availableDays,
       availableTimeSlots := if u.availableTimeSlots.Some? then u.availableTimeSlots.value else d.availableTimeSlots)
  }

  /** A supplied value replaces the stored one: a non-empty string, a non-zero number, any array
      (even an empty one), and the parsed qualifications. */
  lemma MergeTakesSupplied(d: Doctor, u: ProfileUpdate)
    ensures u.specialization != "" ==> MergeProfile(d, u).specialization == u.specialization
    ensures Supplied(u.experience, 0) ==> MergeProfile(d, u).experience == u.experience.value
    ensures u.qualifications != "" ==> MergeProfile(d, u).qualifications == ParseQualifications(u.qualifications)
    ensures u.bio != "" ==> MergeProfile(d, u).bio == u.bio
    ensures Supplied(u.consultationFee, 0.0) ==> MergeProfile(d, u).consultationFee == u.consultationFee.value
    ensures u.availableDays.Some? ==> MergeProfile(d, u).availableDays == u.availableDays.value
    ensures u.availableTimeSlots.Some? ==> MergeProfile(d, u).availableTimeSlots == u.availableTimeSlots.value
  {
  }

  /** A falsy value keeps the stored one; in particular an experience or fee of 0 cannot be set. */
  lemma MergeKeepsUnsupplied(d: Doctor, u: ProfileUpdate)
    ensures u.specialization == "" ==> MergeProfile(d, u).specialization == d.specialization
    ensures !Supplied(u.experience, 0) ==> MergeProfile(d, u).experience == d.experience
    ensures u.qualifications == "" ==> MergeProfile(d, u).qualifications == d.qualifications
    ensures u.bio == "" ==> MergeProfile(d, u).bio == d.bio
    ensures !Supplied(u.consultationFee, 0.0) ==> MergeProfile(d, u).consultationFee == d.consultationFee
    ensures u.availableDays.None? ==> MergeProfile(d, u).availableDays == d.availableDays
    ensures u.availableTimeSlots.None? ==> MergeProfile(d, u).availableTimeSlots == d.availableTimeSlots
  {
  }

  /** An update that supplies nothing leaves the profile as it was. */
  lemma EmptyUpdateKeepsProfile(d: Doctor)
    ensures MergeProfile(d, ProfileUpdate("", None, "", "", None, None, None)) == d
  {
  }

  /** Applying the same update twice is the same as applying it once. */
  lemma MergeIdempotent(d: Doctor, u: ProfileUpdate)
    ensures MergeProfile(MergeProfile(d, u), u) == MergeProfile(d, u)
  {
  }

  /** The merge never empties a required string field, and it keeps the rating derived from the
      reviews. */
  lemma MergeKeepsInvariants(d: Doctor, u: ProfileUpdate)
    requires d.SchemaValid() && RatingConsistent(d)
    ensures MergeProfile(d, u).SchemaValid() && RatingConsistent(MergeProfile(d, u))
  {
  }

  /** The statements of `PUT /profile` that copy the supplied fields onto the stored document,
      one field after the other. */
  method ApplyUpdate(d: Doctor, u: ProfileUpdate) returns (doctor: Doctor)
    ensures doctor == MergeProfile(d, u)
  {
    doctor := d;
    doctor := doctor.(specialization := if u.specialization != "" then u.specialization else doctor.specialization);
    doctor := doctor.(experience := if Supplied(u.experience, 0) then u.experience.value else doctor.experience);
    doctor := doctor.(qualifications :=
      if u.qualifications != "" then ParseQualifications(u.qualifications) else doctor.qualifications);
    doctor := doctor.(bio := if u.bio != "" then u.bio else doctor.bio);
    doctor := doctor.(consultationFee :=
      if Supplied(u.consultationFee, 0.0) then u.consultationFee.value else doctor.consultationFee);
    doctor := doctor.(availableDays := u.availableDays.GetOr(doctor.availableDays));
    doctor := doctor.(availableTimeSlots := u.availableTimeSlots.GetOr(doctor.availableTimeSlots));
    MergeTakesSupplied(d, u);
    MergeKeepsUnsupplied(d, u);
  }

  /** The doctor collection. A doctor's id is its position in `doctors`. */
  class DoctorDirectory {
    var doctors: seq<Doctor>

    /** Every stored doctor satisfies the schema, and its rating is the mean of its reviews. */
    ghost predicate Valid()
      reads this
    {
      forall i :: 0 <= i < |doctors| ==> doctors[i].SchemaValid() && RatingConsistent(doctors[i])
    }

    constructor ()
      ensures Valid() && doctors == []
    {
      doctors := [];
    }

    /** Saving a new doctor document: the schema refuses an empty specialization or bio and fills
        in its defaults. */
    method Register(userId: UserId, specialization: string, experience: int, qualifications: seq<string>,
                    bio: string, consultationFee: real, availableDays: seq<Weekday>,
                    availableTimeSlots: seq<string>) returns (r: Result<DoctorId, Error>)
      requires Valid()
      modifies this
      ensures Valid()
      ensures r.Failure? <==> specialization == "" || bio == ""
      ensures r.Failure? ==> r.error == ValidationFailed && doctors == old(doctors)
      ensures r.Success? ==> r.value == |old(doctors)|
      ensures r.Success? ==>
        doctors == old(doctors) + [NewDoctor(userId, specialization, experience, qualifications, bio,
                                             consultationFee, availableDays, availableTimeSlots)]
    {
      if specialization == "" || bio == "" {
        return Failure(ValidationFailed);
      }
      r := Success(|doctors|);
      doctors := doctors + [NewDoctor(userId, specialization, experience, qualifications, bio,
                                      consultationFee, availableDays, availableTimeSlots)];
    }

    /** `PUT /profile` by `caller`: the caller's own profile (the first whose `userId` is the
        caller's) gets the merged fields. */
    method UpdateProfile(caller: Actor, u: ProfileUpdate) returns (r: Result<DoctorId, Error>)
      requires Valid()
      modifies this
      ensures Valid()
      ensures r == Failure(Forbidden) <==> !Authorized(caller, {DoctorRole})
      ensures r == Failure(ProfileNotFound) <==> Authorized(caller, {DoctorRole}) && ProfileOf(old(doctors), caller.id).None?
      ensures r.Success? <==> Authorized(caller, {DoctorRole}) && ProfileOf(old(doctors), caller.id).Some?
      ensures r.Failure? ==> doctors == old(doctors)
      ensures r.Success? ==> ProfileOf(old(doctors), caller.id) == Some(r.value)
      ensures r.Success? ==> doctors == old(doctors)[r.value := MergeProfile(old(doctors)[r.value], u)]
    {
      if !Authorized(caller, {DoctorRole}) {
        return Failure(Forbidden);
      }
      var found := ProfileOf(doctors, caller.id);
      if found.None? {
        return Failure(ProfileNotFound);
      }
      var id := found.value;
      var doctor := ApplyUpdate(doctors[id], u);
      MergeKeepsInvariants(doctors[id], u);
      doctors := doctors[id := doctor];
      r := Success(id);
    }

    /** `POST /:id/reviews` by `caller`, at time `now`. A missing rating makes the schema refuse the
        review on save. */
    method AddReview(caller: Actor, id: nat, rating: Option<real>, comment: Option<string>, now: int)
      returns (r: Result<(), Error>)
      requires Valid()
      modifies this
      ensures Valid()
      ensures r == Failure(Forbidden) <==> !Authorized(caller, {PatientRole})
      ensures r == Failure(NotFound) <==> Authorized(caller, {PatientRole}) && id >= |old(doctors)|
      ensures r == Failure(AlreadyReviewed) <==>
        Authorized(caller, {PatientRole}) && id < |old(doctors)| && HasReviewed(old(doctors)[id], caller.id)
      ensures r == Failure(ValidationFailed) <==>
        Authorized(caller, {PatientRole}) && id < |old(doctors)| && !HasReviewed(old(doctors)[id], caller.id) &&
        rating.None?
      ensures r.Success? <==>
        Authorized(caller, {PatientRole}) && id < |old(doctors)| && !HasReviewed(old(doctors)[id], caller.id) &&
        rating.Some?
      ensures r.Failure? ==> doctors == old(doctors)
      ensures r.Success? ==> rating.Some? && id < |old(doctors)|
      ensures r.Success? ==>
        var reviews := old(doctors)[id].reviews + [Review(caller.id, rating.value, comment, now)];
        doctors == old(doctors)[id := old(doctors)[id].(reviews := reviews, rating := SumRatings(reviews) / (|reviews| as real))]
    {
      if !Authorized(caller, {PatientRole}) {
        return Failure(Forbidden);
      }
      if id >= |doctors| {
        return Failure(NotFound);
      }
      var doctor := doctors[id];
      if HasReviewed(doctor, caller.id) {
        return Failure(AlreadyReviewed);
      }
      if rating.None? {
        return Failure(ValidationFailed);
      }
      doctor := doctor.(reviews := doctor.reviews + [Review(caller.id, rating.value, comment, now)]);
      var totalRating := SumRatings(doctor.reviews);
      doctor := doctor.(rating := totalRating / (|doctor.reviews| as real));
      doctors := doctors[id := doctor];
      r := Success(());
    }

    /** `PUT /admin/approve/:id` by `caller`. Approving an approved doctor changes nothing. */
    method Approve(caller: Actor, id: nat) returns (r: Result<(), Error>)
      requires Valid()
      modifies this
      ensures Valid()
      ensures r == Failure(Forbidden) <==> !Authorized(caller, {AdminRole})
      ensures r == Failure(NotFound) <==> Authorized(caller, {AdminRole}) && id >= |old(doctors)|
      ensures r.Success? <==> Authorized(caller, {AdminRole}) && id < |old(doctors)|
      ensures r.Failure? ==> doctors == old(doctors)
      ensures r.Success? ==> doctors == old(doctors)[id := old(doctors)[id].(approved := true)]
      ensures r.Success? ==> doctors[id].approved
      ensures r.Success? && old(doctors)[id].approved ==> doctors == old(doctors)
    {
      if !Authorized(caller, {AdminRole}) {
        return Failure(Forbidden);
      }
      if id >= |doctors| {
        return Failure(NotFound);
      }
      doctors := doctors[id := doctors[id].(approved := true)];
      r := Success(());
    }
  }
}
