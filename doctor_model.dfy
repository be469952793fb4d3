/** The doctor record of the Mongoose doctor schema, its embedded reviews, its defaults and the
    rating derived from the reviews. */
module DoctorModel {
  import opened Wrappers
  import opened Calendar
  import opened Auth

  /** A doctor's id: its position in the directory. */
  type DoctorId = nat

  datatype Review = Review(patientId: UserId, rating: real, comment: Option<string>, date: int)

  datatype Doctor = Doctor(
    userId: UserId,
    specialization: string,
    experience: int,
    qualifications: seq<string>,
    bio: string,
    consultationFee: real,
    availableDays: seq<Weekday>,
    availableTimeSlots: seq<string>,
    approved: bool,
    rating: real,
    reviews: seq<Review>,
    profileImage: string)
  {
    /** What the schema's `required` string fields accept: present and non-empty. */
    predicate SchemaValid() {
      specialization != "" && bio != ""
    }
  }

  const DefaultProfileImage: string := "https://randomuser.me/api/portraits/men/1.jpg"

  /** A doctor as the schema creates it from the required fields: not approved, rated 0, with no
      reviews and the default portrait. */
  function NewDoctor(userId: UserId, specialization: string, experience: int, qualifications: seq<string>,
                     bio: string, consultationFee: real, availableDays: seq<Weekday>,
                     availableTimeSlots: seq<string>): (d: Doctor)
    ensures !d.approved && d.rating == 0.0 && d.reviews == []
    ensures RatingConsistent(d)
  {
    Doctor(userId, specialization, experience, qualifications, bio, consultationFee,
           availableDays, availableTimeSlots, false, 0.0, [], DefaultProfileImage)
  }

  /** `reviews.reduce((sum, review) => sum + review.rating, 0)`: a left fold. */
  function SumRatings(reviews: seq<Review>): real {
    if reviews == [] then 0.0 else SumRatings(reviews[..|reviews| - 1]) + reviews[|reviews| - 1].rating
  }

  /** The arithmetic mean of the review ratings. */
  function MeanRating(reviews: seq<Review>): real
    requires reviews != []
  {
    SumRatings(reviews) / (|reviews| as real)
  }

  /** `rating` is derived from `reviews`: their mean, or the default 0 before the first review. */
  predicate RatingConsistent(d: Doctor) {
    if d.reviews == [] then d.rating == 0.0 else d.rating == MeanRating(d.reviews)
  }

  /** The patient has already reviewed the doctor (`reviews.find(...)` returns a review). */
  predicate HasReviewed(d: Doctor, patient: UserId) {
    exists i | 0 <= i < |d.reviews| :: d.reviews[i].patientId == patient
  }

  /** Ratings within bounds sum to a total within the bounds scaled by the count. */
  lemma {:induction false} SumRatingsBounds(reviews: seq<Review>, lo: real, hi: real)
    requires forall i :: 0 <= i < |reviews| ==> lo <= reviews[i].rating <= hi
    ensures (|reviews| as real) * lo <= SumRatings(reviews) <= (|reviews| as real) * hi
  {
    if reviews != [] {
      SumRatingsBounds(reviews[..|reviews| - 1], lo, hi);
    }
  }

  /** The mean of ratings that all lie in [lo, hi] lies in [lo, hi]; so with ratings from 1 to 5
      the stored rating is between 1 and 5. */
  lemma MeanRatingBounds(reviews: seq<Review>, lo: real, hi: real)
    requires reviews != []
    requires forall i :: 0 <= i < |reviews| ==> lo <= reviews[i].rating <= hi
    ensures lo <= MeanRating(reviews) <= hi
  {
    SumRatingsBounds(reviews, lo, hi);
    var n := |reviews| as real;
    assert n > 0.0;
    assert lo == (n * lo) / n;
    assert hi == (n * hi) / n;
  }

  /** Appending one review moves the mean as an incremental update would:
      the new mean is (old mean * n + rating) / (n + 1). */
  lemma MeanAfterAppend(reviews: seq<Review>, r: Review)
    requires reviews != []
    ensures MeanRating(reviews + [r]) ==
      (MeanRating(reviews) * (|reviews| as real) + r.rating) / ((|reviews| + 1) as real)
  {
    var all := reviews + [r];
    assert all[..|all| - 1] == reviews;
    var n := |reviews| as real;
    assert MeanRating(reviews) * n == SumRatings(reviews);
  }

  /** `Doctor.findOne({ userId })`: the first doctor, in directory order, whose profile belongs
      to the user. */
  function ProfileOf(doctors: seq<Doctor>, user: UserId): (r: Option<DoctorId>)
    ensures r.Some? ==> r.value < |doctors| && doctors[r.value].userId == user
    ensures r.Some? ==> forall j :: 0 <= j < r.value ==> doctors[j].userId != user
    ensures r.None? ==> forall j :: 0 <= j < |doctors| ==> doctors[j].userId != user
  {
    ProfileFrom(doctors, user, 0)
  }

  function ProfileFrom(doctors: seq<Doctor>, user: UserId, k: nat): (r: Option<DoctorId>)
    requires k <= |doctors|
    requires forall j :: 0 <= j < k ==> doctors[j].userId != user
    ensures r.Some? ==> k <= r.value < |doctors| && doctors[r.value].userId == user
    ensures r.Some? ==> forall j :: 0 <= j < r.value ==> doctors[j].userId != user
    ensures r.None? ==> forall j :: 0 <= j < |doctors| ==> doctors[j].userId != user
    decreases |doctors| - k
  {
    if k == |doctors| then None
    else if doctors[k].userId == user then Some(k)
    else ProfileFrom(doctors, user, k + 1)
  }
}
