/** The doctor listing page: the specialty choices of the filter drop-down and the list filtered by
    the search box and the chosen specialty. */
module DoctorsPage {
  import opened Seqs
  import opened Text

  /** A doctor as the listing holds it. */
  datatype Listing = Listing(id: string, name: string, specialization: string, experience: int,
                             rating: real, availability: string, bio: string)

  function SpecializationOf(d: Listing): string {
    d.specialization
  }

  /** The drop-down's choices: each specialization once, in the order it first appears. */
  function Specialties(doctors: seq<Listing>): (r: seq<string>)
    ensures forall s :: s in r <==> exists i :: 0 <= i < |doctors| && doctors[i].specialization == s
    ensures forall i, j :: 0 <= i < j < |r| ==> r[i] != r[j]
  {
    var all := MapSeq(doctors, SpecializationOf);
    assert forall s :: s in all <==> exists i :: 0 <= i < |doctors| && doctors[i].specialization == s by {
      forall s | s in all ensures exists i :: 0 <= i < |doctors| && doctors[i].specialization == s {
        var i :| 0 <= i < |all| && all[i] == s;
        assert doctors[i].specialization == s;
      }
    }
    Dedup(all)
  }

  /** The choices come in the order of the specializations' first appearance among the doctors. */
  lemma SpecialtiesInFirstAppearanceOrder(doctors: seq<Listing>)
    ensures var all := MapSeq(doctors, SpecializationOf);
      forall i, j :: 0 <= i < j < |Specialties(doctors)| ==>
        FirstIndex(all, Specialties(doctors)[i]) < FirstIndex(all, Specialties(doctors)[j])
  {
    DedupFirstOccurrenceOrder(MapSeq(doctors, SpecializationOf));
  }

  /** The search box matches, case-insensitively, part of the name or of the specialization. */
  predicate MatchesSearch(d: Listing, searchTerm: string) {
    Contains(Lower(d.name), Lower(searchTerm)) || Contains(Lower(d.specialization), Lower(searchTerm))
  }

  /** No specialty chosen, or exactly the chosen one. */
  predicate MatchesSpecialty(d: Listing, filterSpecialty: string) {
    filterSpecialty == "" || d.specialization == filterSpecialty
  }

  predicate Shown(d: Listing, searchTerm: string, filterSpecialty: string) {
    MatchesSearch(d, searchTerm) && MatchesSpecialty(d, filterSpecialty)
  }

  /** `filteredDoctors`: the doctors matching both the search and the specialty, in list order. */
  function FilteredDoctors(doctors: seq<Listing>, searchTerm: string, filterSpecialty: string): (r: seq<Listing>)
    ensures IsSubsequence(r, doctors)
    ensures forall d :: d in r <==> d in doctors && MatchesSearch(d, searchTerm) && MatchesSpecialty(d, filterSpecialty)
    ensures forall d :: multiset(r)[d] == if Shown(d, searchTerm, filterSpecialty) then multiset(doctors)[d] else 0
  {
    FilterIsSubsequence(doctors, (d: Listing) => Shown(d, searchTerm, filterSpecialty));
    FilterMultiplicity(doctors, (d: Listing) => Shown(d, searchTerm, filterSpecialty));
    Filter(doctors, (d: Listing) => Shown(d, searchTerm, filterSpecialty))
  }

  /** With an empty search and no specialty chosen, every doctor is listed, in order. */
  lemma NoFilterListsAll(doctors: seq<Listing>)
    ensures FilteredDoctors(doctors, "", "") == doctors
  {
    forall i | 0 <= i < |doctors| ensures Shown(doctors[i], "", "") {
      assert Lower("") == "";
      assert "" <= Lower(doctors[i].name);
    }
    FilterAll(doctors, (d: Listing) => Shown(d, "", ""));
  }

  /** A listed doctor has the search term, ignoring case, at some position of its name or of its
      specialization, and has the chosen specialty when one is chosen. */
  lemma ShownDoctorsMatch(doctors: seq<Listing>, searchTerm: string, filterSpecialty: string, d: Listing)
    requires d in FilteredDoctors(doctors, searchTerm, filterSpecialty)
    ensures OccursSomewhere(Lower(d.name), Lower(searchTerm)) || OccursSomewhere(Lower(d.specialization), Lower(searchTerm))
    ensures filterSpecialty != "" ==> d.specialization == filterSpecialty
  {
    assert MatchesSearch(d, searchTerm) && MatchesSpecialty(d, filterSpecialty);
    OccursInOne(Lower(d.name), Lower(d.specialization), Lower(searchTerm));
  }

  /** `t` occurs in `s` at some position. */
  predicate OccursSomewhere(s: string, t: string) {
    exists i :: 0 <= i <= |s| && OccursAt(s, t, i)
  }

  lemma OccursInOne(name: string, specialization: string, term: string)
    requires Contains(name, term) || Contains(specialization, term)
    ensures OccursSomewhere(name, term) || OccursSomewhere(specialization, term)
  {
    ContainsAt(name, term);
    ContainsAt(specialization, term);
  }

  /** The search ignores case: searching for the lower-cased term lists the same doctors. */
  lemma SearchIgnoresCase(doctors: seq<Listing>, searchTerm: string, filterSpecialty: string)
    ensures FilteredDoctors(doctors, Lower(searchTerm), filterSpecialty) == FilteredDoctors(doctors, searchTerm, filterSpecialty)
  {
    LowerIdempotent(searchTerm);
    FilterCongruent(doctors, (d: Listing) => Shown(d, Lower(searchTerm), filterSpecialty),
                    (d: Listing) => Shown(d, searchTerm, filterSpecialty));
  }

  /** Choosing a specialty only narrows the list of a search. */
  lemma SpecialtyNarrows(doctors: seq<Listing>, searchTerm: string, filterSpecialty: string, d: Listing)
    requires d in FilteredDoctors(doctors, searchTerm, filterSpecialty)
    ensures d in FilteredDoctors(doctors, searchTerm, "")
  {
  }
}
