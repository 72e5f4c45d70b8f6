/** The doctor search of the patient router (`/search-doctors`, speciality and
    location) and of the admin router (`/search-doctors`, speciality, location
    and name).  Each non-empty query field adds a case-insensitive `$regex`
    condition on its path; the conditions are joined by AND. */
module Search {
  import opened Common
  import opened Text
  import opened DoctorModel

  /** One condition of the query object: an empty (absent) field adds none. */
  predicate FieldMatches(value: string, query: string) {
    query == "" || ContainsIgnoringCase(value, query)
  }

  predicate MatchesQuery(d: Doctor, speciality: string, location: string, name: string) {
    FieldMatches(d.speciality, speciality) && FieldMatches(d.location, location) && FieldMatches(d.name, name)
  }

  /** `Doctor.find(query)` on the query the admin handler builds. */
  function SearchDoctors(doctors: seq<Doctor>, speciality: string, location: string, name: string): (r: seq<Doctor>)
    ensures |r| <= |doctors|
    ensures forall d :: d in r <==>
              && d in doctors
              && (speciality != "" ==> ContainsIgnoringCase(d.speciality, speciality))
              && (location != "" ==> ContainsIgnoringCase(d.location, location))
              && (name != "" ==> ContainsIgnoringCase(d.name, name))
    ensures forall d :: multiset(r)[d] == if MatchesQuery(d, speciality, location, name) then multiset(doctors)[d] else 0
  {
    Filter(doctors, (d: Doctor) => MatchesQuery(d, speciality, location, name))
  }

  /** The patient handler reads no name from the query. */
  function PatientSearch(doctors: seq<Doctor>, speciality: string, location: string): (r: seq<Doctor>)
    ensures |r| <= |doctors|
    ensures forall d :: d in r <==>
              && d in doctors
              && (speciality != "" ==> ContainsIgnoringCase(d.speciality, speciality))
              && (location != "" ==> ContainsIgnoringCase(d.location, location))
    ensures forall d :: multiset(r)[d] == if MatchesQuery(d, speciality, location, "") then multiset(doctors)[d] else 0
  {
    SearchDoctors(doctors, speciality, location, "")
  }

  /** A query with every field empty returns the whole collection, in order. */
  lemma EmptyQueryReturnsAll(doctors: seq<Doctor>)
    ensures SearchDoctors(doctors, "", "", "") == doctors
    ensures PatientSearch(doctors, "", "") == doctors
  {
    FilterKeepsAll(doctors, (d: Doctor) => MatchesQuery(d, "", "", ""));
  }

  /** The case of the query does not matter: lower-casing every field gives
      the same doctors in the same order. */
  lemma QueryCaseIgnored(doctors: seq<Doctor>, speciality: string, location: string, name: string)
    ensures SearchDoctors(doctors, ToLower(speciality), ToLower(location), ToLower(name))
         == SearchDoctors(doctors, speciality, location, name)
  {
    forall d: Doctor
      ensures MatchesQuery(d, ToLower(speciality), ToLower(location), ToLower(name))
           == MatchesQuery(d, speciality, location, name)
    {
      ContainsIgnoringCaseFacts(d.speciality, speciality);
      ContainsIgnoringCaseFacts(d.location, location);
      ContainsIgnoringCaseFacts(d.name, name);
    }
    FilterAgree(doctors, (d: Doctor) => MatchesQuery(d, ToLower(speciality), ToLower(location), ToLower(name)),
                         (d: Doctor) => MatchesQuery(d, speciality, location, name));
  }
}
