/** The Doctor schema (models/Doctor.js): doctors live in their own collection
    and are created only by an admin. */
module DoctorModel {
  import opened Common
  import opened Text
  import opened Fields

  datatype Doctor = Doctor(
    id: Id,
    name: string,
    email: string,
    password: string,
    age: int,
    gender: string,
    speciality: string,
    qualification: string,
    hospital: string,
    address: string,
    imageUrl: string,
    maxMorning: int,
    maxEvening: int,
    location: string,
    role: string)

  /** The stock icon `image_url` defaults to.  The value is the one string
      of the schema; it is written in pieces because the verifier reads the
      characters of a long string literal only near its end, and the pieces
      let it see the "https://" prefix. */
  const DefaultImageUrl: string := "https://" + "cdn-icons-png.flaticon.com" + "/512/3135/3135715.png"

  /** The fields the add-doctor route takes from the request body; the ones
      with a schema default may be absent. */
  datatype DoctorInput = DoctorInput(
    name: string,
    age: int,
    gender: string,
    speciality: string,
    qualification: string,
    hospital: string,
    address: string,
    email: string,
    password: string,
    maxMorning: Option<int>,
    maxEvening: Option<int>,
    location: string,
    imageUrl: Option<string>)

  /** Everything the schema checks on `save()`.  `role` has a default and no rule. */
  predicate ValidDoctor(d: Doctor) {
    && ValidName(d.name)
    && EmailMatches(d.email)
    && ValidPassword(d.password)
    && 25 <= d.age <= 100
    && ValidGender(d.gender)
    && Required(d.speciality) && Required(d.qualification)
    && Required(d.hospital) && Required(d.address) && Required(d.location)
    && IsHttpLink(d.imageUrl)
    && d.maxMorning >= 0 && d.maxEvening >= 0
  }

  /** The document `new Doctor({...})` builds from an input and the password
      value to store: absent capacities default to 0, an absent image to the
      stock icon, the role to "doctor"; the email goes through its setters. */
  function NewDoctor(id: Id, input: DoctorInput, password: string): (d: Doctor)
    ensures d.id == id && d.password == password && d.role == "doctor"
    ensures d.email == NormalizeEmail(input.email)
    ensures d.maxMorning == (if input.maxMorning.Some? then input.maxMorning.value else 0)
    ensures d.maxEvening == (if input.maxEvening.Some? then input.maxEvening.value else 0)
    ensures input.imageUrl.None? ==> d.imageUrl == DefaultImageUrl
    ensures input.imageUrl.Some? ==> d.imageUrl == input.imageUrl.value
    ensures d.name == input.name && d.age == input.age && d.gender == input.gender
    ensures d.speciality == input.speciality && d.qualification == input.qualification
    ensures d.hospital == input.hospital && d.address == input.address && d.location == input.location
  {
    Doctor(id, input.name, NormalizeEmail(input.email), password, input.age, input.gender,
           input.speciality, input.qualification, input.hospital, input.address,
           match input.imageUrl case None => DefaultImageUrl case Some(u) => u,
           match input.maxMorning case None => 0 case Some(n) => n,
           match input.maxEvening case None => 0 case Some(n) => n,
           input.location, "doctor")
  }

  /** The stock icon is an http link, so the image default passes the image rule. */
  lemma DefaultImageUrlIsLink()
    ensures IsHttpLink(DefaultImageUrl)
  {
  }

  /** The defaults pass their own rules: a doctor built with no image and no
      capacities gets the stock link, capacities 0 and role "doctor", and it
      validates exactly when the fields the caller supplied pass their rules. */
  lemma DefaultsAreValid(id: Id, input: DoctorInput, password: string)
    requires input.imageUrl.None? && input.maxMorning.None? && input.maxEvening.None?
    ensures var d := NewDoctor(id, input, password);
      IsHttpLink(d.imageUrl) && d.maxMorning == 0 && d.maxEvening == 0 && d.role == "doctor"
    ensures ValidDoctor(NewDoctor(id, input, password)) <==>
      && ValidName(input.name)
      && EmailMatches(NormalizeEmail(input.email))
      && ValidPassword(password)
      && 25 <= input.age <= 100
      && ValidGender(input.gender)
      && Required(input.speciality) && Required(input.qualification)
      && Required(input.hospital) && Required(input.address) && Required(input.location)
  {
    DefaultImageUrlIsLink();
  }

  /** `doctor.maxAppointments[slot]`: the capacity of a slot, or nothing (JavaScript
      `undefined`) for a key that is not a slot. */
  function SlotLimit(d: Doctor, slot: string): (r: Option<int>)
    ensures r.Some? <==> slot == "morning" || slot == "evening"
    ensures slot == "morning" ==> r == Some(d.maxMorning)
    ensures slot == "evening" ==> r == Some(d.maxEvening)
  {
    if slot == "morning" then Some(d.maxMorning)
    else if slot == "evening" then Some(d.maxEvening)
    else None
  }

  /** Index of the doctor with this id (`findById`). */
  function FindDoctor(s: seq<Doctor>, id: Id): (r: Option<nat>)
    ensures r.Some? ==> r.value < |s| && s[r.value].id == id
    ensures r.None? <==> forall j :: 0 <= j < |s| ==> s[j].id != id
  {
    First(s, (d: Doctor) => d.id == id)
  }

  predicate DistinctDoctorIds(s: seq<Doctor>) {
    forall i, j :: 0 <= i < j < |s| ==> s[i].id != s[j].id
  }

  /** With distinct ids, looking a doctor up by its id finds that very doctor. */
  lemma FindDoctorAt(s: seq<Doctor>, k: nat)
    requires DistinctDoctorIds(s) && k < |s|
    ensures FindDoctor(s, s[k].id) == Some(k)
  {
  }
}
